/**
 * The planet (`Planet`, src/terrain/planet/mod.rs:58-171 and 299-382): the
 * dual tiles, their borders, the tiles at each corner, each tile's
 * neighbours and the plates, built from the dual vertices and tile rings
 * that `to_planet` hands over.
 */
module Planets {
  import opened Outcomes
  import opened Pairs
  import opened PlanetTile
  import PlanetPlate
  import PlanetBorder
  import PrimalMesh
  import PlanetBorders
  import PlanetIndex
  import PlanetPlates
  import PlanetMerge

  type Plate = PlanetPlate.Plate
  type Border = PlanetBorder.Border

  /** The number of plates seeded by `grow_plates` (line 311). */
  const SeedPlates: nat := 27

  /** The jitter scale `Planet::new` stores (line 167). */
  const Scale: real := 10.0

  // ---------------------------------------------------------------------------
  // The border map

  /** Under the source's check, a key of the collected map is ordered and lists two tiles. */
  lemma KeyReady(rings: seq<seq<nat>>, m: map<Pair, seq<nat>>, key: Pair)
    requires PlanetBorders.Collected(m, PlanetBorders.Pushes(rings)) && PlanetBorders.Paired(rings)
    requires key in m
    ensures key.0 <= key.1 && |m[key]| == 2 && m[key][0] < |rings| && m[key][1] < |rings|
  {
    var pushes := PlanetBorders.Pushes(rings);
    var listed := PlanetBorders.TilesOf(pushes, key);
    assert m[key] == listed && |listed| > 0;
    assert |listed| == 2;
    PlanetBorders.TilesOfMembers(pushes, key);
    PlanetBorders.TilesOfInRange(rings, key);
    var x := listed[0];
    assert x in listed && listed[1] in listed;
    PlanetBorders.PushesMembers(rings, key, x);
    var j :| 0 <= j < |rings[x]| && PlanetBorders.RingKey(rings[x], j) == key;
  }

  /** Under the source's check, every key of the collected map is ordered and lists two tiles. */
  lemma MapReady(rings: seq<seq<nat>>, m: map<Pair, seq<nat>>)
    requires PlanetBorders.Collected(m, PlanetBorders.Pushes(rings)) && PlanetBorders.Paired(rings)
    ensures PlanetBorders.Ready(m, |rings|)
  {
    forall key | key in m
      ensures key.0 <= key.1 && |m[key]| == 2 && m[key][0] < |rings| && m[key][1] < |rings|
    {
      KeyReady(rings, m, key);
    }
  }

  /** Every border of the map joins two consecutive corners of the rings of both its tiles. */
  lemma BorderOnRings(rings: seq<seq<nat>>, m: map<Pair, seq<nat>>, b: Border)
    requires PlanetBorders.Collected(m, PlanetBorders.Pushes(rings)) && PlanetBorders.Paired(rings)
    requires PlanetBorders.BorderFor(b, m)
    ensures b.tiles.0 < |rings| && b.tiles.1 < |rings|
    ensures PlanetBorders.OnRing(rings[b.tiles.0], b.vertices) && PlanetBorders.OnRing(rings[b.tiles.1], b.vertices)
  {
    var key := b.vertices;
    var pushes := PlanetBorders.Pushes(rings);
    MapReady(rings, m);
    PlanetBorders.TilesOfMembers(pushes, key);
    assert m[key][0] in PlanetBorders.TilesOf(pushes, key);
    assert m[key][1] in PlanetBorders.TilesOf(pushes, key);
    PlanetBorders.PushesMembers(rings, key, m[key][0]);
    PlanetBorders.PushesMembers(rings, key, m[key][1]);
    assert b.tiles.0 in multiset{m[key][0], m[key][1]} && b.tiles.1 in multiset{m[key][0], m[key][1]};
  }

  /** The border built for a key separates each of the two tiles listed under it. */
  lemma BorderOfListed(m: map<Pair, seq<nat>>, b: Border, t: nat)
    requires PlanetBorders.BorderFor(b, m) && t in m[b.vertices]
    ensures b.tiles.0 == t || b.tiles.1 == t
  {
    var listed := m[b.vertices];
    assert t in multiset{listed[0], listed[1]} by {
      assert listed == [listed[0], listed[1]];
    }
  }

  /** Every side of every ring is a border listing that ring's tile. */
  lemma SideHasBorder(rings: seq<seq<nat>>, m: map<Pair, seq<nat>>, borders: seq<Border>, t: nat, j: nat)
    requires PlanetBorders.Collected(m, PlanetBorders.Pushes(rings)) && PlanetBorders.Paired(rings)
    requires forall i :: 0 <= i < |borders| ==> PlanetBorders.BorderFor(borders[i], m)
    requires forall key :: key in m ==> exists i :: 0 <= i < |borders| && borders[i].vertices == key
    requires t < |rings| && j < |rings[t]|
    ensures exists i :: (0 <= i < |borders| && borders[i].vertices == PlanetBorders.RingKey(rings[t], j) &&
                         (borders[i].tiles.0 == t || borders[i].tiles.1 == t))
  {
    var key := PlanetBorders.RingKey(rings[t], j);
    var pushes := PlanetBorders.Pushes(rings);
    PlanetBorders.PushesMembers(rings, key, t);
    PlanetBorders.TilesOfMembers(pushes, key);
    var listed := PlanetBorders.TilesOf(pushes, key);
    assert t in listed;
    assert key in m && m[key] == listed;
    KeyReady(rings, m, key);
    var i :| 0 <= i < |borders| && borders[i].vertices == key;
    BorderOfListed(m, borders[i], t);
  }

  /** Each border joins two consecutive corners of both its tiles' rings. */
  ghost predicate BordersOnRings(rings: seq<seq<nat>>, borders: seq<Border>)
  {
    forall i :: 0 <= i < |borders| ==>
      && borders[i].tiles.0 < |rings| && borders[i].tiles.1 < |rings|
      && PlanetBorders.OnRing(rings[borders[i].tiles.0], borders[i].vertices)
      && PlanetBorders.OnRing(rings[borders[i].tiles.1], borders[i].vertices)
  }

  /** Each side of each tile's ring is one of the tile's borders. */
  ghost predicate SidesBordered(rings: seq<seq<nat>>, tiles: seq<Tile>, borders: seq<Border>)
    requires |tiles| == |rings|
  {
    forall t, j :: 0 <= t < |rings| && 0 <= j < |rings[t]| ==> SideBordered(rings, tiles, borders, t, j)
  }

  /** Side `j` of tile `t`'s ring is one of the tile's borders. */
  ghost predicate SideBordered(rings: seq<seq<nat>>, tiles: seq<Tile>, borders: seq<Border>, t: nat, j: nat)
    requires t < |tiles| && t < |rings| && j < |rings[t]|
  {
    exists i :: i in tiles[t].borders && i < |borders| && borders[i].vertices == PlanetBorders.RingKey(rings[t], j)
  }

  // ---------------------------------------------------------------------------
  // Neighbours

  /** Some listed neighbour of tile `t` other than itself has side `j` of `t`'s ring as an edge. */
  ghost predicate MetBy(tiles: seq<Tile>, tn: seq<seq<nat>>, t: nat, j: nat)
    requires t < |tiles| && t < |tn| && j < |tiles[t].vertices|
  {
    var ring := tiles[t].vertices;
    exists w :: w in tn[t] && w < |tiles| && w != t && tiles[w].HasEdge(ring[j], ring[After(j, |ring|)])
  }

  /** Whenever another tile has a side of tile `t`'s ring as an edge, some such tile is listed as `t`'s neighbour. */
  ghost predicate SidesMet(tiles: seq<Tile>, tn: seq<seq<nat>>)
  {
    |tn| == |tiles| &&
    forall t, j, u ::
      (0 <= t < |tiles| && 0 <= j < |tiles[t].vertices| && 0 <= u < |tiles| && u != t &&
       tiles[u].HasEdge(tiles[t].vertices[j], tiles[t].vertices[After(j, |tiles[t].vertices|)])) ==>
      MetBy(tiles, tn, t, j)
  }

  /** The lists built from every corner's tiles meet every side shared with another tile. */
  lemma SideHasNeighbour(rings: seq<seq<nat>>, tiles: seq<Tile>, vt: seq<seq<nat>>, tn: seq<seq<nat>>)
    requires |tiles| == |rings| && forall t :: 0 <= t < |rings| ==> tiles[t].vertices == rings[t]
    requires forall t, j :: 0 <= t < |rings| && 0 <= j < |rings[t]| ==> rings[t][j] < |vt|
    requires forall v :: 0 <= v < |vt| ==> vt[v] == PlanetIndex.TilesAt(rings, v)
    requires PlanetIndex.Sound(tiles, tn)
    requires forall v, k :: 0 <= v < |vt| && 0 <= k < |vt[v]| ==> PlanetIndex.Covers(tiles, tn, vt[v][k], vt[v])
    ensures SidesMet(tiles, tn)
  {
    forall t, j, u | 0 <= t < |tiles| && 0 <= j < |tiles[t].vertices| && 0 <= u < |tiles| && u != t &&
      tiles[u].HasEdge(tiles[t].vertices[j], tiles[t].vertices[After(j, |tiles[t].vertices|)])
      ensures MetBy(tiles, tn, t, j)
    {
      var ring := tiles[t].vertices;
      var a, b := ring[j], ring[After(j, |ring|)];
      var cands := vt[a];
      PlanetIndex.TilesAtMembers(rings, a, t);
      PlanetIndex.TilesAtMembers(rings, a, u);
      var k :| 0 <= k < |cands| && cands[k] == t;
      assert PlanetIndex.Covers(tiles, tn, t, cands);
      var found := PlanetIndex.FirstOther(cands, t, tiles, a, b);
      var ku :| 0 <= ku < |cands| && cands[ku] == u;
      assert found.Some?;
    }
  }

  /** Every entry of a sound neighbour list is a tile index. */
  lemma SoundInRange(tiles: seq<Tile>, tn: seq<seq<nat>>)
    requires PlanetIndex.Sound(tiles, tn)
    ensures PlanetPlates.NeighboursIn(tn, |tiles|)
  {
    forall t, i | 0 <= t < |tiles| && 0 <= i < |tn[t]|
      ensures tn[t][i] < |tiles|
    {
      assert PlanetIndex.Adjacent(tiles, t, tn[t][i]);
    }
  }

  /** Under consistent ids no tile is listed by two plates. */
  lemma ConsistentDisjoint(tiles: seq<Tile>, plates: seq<Plate>, k: nat, l: nat, t: nat)
    requires PlanetPlates.Consistent(tiles, plates)
    requires k < |plates| && l < |plates| && t in plates[k].tiles && t in plates[l].tiles
    ensures k == l
  {
    var i :| 0 <= i < |plates[k].tiles| && plates[k].tiles[i] == t;
    var j :| 0 <= j < |plates[l].tiles| && plates[l].tiles[j] == t;
    assert t < |tiles|;
    assert tiles[t].plateId == k + 1 && tiles[t].plateId == l + 1;
  }

  /** The borders of the collected map lie on the rings of their tiles. */
  lemma BordersFit(rings: seq<seq<nat>>, m: map<Pair, seq<nat>>, borders: seq<Border>)
    requires PlanetBorders.Collected(m, PlanetBorders.Pushes(rings)) && PlanetBorders.Paired(rings)
    requires forall i :: 0 <= i < |borders| ==> PlanetBorders.BorderFor(borders[i], m)
    ensures BordersOnRings(rings, borders)
  {
    forall i | 0 <= i < |borders|
      ensures borders[i].tiles.0 < |rings| && borders[i].tiles.1 < |rings|
      ensures PlanetBorders.OnRing(rings[borders[i].tiles.0], borders[i].vertices)
      ensures PlanetBorders.OnRing(rings[borders[i].tiles.1], borders[i].vertices)
    {
      BorderOnRings(rings, m, borders[i]);
    }
  }

  /** Side `j` of tile `t` is among the border indices pushed onto the tile. */
  lemma SideFits(rings: seq<seq<nat>>, m: map<Pair, seq<nat>>, tiles: seq<Tile>, bordered: seq<Tile>,
                 borders: seq<Border>, t: nat, j: nat)
    requires PlanetBorders.Collected(m, PlanetBorders.Pushes(rings)) && PlanetBorders.Paired(rings)
    requires forall i :: 0 <= i < |borders| ==> PlanetBorders.BorderFor(borders[i], m)
    requires forall key :: key in m ==> exists i :: 0 <= i < |borders| && borders[i].vertices == key
    requires |tiles| == |rings| && t < |rings| && j < |rings[t]| && tiles[t].borders == []
    requires PlanetBorders.Extended(tiles, bordered, borders)
    ensures SideBordered(rings, bordered, borders, t, j)
  {
    SideHasBorder(rings, m, borders, t, j);
    var i :| 0 <= i < |borders| && borders[i].vertices == PlanetBorders.RingKey(rings[t], j) &&
      (borders[i].tiles.0 == t || borders[i].tiles.1 == t);
    PlanetBorders.BorderListMembers(borders, t, i);
    assert bordered[t].borders == [] + PlanetBorders.BorderList(borders, t);
  }

  /** Every side of every tile is among the border indices pushed onto it. */
  lemma SidesFit(rings: seq<seq<nat>>, m: map<Pair, seq<nat>>, tiles: seq<Tile>, bordered: seq<Tile>, borders: seq<Border>)
    requires PlanetBorders.Collected(m, PlanetBorders.Pushes(rings)) && PlanetBorders.Paired(rings)
    requires forall i :: 0 <= i < |borders| ==> PlanetBorders.BorderFor(borders[i], m)
    requires forall key :: key in m ==> exists i :: 0 <= i < |borders| && borders[i].vertices == key
    requires |tiles| == |rings| && forall t :: 0 <= t < |rings| ==> tiles[t].borders == []
    requires PlanetBorders.Extended(tiles, bordered, borders)
    ensures |bordered| == |rings| && SidesBordered(rings, bordered, borders)
  {
    forall t, j | 0 <= t < |rings| && 0 <= j < |rings[t]|
      ensures SideBordered(rings, bordered, borders, t, j)
    {
      SideFits(rings, m, tiles, bordered, borders, t, j);
    }
  }

  /** Fresh tiles extended by the borders hold exactly each tile's border list. */
  lemma FreshExtended(rings: seq<seq<nat>>, corners: nat, made: seq<Tile>, tiles: seq<Tile>, borders: seq<Border>)
    requires |made| == |rings| && forall t :: 0 <= t < |rings| ==> made[t] == New(rings[t], corners + t)
    requires PlanetBorders.Extended(made, tiles, borders)
    ensures |tiles| == |rings|
    ensures forall t :: 0 <= t < |rings| ==>
      tiles[t] == Tile(rings[t], corners + t, PlanetBorders.BorderList(borders, t), 0)
  {
    forall t | 0 <= t < |rings|
      ensures tiles[t] == Tile(rings[t], corners + t, PlanetBorders.BorderList(borders, t), 0)
    {
      assert made[t].borders == [];
      assert [] + PlanetBorders.BorderList(borders, t) == PlanetBorders.BorderList(borders, t);
    }
  }

  /** Lines 73-111: the tiles, then the borders from the collected map, each pushed onto both its tiles. */
  method BuildTiles(rings: seq<seq<nat>>, corners: nat) returns (tiles: seq<Tile>, borders: seq<Border>)
    requires forall t :: 0 <= t < |rings| ==> |rings[t]| > 0
    requires PlanetBorders.Paired(rings)
    ensures |tiles| == |rings|
    ensures forall t :: 0 <= t < |rings| ==>
      tiles[t] == Tile(rings[t], corners + t, PlanetBorders.BorderList(borders, t), 0)
    ensures forall i, j :: 0 <= i < j < |borders| ==> borders[i].vertices != borders[j].vertices
    ensures BordersOnRings(rings, borders) && SidesBordered(rings, tiles, borders)
  {
    var made := PlanetIndex.MakeTiles(rings, corners);
    var m := PlanetBorders.CollectKeys(rings);
    MapReady(rings, m);
    tiles, borders := PlanetBorders.MakeBorders(made, m);
    BordersFit(rings, m, borders);
    SidesFit(rings, m, made, tiles, borders);
    FreshExtended(rings, corners, made, tiles, borders);
  }

  /**
   * Lines 73-143: the tiles with their borders, the tiles at each corner
   * and each tile's neighbours.
   */
  method Build(rings: seq<seq<nat>>, corners: nat)
    returns (tiles: seq<Tile>, borders: seq<Border>, vt: seq<seq<nat>>, tn: seq<seq<nat>>)
    requires forall t :: 0 <= t < |rings| ==> |rings[t]| > 0
    requires forall t, j :: 0 <= t < |rings| && 0 <= j < |rings[t]| ==> rings[t][j] < corners
    requires PlanetBorders.Paired(rings)
    ensures |tiles| == |rings|
    ensures forall t :: 0 <= t < |rings| ==>
      tiles[t] == Tile(rings[t], corners + t, PlanetBorders.BorderList(borders, t), 0)
    ensures forall i, j :: 0 <= i < j < |borders| ==> borders[i].vertices != borders[j].vertices
    ensures BordersOnRings(rings, borders) && SidesBordered(rings, tiles, borders)
    ensures |vt| == corners && forall v :: 0 <= v < corners ==> vt[v] == PlanetIndex.TilesAt(rings, v)
    ensures forall v, i :: 0 <= v < |vt| && 0 <= i < |vt[v]| ==> vt[v][i] < |tiles|
    ensures PlanetIndex.Sound(tiles, tn) && SidesMet(tiles, tn) && PlanetPlates.NeighboursIn(tn, |tiles|)
  {
    tiles, borders := BuildTiles(rings, corners);
    vt := PlanetIndex.VertexTiles(rings, corners);
    tn := PlanetIndex.TileNeighbours(tiles, vt);
    SideHasNeighbour(rings, tiles, vt, tn);
    SoundInRange(tiles, tn);
  }

  // ---------------------------------------------------------------------------
  // Plate ids do not touch the tile graph

  /** Whether a tile has an edge depends on its ring only. */
  lemma HasEdgeOfRing(x: Tile, y: Tile, a: nat, b: nat)
    requires x.vertices == y.vertices
    ensures x.HasEdge(a, b) == y.HasEdge(a, b)
  {
    assert x.IndexOf(a) == y.IndexOf(a);
  }

  /** Sound neighbour lists stay sound when only plate ids change. */
  lemma SoundKept(a: seq<Tile>, b: seq<Tile>, tn: seq<seq<nat>>)
    requires PlanetPlates.SameTiles(a, b) && PlanetIndex.Sound(a, tn)
    ensures PlanetIndex.Sound(b, tn)
  {
    forall t, x | 0 <= t < |tn| && x in tn[t]
      ensures PlanetIndex.Adjacent(b, t, x)
    {
      assert PlanetIndex.Adjacent(a, t, x);
      var ring := a[t].vertices;
      var j :| 0 <= j < |ring| && a[x].HasEdge(ring[j], ring[After(j, |ring|)]);
      HasEdgeOfRing(a[x], b[x], ring[j], ring[After(j, |ring|)]);
    }
  }

  /** Met sides stay met when only plate ids change. */
  lemma SidesMetKept(a: seq<Tile>, b: seq<Tile>, tn: seq<seq<nat>>)
    requires PlanetPlates.SameTiles(a, b) && SidesMet(a, tn)
    ensures SidesMet(b, tn)
  {
    forall t, j, u |
      (0 <= t < |b| && 0 <= j < |b[t].vertices| && 0 <= u < |b| && u != t &&
       b[u].HasEdge(b[t].vertices[j], b[t].vertices[After(j, |b[t].vertices|)]))
      ensures MetBy(b, tn, t, j)
    {
      var ring := a[t].vertices;
      var p, q := ring[j], ring[After(j, |ring|)];
      HasEdgeOfRing(a[u], b[u], p, q);
      assert MetBy(a, tn, t, j);
      var w :| w in tn[t] && w < |a| && w != t && a[w].HasEdge(p, q);
      HasEdgeOfRing(a[w], b[w], p, q);
    }
  }

  /** Bordered sides stay bordered when only plate ids change. */
  lemma SidesBorderedKept(rings: seq<seq<nat>>, a: seq<Tile>, b: seq<Tile>, borders: seq<Border>)
    requires |a| == |rings| && PlanetPlates.SameTiles(a, b) && SidesBordered(rings, a, borders)
    ensures SidesBordered(rings, b, borders)
  {
    forall t, j | 0 <= t < |rings| && 0 <= j < |rings[t]|
      ensures SideBordered(rings, b, borders, t, j)
    {
      assert SideBordered(rings, a, borders, t, j);
      assert b[t].borders == a[t].borders;
    }
  }

  // ---------------------------------------------------------------------------
  // Tiles listed once

  /** Under consistent ids and plates without repeats, the first `n` plates list a tile at most once, and only if its id is one of theirs. */
  lemma {:induction false} ListedOnce(tiles: seq<Tile>, plates: seq<Plate>, n: nat, t: nat)
    requires PlanetPlates.Consistent(tiles, plates) && PlanetPlates.Unrepeated(plates) && n <= |plates|
    ensures PlanetMerge.Total(plates[..n], PlanetMerge.TileBag)[t] <= 1
    ensures PlanetMerge.Total(plates[..n], PlanetMerge.TileBag)[t] == 1 ==> t < |tiles| && 1 <= tiles[t].plateId <= n
    decreases n
  {
    if n > 0 {
      var last := plates[n - 1];
      ListedOnce(tiles, plates, n - 1, t);
      assert plates[..n][..n - 1] == plates[..n - 1];
      assert PlanetMerge.Total(plates[..n], PlanetMerge.TileBag)
          == PlanetMerge.Total(plates[..n - 1], PlanetMerge.TileBag) + multiset(last.tiles);
      PlanetIndex.CountUnrepeated(last.tiles, t);
      if t in last.tiles {
        var i :| 0 <= i < |last.tiles| && last.tiles[i] == t;
        assert t < |tiles| && tiles[t].plateId == n;
      }
    }
  }

  /** Under consistent ids and plates without repeats, all the plates together list each tile at most once. */
  lemma ListedOnceOverall(tiles: seq<Tile>, plates: seq<Plate>)
    requires PlanetPlates.Consistent(tiles, plates) && PlanetPlates.Unrepeated(plates)
    ensures forall t :: PlanetMerge.Total(plates, PlanetMerge.TileBag)[t] <= 1
  {
    assert plates[..|plates|] == plates;
    forall t
      ensures PlanetMerge.Total(plates, PlanetMerge.TileBag)[t] <= 1
    {
      ListedOnce(tiles, plates, |plates|, t);
    }
  }

  /** When no ring repeats a corner, the corner lists built from the rings repeat no tile. */
  lemma CornersOfRings(rings: seq<seq<nat>>, vt: seq<seq<nat>>)
    requires forall v :: 0 <= v < |vt| ==> vt[v] == PlanetIndex.TilesAt(rings, v)
    requires PlanetIndex.RingsUnrepeated(rings)
    ensures PlanetPlates.CornersUnrepeated(vt)
  {
    forall v | 0 <= v < |vt|
      ensures forall i, j :: 0 <= i < j < |vt[v]| ==> vt[v][i] != vt[v][j]
    {
      PlanetIndex.TilesAtUnrepeated(rings, v);
    }
  }

  /** `tiles'` is `tiles` with each plate id replaced as `assign_plates` leaves it. */
  ghost predicate Relabelled(tiles: seq<Tile>, tiles': seq<Tile>, plates: seq<Plate>)
  {
    |tiles'| == |tiles| &&
    forall t :: 0 <= t < |tiles| ==> tiles'[t] == tiles[t].(plateId := PlanetMerge.Owner(plates, t, tiles[t].plateId))
  }

  /** Every tile a plate lists exists and carries that plate's id. */
  ghost predicate CarryIds(tiles: seq<Tile>, plates: seq<Plate>)
  {
    forall k, t :: 0 <= k < |plates| && t in plates[k].tiles ==> t < |tiles| && tiles[t].plateId == plates[k].id
  }

  /** After relabelling by plates that list each tile at most once, every listed tile carries its plate's id. */
  lemma OwnersCarryIds(tiles: seq<Tile>, tiles': seq<Tile>, plates: seq<Plate>, before: seq<Plate>)
    requires Relabelled(tiles, tiles', plates)
    requires forall k, i :: 0 <= k < |plates| && 0 <= i < |plates[k].tiles| ==> plates[k].tiles[i] < |tiles|
    requires PlanetMerge.Total(plates, PlanetMerge.TileBag) == PlanetMerge.Total(before, PlanetMerge.TileBag)
    requires forall t :: PlanetMerge.Total(before, PlanetMerge.TileBag)[t] <= 1
    ensures CarryIds(tiles', plates)
  {
    forall k, t | 0 <= k < |plates| && t in plates[k].tiles
      ensures t < |tiles'| && tiles'[t].plateId == plates[k].id
    {
      var i :| 0 <= i < |plates[k].tiles| && plates[k].tiles[i] == t;
      PlanetMerge.OwnerOfListed(plates, t, tiles[t].plateId, k);
    }
  }

  /** What a finished `merge_plates` leaves: big enough plates, sorted by size, holding the same tiles under fewer ids, and the tiles relabelled by them. */
  ghost predicate Merged(tiles: seq<Tile>, plates: seq<Plate>, tiles': seq<Tile>, plates': seq<Plate>, minSize: nat)
  {
    && 0 < |plates'| <= |plates| && PlanetMerge.BySize(plates')
    && (forall k :: 0 <= k < |plates'| ==> |plates'[k].tiles| >= minSize)
    && PlanetMerge.Total(plates', PlanetMerge.TileBag) == PlanetMerge.Total(plates, PlanetMerge.TileBag)
    && PlanetMerge.Total(plates', PlanetMerge.IdBag) <= PlanetMerge.Total(plates, PlanetMerge.IdBag)
    && Relabelled(tiles, tiles', plates')
  }

  /** Where `merge_plates` panics: no plates, or a round (`stuck`, holding the same tiles) whose smallest plate touches no other. */
  ghost predicate StuckAt(plates: seq<Plate>, tn: seq<seq<nat>>, numTiles: nat, stuck: seq<Plate>)
  {
    plates == [] ||
    (PlanetMerge.Stuck(stuck, tn, numTiles / 30) &&
     PlanetMerge.Total(stuck, PlanetMerge.TileBag) == PlanetMerge.Total(plates, PlanetMerge.TileBag))
  }

  /** Lines 333-382 on values: the merge loop, then `assign_plates` on the merged plates. */
  method MergeAndAssign(tiles: seq<Tile>, plates: seq<Plate>, tn: seq<seq<nat>>, numTiles: nat)
    returns (r: Outcome<(seq<Tile>, seq<Plate>)>, ghost stuck: seq<Plate>)
    requires |tn| == |tiles|
    requires forall k, i :: 0 <= k < |plates| && 0 <= i < |plates[k].tiles| ==> plates[k].tiles[i] < |tiles|
    ensures r.Panic? ==> StuckAt(plates, tn, numTiles, stuck)
    ensures r.Done? ==> Merged(tiles, plates, r.value.0, r.value.1, numTiles / 30)
    ensures r.Done? ==> forall k, i :: 0 <= k < |r.value.1| && 0 <= i < |r.value.1[k].tiles| ==> r.value.1[k].tiles[i] < |tiles|
    ensures r.Done? && (forall t :: PlanetMerge.Total(plates, PlanetMerge.TileBag)[t] <= 1) ==> CarryIds(r.value.0, r.value.1)
  {
    var merged;
    merged, stuck := PlanetMerge.MergePlates(plates, tn, numTiles);
    if merged.Panic? {
      return Panic, stuck;
    }
    var ps := merged.value;
    var relabelled := PlanetMerge.AssignPlates(tiles, ps);
    if forall t :: PlanetMerge.Total(plates, PlanetMerge.TileBag)[t] <= 1 {
      OwnersCarryIds(tiles, relabelled, ps, plates);
    }
    return Done((relabelled, ps)), stuck;
  }

  // ---------------------------------------------------------------------------
  // The planet

  class Planet {
    var vertices: seq<PrimalMesh.DualVertex>
    var tiles: seq<Tile>
    var borders: seq<Border>
    var elevations: seq<real>
    var vertexToTiles: seq<seq<nat>>
    var tileNeighbours: seq<seq<nat>>
    var numCorners: nat
    var numTiles: nat
    var numPlates: nat
    var plates: seq<Plate>
    var scale: real

    /** The index bookkeeping that every operation relies on. */
    ghost predicate Valid()
      reads this
    {
      && |tiles| == numTiles && numCorners > 0 && |vertexToTiles| == numCorners
      && PlanetPlates.NeighboursIn(tileNeighbours, |tiles|)
      && (forall v, i :: 0 <= v < |vertexToTiles| && 0 <= i < |vertexToTiles[v]| ==> vertexToTiles[v][i] < |tiles|)
      && (forall k, i :: 0 <= k < |plates| && 0 <= i < |plates[k].tiles| ==> plates[k].tiles[i] < |tiles|)
    }

    /** Over all the plates, no tile is listed twice. */
    ghost predicate ListedOnceEach()
      reads this
    {
      forall t :: PlanetMerge.Total(plates, PlanetMerge.TileBag)[t] <= 1
    }

    /**
     * `Planet::new` (lines 73-171), then `grow_plates`.  The source stops
     * the program when there are more rings than vertices (the corner count
     * underflows), on an empty ring, on a ring corner past the corners, on a
     * key not listed by exactly two tiles (line 103), and when there are no
     * corners to draw from (line 227): hence the preconditions.  `draw` and
     * `pick` are the random draws of `grow_plates`.
     */
    constructor (vertices: seq<PrimalMesh.DualVertex>, rings: seq<seq<nat>>, draw: nat -> nat, pick: nat -> real)
      requires |vertices| > |rings|
      requires forall t :: 0 <= t < |rings| ==> |rings[t]| > 0
      requires forall t, j :: 0 <= t < |rings| && 0 <= j < |rings[t]| ==> rings[t][j] < |vertices| - |rings|
      requires PlanetBorders.Paired(rings)
      requires forall i :: draw(i) < |vertices| - |rings|
      requires forall i :: 0.0 <= pick(i) < 1.0
      ensures Valid()
      ensures this.vertices == vertices && numTiles == |rings| && numCorners == |vertices| - |rings|
      ensures elevations == seq(numCorners, v => 0.0) && scale == Scale
      ensures forall t :: 0 <= t < |rings| ==>
        tiles[t].vertices == rings[t] && tiles[t].midpoint == numCorners + t &&
        tiles[t].borders == PlanetBorders.BorderList(borders, t)
      ensures forall i, j :: 0 <= i < j < |borders| ==> borders[i].vertices != borders[j].vertices
      ensures BordersOnRings(rings, borders) && SidesBordered(rings, tiles, borders)
      ensures forall v :: 0 <= v < numCorners ==> vertexToTiles[v] == PlanetIndex.TilesAt(rings, v)
      ensures PlanetIndex.Sound(tiles, tileNeighbours) && SidesMet(tiles, tileNeighbours)
      ensures PlanetPlates.Consistent(tiles, plates) && numPlates == |plates| <= SeedPlates
      ensures PlanetPlates.Closed(tiles, tileNeighbours)
      ensures PlanetIndex.RingsUnrepeated(rings) ==> PlanetPlates.CornersUnrepeated(vertexToTiles) && ListedOnceEach()
    {
      var corners := |vertices| - |rings|;
      var bordered, bs, vt, tn := Build(rings, corners);
      var grown, ps := PlanetPlates.GrowPlates(bordered, vt, tn, SeedPlates, draw, pick);
      SoundKept(bordered, grown, tn);
      SidesMetKept(bordered, grown, tn);
      SidesBorderedKept(rings, bordered, grown, bs);
      if PlanetIndex.RingsUnrepeated(rings) {
        CornersOfRings(rings, vt);
        ListedOnceOverall(grown, ps);
      }
      this.vertices := vertices;
      tiles := grown;
      borders := bs;
      elevations := seq(corners, v => 0.0);
      vertexToTiles := vt;
      tileNeighbours := tn;
      numCorners := corners;
      numTiles := |rings|;
      numPlates := |ps|;
      plates := ps;
      scale := Scale;
    }
  
    /**
     * `grow_plates` (lines 310-331) on the planet: seed 27 plates afresh and
     * grow them; nothing but the plate ids, the plates and their count
     * changes.
     */
    method GrowPlates(draw: nat -> nat, pick: nat -> real)
      requires Valid()
      requires forall i :: draw(i) < numCorners
      requires forall i :: 0.0 <= pick(i) < 1.0
      modifies this
      ensures Valid()
      ensures vertices == old(vertices) && borders == old(borders) && elevations == old(elevations)
      ensures vertexToTiles == old(vertexToTiles) && tileNeighbours == old(tileNeighbours)
      ensures numCorners == old(numCorners) && numTiles == old(numTiles) && scale == old(scale)
      ensures PlanetPlates.SameTiles(old(tiles), tiles)
      ensures PlanetPlates.Consistent(tiles, plates) && numPlates == |plates| <= SeedPlates
      ensures PlanetPlates.Closed(tiles, tileNeighbours)
      ensures PlanetPlates.CornersUnrepeated(vertexToTiles) ==> ListedOnceEach()
    {
      var grown, ps := PlanetPlates.GrowPlates(tiles, vertexToTiles, tileNeighbours, SeedPlates, draw, pick);
      if PlanetPlates.CornersUnrepeated(vertexToTiles) {
        ListedOnceOverall(grown, ps);
      }
      tiles := grown;
      plates := ps;
      numPlates := |ps|;
    }

    /**
     * `merge_plates` (lines 333-382): merge small plates until every plate
     * has at least `numTiles / 30` tiles, then `assign_plates`.  `Panic`
     * where the source panics, and the planet is then left as it was.  The
     * plate count is not updated, as in the source.
     */
    method MergePlates() returns (r: Outcome<()>, ghost stuck: seq<Plate>)
      requires Valid()
      modifies this
      ensures Valid()
      ensures vertices == old(vertices) && borders == old(borders) && elevations == old(elevations)
      ensures vertexToTiles == old(vertexToTiles) && tileNeighbours == old(tileNeighbours)
      ensures numCorners == old(numCorners) && numTiles == old(numTiles) && scale == old(scale)
      ensures numPlates == old(numPlates)
      ensures r.Panic? ==> tiles == old(tiles) && plates == old(plates) && StuckAt(plates, tileNeighbours, numTiles, stuck)
      ensures r.Done? ==> Merged(old(tiles), old(plates), tiles, plates, numTiles / 30)
      ensures r.Done? && old(ListedOnceEach()) ==> ListedOnceEach() && CarryIds(tiles, plates)
    {
      var merged;
      merged, stuck := MergeAndAssign(tiles, plates, tileNeighbours, numTiles);
      if merged.Panic? {
        return Panic, stuck;
      }
      tiles, plates := merged.value.0, merged.value.1;
      return Done(()), stuck;
    }
  }
}
