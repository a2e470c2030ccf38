/**
 * The border half of `Planet::new` (src/terrain/planet/mod.rs:73-111).
 *
 * Every tile's ring is walked with its last corner as the first `prev`, and
 * each pair of consecutive corners, put in order, is a key under which the
 * tile's index is pushed.  Then, in the map's own (unspecified) order, each
 * key becomes one border between the two tiles listed under it, and the
 * border's index is pushed onto both tiles; a key not listed by exactly two
 * tiles stops the program.
 */
module PlanetBorders {
  import opened Pairs
  import opened PlanetTile
  import PlanetBorder
  import MeshTopology

  type Border = PlanetBorder.Border

  /** What the walk pushes: a key and the index of the tile it was met on. */
  type Push = (Pair, nat)

  /** The key met at place `j` of a ring: the corner there and the one before it, in order. */
  function RingKey(ring: seq<nat>, j: nat): (key: Pair)
    requires j < |ring|
    ensures key.0 <= key.1
    ensures key == SortedPair(ring[j], ring[Before(j, |ring|)])
  {
    SortedPair(ring[j], ring[Before(j, |ring|)])
  }

  /** `key` joins two consecutive corners of `ring`, the last and the first included. */
  ghost predicate OnRing(ring: seq<nat>, key: Pair)
  {
    exists j :: 0 <= j < |ring| && RingKey(ring, j) == key
  }

  /** The pushes of one tile, in ring order. */
  function TilePushes(ring: seq<nat>, t: nat): (r: seq<Push>)
    ensures |r| == |ring|
  {
    seq(|ring|, j requires 0 <= j < |ring| => (RingKey(ring, j), t))
  }

  /** Every push of the walk, tile by tile. */
  function Pushes(rings: seq<seq<nat>>): (r: seq<Push>)
    ensures forall i :: 0 <= i < |r| ==> r[i].1 < |rings|
    decreases |rings|
  {
    if rings == [] then []
    else
      var k := |rings| - 1;
      Pushes(rings[..k]) + TilePushes(rings[k], k)
  }

  /** The tiles pushed under `key`, in push order: the list the map holds for `key`. */
  function TilesOf(pushes: seq<Push>, key: Pair): (r: seq<nat>)
    ensures |r| <= |pushes|
    decreases |pushes|
  {
    if pushes == [] then []
    else
      var k := |pushes| - 1;
      TilesOf(pushes[..k], key) + (if pushes[k].0 == key then [pushes[k].1] else [])
  }

  /** The source's check: every key met is met exactly twice. */
  ghost predicate Paired(rings: seq<seq<nat>>)
  {
    forall key :: |TilesOf(Pushes(rings), key)| == 0 || |TilesOf(Pushes(rings), key)| == 2
  }

  /** The map holds, for every key pushed, exactly the tiles pushed under it. */
  ghost predicate Collected(m: map<Pair, seq<nat>>, pushes: seq<Push>)
  {
    forall key :: (key in m <==> |TilesOf(pushes, key)| > 0) && (key in m ==> m[key] == TilesOf(pushes, key))
  }

  // ---------------------------------------------------------------------------
  // What the map lists

  /** The tiles listed under `key` are those pushed together with `key`. */
  lemma {:induction false} TilesOfMembers(pushes: seq<Push>, key: Pair)
    ensures forall x :: x in TilesOf(pushes, key) <==> (key, x) in pushes
    decreases |pushes|
  {
    if pushes != [] {
      var k := |pushes| - 1;
      TilesOfMembers(pushes[..k], key);
      assert pushes == pushes[..k] + [pushes[k]];
    }
  }

  /** A tile is pushed under `key` exactly when `key` joins two consecutive corners of its ring. */
  lemma {:induction false} PushesMembers(rings: seq<seq<nat>>, key: Pair, x: nat)
    ensures (key, x) in Pushes(rings) <==> x < |rings| && OnRing(rings[x], key)
    decreases |rings|
  {
    if rings != [] {
      var k := |rings| - 1;
      PushesMembers(rings[..k], key, x);
      var tail := TilePushes(rings[k], k);
      if (key, x) in tail {
        var j :| 0 <= j < |tail| && tail[j] == (key, x);
        assert RingKey(rings[k], j) == key;
      }
      if x == k && OnRing(rings[k], key) {
        var j :| 0 <= j < |rings[k]| && RingKey(rings[k], j) == key;
        assert tail[j] == (key, x);
      }
      if x < k {
        assert rings[..k][x] == rings[x];
      }
    }
  }

  /** Taking one more tile appends its pushes. */
  lemma PushesStep(rings: seq<seq<nat>>, idx: nat)
    requires idx < |rings|
    ensures Pushes(rings[..idx + 1]) == Pushes(rings[..idx]) + TilePushes(rings[idx], idx)
  {
    assert rings[..idx + 1][..idx] == rings[..idx];
  }

  /** Pushing one more entry extends the list of its key and no other. */
  lemma TilesOfPush(pushes: seq<Push>, p: Push, key: Pair)
    ensures TilesOf(pushes + [p], key) == TilesOf(pushes, key) + (if p.0 == key then [p.1] else [])
  {
    assert (pushes + [p])[..|pushes|] == pushes;
  }

  /** The tiles listed under a key are tile indices. */
  lemma TilesOfInRange(rings: seq<seq<nat>>, key: Pair)
    ensures forall x :: x in TilesOf(Pushes(rings), key) ==> x < |rings|
  {
    TilesOfMembers(Pushes(rings), key);
  }

  // ---------------------------------------------------------------------------
  // The walk

  /** One push onto the map: the key's list, created empty if missing, gets the tile at its end. */
  lemma CollectPush(m: map<Pair, seq<nat>>, done: seq<Push>, pair: Pair, t: nat)
    requires Collected(m, done)
    ensures Collected(m[pair := (if pair in m then m[pair] else []) + [t]], done + [(pair, t)])
  {
    forall key
      ensures TilesOf(done + [(pair, t)], key) == TilesOf(done, key) + (if pair == key then [t] else [])
    {
      TilesOfPush(done, (pair, t), key);
    }
  }

  /** One more place of a ring walked: its key is pushed after those of the earlier places. */
  lemma TilePushesStep(ring: seq<nat>, t: nat, j: nat)
    requires j < |ring|
    ensures TilePushes(ring, t)[..j + 1] == TilePushes(ring, t)[..j] + [(RingKey(ring, j), t)]
  {
  }

  /** Lines 89-96 at place `j` of a ring: push the tile under the pair of the corner and `prev`. */
  method CollectCorner(m: map<Pair, seq<nat>>, ghost done: seq<Push>, ring: seq<nat>, idx: nat, j: nat, prev: nat)
    returns (m': map<Pair, seq<nat>>)
    requires j < |ring| && prev == ring[Before(j, |ring|)]
    requires Collected(m, done + TilePushes(ring, idx)[..j])
    ensures Collected(m', done + TilePushes(ring, idx)[..j + 1])
  {
    var curr := ring[j];
    var pair := SortedPair(curr, prev);
    var listed := if pair in m then m[pair] else [];
    CollectPush(m, done + TilePushes(ring, idx)[..j], pair, idx);
    m' := m[pair := listed + [idx]];
    TilePushesStep(ring, idx, j);
    assert done + TilePushes(ring, idx)[..j + 1] == done + TilePushes(ring, idx)[..j] + [(pair, idx)];
  }

  /** The inner loop of lines 87-97: walk one ring, the last corner serving as the first `prev`. */
  method CollectRing(m: map<Pair, seq<nat>>, ghost done: seq<Push>, ring: seq<nat>, idx: nat)
    returns (m': map<Pair, seq<nat>>)
    requires |ring| > 0 && Collected(m, done)
    ensures Collected(m', done + TilePushes(ring, idx))
  {
    m' := m;
    var n := |ring|;
    var prev := ring[n - 1];
    var j := 0;
    assert done + TilePushes(ring, idx)[..0] == done;
    while j < n
      invariant 0 <= j <= n
      invariant j < n ==> prev == ring[Before(j, n)]
      invariant Collected(m', done + TilePushes(ring, idx)[..j])
    {
      m' := CollectCorner(m', done, ring, idx, j, prev);
      prev := ring[j];
      j := j + 1;
    }
    assert TilePushes(ring, idx)[..n] == TilePushes(ring, idx);
  }

  /**
   * The loops of lines 86-98: push every tile's index under the ordered
   * pair of each corner of its ring and the corner before it.  An empty
   * ring stops the program there (`last().unwrap()`), so rings are not
   * empty.
   */
  method CollectKeys(rings: seq<seq<nat>>) returns (m: map<Pair, seq<nat>>)
    requires forall t :: 0 <= t < |rings| ==> |rings[t]| > 0
    ensures Collected(m, Pushes(rings))
  {
    m := map[];
    var idx := 0;
    while idx < |rings|
      invariant 0 <= idx <= |rings|
      invariant Collected(m, Pushes(rings[..idx]))
    {
      m := CollectRing(m, Pushes(rings[..idx]), rings[idx], idx);
      PushesStep(rings, idx);
      idx := idx + 1;
    }
    assert rings[..idx] == rings;
  }

  // ---------------------------------------------------------------------------
  // From keys to borders

  /** How many of the border's two tile slots hold `t`. */
  function Sides(b: Border, t: nat): (c: nat)
    ensures c <= 2
    ensures c > 0 <==> t == b.tiles.0 || t == b.tiles.1
  {
    (if b.tiles.0 == t then 1 else 0) + (if b.tiles.1 == t then 1 else 0)
  }

  /** The border indices pushed onto tile `t`, in order: each border once per slot holding `t`. */
  function BorderList(borders: seq<Border>, t: nat): (r: seq<nat>)
    ensures forall i :: 0 <= i < |r| ==> r[i] < |borders|
    decreases |borders|
  {
    if borders == [] then []
    else
      var k := |borders| - 1;
      BorderList(borders[..k], t) + MeshTopology.Repeat(k, Sides(borders[k], t))
  }

  /** Border `i` is on tile `t`'s list exactly when one of its two tiles is `t`. */
  lemma {:induction false} BorderListMembers(borders: seq<Border>, t: nat, i: nat)
    ensures i in BorderList(borders, t) <==> i < |borders| && (borders[i].tiles.0 == t || borders[i].tiles.1 == t)
    decreases |borders|
  {
    if borders != [] {
      var k := |borders| - 1;
      BorderListMembers(borders[..k], t, i);
      if i < k {
        assert borders[..k][i] == borders[i];
      }
    }
  }

  /** Appending one border extends the lists of its tiles and no other. */
  lemma BorderListPush(borders: seq<Border>, b: Border, t: nat)
    ensures BorderList(borders + [b], t) == BorderList(borders, t) + MeshTopology.Repeat(|borders|, Sides(b, t))
  {
    assert (borders + [b])[..|borders|] == borders;
  }

  /** Each tile of `tiles'` is the one of `tiles` with its border indices from `borders` pushed on. */
  ghost predicate Extended(tiles: seq<Tile>, tiles': seq<Tile>, borders: seq<Border>)
  {
    && |tiles'| == |tiles|
    && forall t :: 0 <= t < |tiles| ==> tiles'[t] == tiles[t].(borders := tiles[t].borders + BorderList(borders, t))
  }

  /** The tile with one more border index. */
  function PushBorder(tile: Tile, bix: nat): (r: Tile)
    ensures r.vertices == tile.vertices && r.midpoint == tile.midpoint && r.plateId == tile.plateId
    ensures r.borders == tile.borders + [bix]
  {
    tile.(borders := tile.borders + [bix])
  }

  /** `Border::new` for `key` and the first two tiles listed under it. */
  ghost predicate BorderFor(b: Border, m: map<Pair, seq<nat>>)
  {
    && b.vertices in m && |m[b.vertices]| == 2
    && b == PlanetBorder.New(b.vertices.0, b.vertices.1, m[b.vertices][0], m[b.vertices][1])
  }

  /** Lines 107-110 for one key: the border between the two listed tiles, its index pushed onto both. */
  method AddBorder(tiles: seq<Tile>, ghost tiles0: seq<Tile>, borders: seq<Border>, key: Pair, listed: seq<nat>)
    returns (tiles': seq<Tile>, border: Border)
    requires |listed| == 2 && listed[0] < |tiles| && listed[1] < |tiles|
    requires Extended(tiles0, tiles, borders)
    ensures border == PlanetBorder.New(key.0, key.1, listed[0], listed[1])
    ensures key.0 <= key.1 ==> border.vertices == key
    ensures Extended(tiles0, tiles', borders + [border])
  {
    var bix := |borders|;
    border := PlanetBorder.New(key.0, key.1, listed[0], listed[1]);
    tiles' := tiles[listed[0] := PushBorder(tiles[listed[0]], bix)];
    tiles' := tiles'[listed[1] := PushBorder(tiles'[listed[1]], bix)];
    forall t | 0 <= t < |tiles0|
      ensures tiles'[t] == tiles0[t].(borders := tiles0[t].borders + BorderList(borders + [border], t))
    {
      BorderListPush(borders, border, t);
      assert Sides(border, t) == (if listed[0] == t then 1 else 0) + (if listed[1] == t then 1 else 0);
    }
  }

  /** The keys taken so far, in `order`, are distinct and are the keys of `m` not `remaining`. */
  ghost predicate KeysTaken(m: map<Pair, seq<nat>>, remaining: set<Pair>, order: seq<Pair>)
  {
    && remaining <= m.Keys
    && |order| + |remaining| == |m|
    && (forall i :: 0 <= i < |order| ==> order[i] in m)
    && (forall key :: key in m ==> (key in remaining <==> key !in order))
    && (forall i, j :: 0 <= i < j < |order| ==> order[i] != order[j])
  }

  /** Taking one more key from those remaining. */
  lemma TakeKey(m: map<Pair, seq<nat>>, remaining: set<Pair>, order: seq<Pair>, v: Pair)
    requires KeysTaken(m, remaining, order) && v in remaining
    ensures KeysTaken(m, remaining - {v}, order + [v])
  {
    assert |remaining - {v}| == |remaining| - 1;
  }

  /** Every key is an ordered pair listing exactly two tiles, both below `n`. */
  ghost predicate Ready(m: map<Pair, seq<nat>>, n: nat)
  {
    forall key :: key in m ==> key.0 <= key.1 && |m[key]| == 2 && m[key][0] < n && m[key][1] < n
  }

  /** The borders so far are those of the keys taken, in the same order. */
  ghost predicate BordersMatch(m: map<Pair, seq<nat>>, order: seq<Pair>, borders: seq<Border>)
  {
    && |borders| == |order|
    && forall i :: 0 <= i < |borders| ==> borders[i].vertices == order[i] && BorderFor(borders[i], m)
  }

  /** One turn of the border loop, for the key `v`. */
  method BorderStep(ghost tiles: seq<Tile>, m: map<Pair, seq<nat>>, ghost order: seq<Pair>,
                    tiles': seq<Tile>, borders: seq<Border>, v: Pair)
    returns (tiles'': seq<Tile>, borders': seq<Border>)
    requires Ready(m, |tiles|)
    requires BordersMatch(m, order, borders) && Extended(tiles, tiles', borders) && v in m
    ensures BordersMatch(m, order + [v], borders') && Extended(tiles, tiles'', borders')
  {
    var border;
    tiles'', border := AddBorder(tiles', tiles, borders, v, m[v]);
    borders' := borders + [border];
  }

  /**
   * The loop of lines 100-111: for every key, taken in any order, check
   * that exactly two tiles are listed (`assert!`), add the border between
   * them and push its index onto both.  The check holds here by the
   * precondition; a map with another count stops the source program.
   */
  method MakeBorders(tiles: seq<Tile>, m: map<Pair, seq<nat>>) returns (tiles': seq<Tile>, borders: seq<Border>)
    requires Ready(m, |tiles|)
    ensures Extended(tiles, tiles', borders) && |borders| == |m|
    ensures forall i :: 0 <= i < |borders| ==> BorderFor(borders[i], m)
    ensures forall i, j :: 0 <= i < j < |borders| ==> borders[i].vertices != borders[j].vertices
    ensures forall key :: key in m ==> exists i :: 0 <= i < |borders| && borders[i].vertices == key
  {
    tiles' := tiles;
    borders := [];
    var remaining := m.Keys;
    ghost var order: seq<Pair> := [];
    while remaining != {}
      invariant KeysTaken(m, remaining, order)
      invariant BordersMatch(m, order, borders) && Extended(tiles, tiles', borders)
      decreases |remaining|
    {
      var v :| v in remaining;
      tiles', borders := BorderStep(tiles, m, order, tiles', borders, v);
      TakeKey(m, remaining, order, v);
      order := order + [v];
      remaining := remaining - {v};
    }
    forall key | key in m
      ensures exists i :: 0 <= i < |borders| && borders[i].vertices == key
    {
      var i :| 0 <= i < |order| && order[i] == key;
      assert borders[i].vertices == key;
    }
  }
}
