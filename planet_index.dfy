/**
 * The index half of `Planet::new` (src/terrain/planet/mod.rs:73-143): the
 * tiles themselves, the list of tiles at every corner and the list of
 * neighbours of every tile.
 */
module PlanetIndex {
  import opened Outcomes
  import opened PlanetTile
  import MeshTopology

  // ---------------------------------------------------------------------------
  // Tiles

  /** Lines 78-84: tile `i` gets ring `i` and the centre vertex `numCorners + i`. */
  method MakeTiles(rings: seq<seq<nat>>, numCorners: nat) returns (tiles: seq<Tile>)
    ensures |tiles| == |rings|
    ensures forall i :: 0 <= i < |rings| ==> tiles[i] == New(rings[i], numCorners + i)
  {
    tiles := [];
    var i := numCorners;
    while |tiles| < |rings|
      invariant |tiles| <= |rings| && i == numCorners + |tiles|
      invariant forall k :: 0 <= k < |tiles| ==> tiles[k] == New(rings[k], numCorners + k)
    {
      tiles := tiles + [New(rings[|tiles|], i)];
      i := i + 1;
    }
  }

  // ---------------------------------------------------------------------------
  // Tiles at each corner

  /** How many times `v` occurs in `s`. */
  function Count(s: seq<nat>, v: nat): nat
  {
    multiset(s)[v]
  }

  /** The tiles pushed for corner `v`: each tile once per occurrence of `v` in its ring, in tile order. */
  function TilesAt(rings: seq<seq<nat>>, v: nat): (r: seq<nat>)
    ensures forall i :: 0 <= i < |r| ==> r[i] < |rings|
    decreases |rings|
  {
    if rings == [] then []
    else
      var k := |rings| - 1;
      TilesAt(rings[..k], v) + MeshTopology.Repeat(k, Count(rings[k], v))
  }

  /** A tile is listed at corner `v` exactly when its ring passes through `v`. */
  lemma {:induction false} TilesAtMembers(rings: seq<seq<nat>>, v: nat, t: nat)
    ensures t in TilesAt(rings, v) <==> t < |rings| && v in rings[t]
    decreases |rings|
  {
    if rings != [] {
      var k := |rings| - 1;
      TilesAtMembers(rings[..k], v, t);
      if t < k {
        assert rings[..k][t] == rings[t];
      }
      if t == k && v in rings[k] {
        assert MeshTopology.Repeat(k, Count(rings[k], v))[0] == k;
      }
    }
  }

  /** The tiles at a corner are listed in ascending order. */
  lemma {:induction false} TilesAtSorted(rings: seq<seq<nat>>, v: nat)
    ensures forall i, j :: 0 <= i < j < |TilesAt(rings, v)| ==> TilesAt(rings, v)[i] <= TilesAt(rings, v)[j]
    decreases |rings|
  {
    if rings != [] {
      var k := |rings| - 1;
      TilesAtSorted(rings[..k], v);
    }
  }

  /** Every ring passes through each of its corners once. */
  ghost predicate RingsUnrepeated(rings: seq<seq<nat>>)
  {
    forall t, i, j :: 0 <= t < |rings| && 0 <= i < j < |rings[t]| ==> rings[t][i] != rings[t][j]
  }

  /** A list without repetitions holds each value at most once. */
  lemma {:induction false} CountUnrepeated(s: seq<nat>, v: nat)
    requires forall i, j :: 0 <= i < j < |s| ==> s[i] != s[j]
    ensures Count(s, v) <= 1
    decreases |s|
  {
    if s != [] {
      var n := |s| - 1;
      assert s == s[..n] + [s[n]];
      CountUnrepeated(s[..n], v);
      if s[n] == v {
        assert v !in s[..n];
      }
    }
  }

  /** When no ring repeats a corner, no corner lists a tile twice. */
  lemma {:induction false} TilesAtUnrepeated(rings: seq<seq<nat>>, v: nat)
    requires RingsUnrepeated(rings)
    ensures forall i, j :: 0 <= i < j < |TilesAt(rings, v)| ==> TilesAt(rings, v)[i] != TilesAt(rings, v)[j]
    decreases |rings|
  {
    if rings != [] {
      var k := |rings| - 1;
      assert RingsUnrepeated(rings[..k]);
      TilesAtUnrepeated(rings[..k], v);
      CountUnrepeated(rings[k], v);
    }
  }

  /** Taking one more tile appends it once per occurrence of the corner. */
  lemma TilesAtStep(rings: seq<seq<nat>>, idx: nat, v: nat)
    requires idx < |rings|
    ensures TilesAt(rings[..idx + 1], v) == TilesAt(rings[..idx], v) + MeshTopology.Repeat(idx, Count(rings[idx], v))
  {
    assert rings[..idx + 1][..idx] == rings[..idx];
  }

  /** The lists at corners after the first `idx` tiles and the first `j` corners of tile `idx`. */
  ghost predicate ListedSoFar(vt: seq<seq<nat>>, rings: seq<seq<nat>>, idx: nat, j: nat)
    requires idx < |rings| && j <= |rings[idx]|
  {
    forall v :: 0 <= v < |vt| ==> vt[v] == TilesAt(rings[..idx], v) + MeshTopology.Repeat(idx, Count(rings[idx][..j], v))
  }

  /** Line 118 for corner `j` of tile `idx`: push the tile onto that corner's list. */
  method ListCorner(vt: seq<seq<nat>>, rings: seq<seq<nat>>, idx: nat, j: nat) returns (vt': seq<seq<nat>>)
    requires idx < |rings| && j < |rings[idx]| && rings[idx][j] < |vt|
    requires ListedSoFar(vt, rings, idx, j)
    ensures |vt'| == |vt| && ListedSoFar(vt', rings, idx, j + 1)
  {
    var c := rings[idx][j];
    vt' := vt[c := vt[c] + [idx]];
    var before, after := rings[idx][..j], rings[idx][..j + 1];
    assert after == before + [c];
    assert multiset(after) == multiset(before) + multiset{c};
    forall v | 0 <= v < |vt'|
      ensures vt'[v] == TilesAt(rings[..idx], v) + MeshTopology.Repeat(idx, Count(after, v))
    {
      if v == c {
        assert Count(after, v) == Count(before, v) + 1;
      } else {
        assert Count(after, v) == Count(before, v);
      }
    }
  }

  /**
   * Lines 114-120: a list per corner, and every tile pushed onto the list
   * of each corner of its ring.  A corner index past the corners stops the
   * program, so every ring names corners only.
   */
  method VertexTiles(rings: seq<seq<nat>>, numCorners: nat) returns (vt: seq<seq<nat>>)
    requires forall t, j :: 0 <= t < |rings| && 0 <= j < |rings[t]| ==> rings[t][j] < numCorners
    ensures |vt| == numCorners
    ensures forall v :: 0 <= v < numCorners ==> vt[v] == TilesAt(rings, v)
  {
    vt := seq(numCorners, v => []);
    var idx := 0;
    while idx < |rings|
      invariant 0 <= idx <= |rings| && |vt| == numCorners
      invariant forall v :: 0 <= v < numCorners ==> vt[v] == TilesAt(rings[..idx], v)
    {
      var j := 0;
      assert rings[idx][..0] == [];
      while j < |rings[idx]|
        invariant 0 <= j <= |rings[idx]| && |vt| == numCorners
        invariant ListedSoFar(vt, rings, idx, j)
      {
        vt := ListCorner(vt, rings, idx, j);
        j := j + 1;
      }
      assert rings[idx][..j] == rings[idx];
      forall v | 0 <= v < numCorners
        ensures vt[v] == TilesAt(rings[..idx + 1], v)
      {
        TilesAtStep(rings, idx, v);
      }
      idx := idx + 1;
    }
    assert rings[..idx] == rings;
  }

  // ---------------------------------------------------------------------------
  // Neighbours of each tile

  /**
   * The `find` of lines 131-134: the first of `cands` other than `t` whose
   * ring has `a` and `b` as neighbours.
   */
  function FirstOther(cands: seq<nat>, t: nat, tiles: seq<Tile>, a: nat, b: nat): (r: Option<nat>)
    requires forall i :: 0 <= i < |cands| ==> cands[i] < |tiles|
    ensures r.Some? ==> r.value in cands && r.value != t && r.value < |tiles| && tiles[r.value].HasEdge(a, b)
    ensures r.None? ==> forall i :: 0 <= i < |cands| && cands[i] != t ==> !tiles[cands[i]].HasEdge(a, b)
  {
    if cands == [] then None
    else if cands[0] != t && tiles[cands[0]].HasEdge(a, b) then Some(cands[0])
    else FirstOther(cands[1..], t, tiles, a, b)
  }

  /** Tile `u` is another tile that has some side of tile `t`'s ring as an edge. */
  ghost predicate Adjacent(tiles: seq<Tile>, t: nat, u: nat)
    requires t < |tiles|
  {
    var ring := tiles[t].vertices;
    && u < |tiles| && u != t
    && exists j :: 0 <= j < |ring| && tiles[u].HasEdge(ring[j], ring[After(j, |ring|)])
  }

  /** Every neighbour list is free of repeats and of its own tile, and lists adjacent tiles only. */
  ghost predicate Sound(tiles: seq<Tile>, tn: seq<seq<nat>>)
  {
    && |tn| == |tiles|
    && forall t :: 0 <= t < |tn| ==>
         Distinct(tn[t]) && t !in tn[t] && forall x :: x in tn[t] ==> Adjacent(tiles, t, x)
  }

  /** No neighbour list loses an entry. */
  ghost predicate Grows(tn: seq<seq<nat>>, tn': seq<seq<nat>>)
  {
    |tn'| == |tn| && forall t, x :: 0 <= t < |tn| && x in tn[t] ==> x in tn'[t]
  }

  /** Every side of tile `t`'s ring has its first other tile among `cands` listed as a neighbour of `t`. */
  ghost predicate Covers(tiles: seq<Tile>, tn: seq<seq<nat>>, t: nat, cands: seq<nat>)
  {
    && t < |tiles| && t < |tn|
    && (forall i :: 0 <= i < |cands| ==> cands[i] < |tiles|)
    && var ring := tiles[t].vertices;
       forall j :: 0 <= j < |ring| ==>
         var found := FirstOther(cands, t, tiles, ring[j], ring[After(j, |ring|)]);
         found.Some? ==> found.value in tn[t]
  }

  /** Coverage survives growth. */
  lemma CoversGrows(tiles: seq<Tile>, tn: seq<seq<nat>>, tn': seq<seq<nat>>, t: nat, cands: seq<nat>)
    requires Covers(tiles, tn, t, cands) && Grows(tn, tn')
    ensures Covers(tiles, tn', t, cands)
  {
  }

  /** Lines 130-140 for side `j` of tile `tidx`: list the first other tile having that side, unless already listed. */
  method NeighbourAt(tn: seq<seq<nat>>, tiles: seq<Tile>, cands: seq<nat>, tidx: nat, j: nat) returns (tn': seq<seq<nat>>)
    requires forall i :: 0 <= i < |cands| ==> cands[i] < |tiles|
    requires tidx < |tiles| && j < |tiles[tidx].vertices| && Sound(tiles, tn)
    ensures Sound(tiles, tn') && Grows(tn, tn')
    ensures var ring := tiles[tidx].vertices;
      var found := FirstOther(cands, tidx, tiles, ring[j], ring[After(j, |ring|)]);
      found.Some? ==> found.value in tn'[tidx]
  {
    var ring := tiles[tidx].vertices;
    var a, b := ring[j], ring[After(j, |ring|)];
    var other := FirstOther(cands, tidx, tiles, a, b);
    tn' := tn;
    if other.Some? && other.value !in tn[tidx] {
      assert Adjacent(tiles, tidx, other.value);
      tn' := tn[tidx := tn[tidx] + [other.value]];
    }
  }

  /** The loop of lines 127-141 for one tile at one corner: every side of its ring, in order. */
  method NeighboursOfTile(tn: seq<seq<nat>>, tiles: seq<Tile>, cands: seq<nat>, tidx: nat) returns (tn': seq<seq<nat>>)
    requires forall i :: 0 <= i < |cands| ==> cands[i] < |tiles|
    requires tidx < |tiles| && Sound(tiles, tn)
    ensures Sound(tiles, tn') && Grows(tn, tn') && Covers(tiles, tn', tidx, cands)
  {
    var ring := tiles[tidx].vertices;
    var n := |ring|;
    tn' := tn;
    var j := 0;
    while j < n
      invariant 0 <= j <= n
      invariant Sound(tiles, tn') && Grows(tn, tn')
      invariant forall i :: 0 <= i < j ==>
        var found := FirstOther(cands, tidx, tiles, ring[i], ring[After(i, n)]);
        found.Some? ==> found.value in tn'[tidx]
    {
      tn' := NeighbourAt(tn', tiles, cands, tidx, j);
      j := j + 1;
    }
  }

  /** The loop of lines 125-142: every tile listed at one corner, the corner's list serving as candidates. */
  method NeighboursAtCorner(tn: seq<seq<nat>>, tiles: seq<Tile>, cands: seq<nat>) returns (tn': seq<seq<nat>>)
    requires forall i :: 0 <= i < |cands| ==> cands[i] < |tiles|
    requires Sound(tiles, tn)
    ensures Sound(tiles, tn') && Grows(tn, tn')
    ensures forall k :: 0 <= k < |cands| ==> Covers(tiles, tn', cands[k], cands)
  {
    tn' := tn;
    var k := 0;
    while k < |cands|
      invariant 0 <= k <= |cands|
      invariant Sound(tiles, tn') && Grows(tn, tn')
      invariant forall i :: 0 <= i < k ==> Covers(tiles, tn', cands[i], cands)
    {
      ghost var before := tn';
      tn' := NeighboursOfTile(tn', tiles, cands, cands[k]);
      forall i | 0 <= i < k
        ensures Covers(tiles, tn', cands[i], cands)
      {
        CoversGrows(tiles, before, tn', cands[i], cands);
      }
      k := k + 1;
    }
  }

  /**
   * Lines 122-143: for every corner, for every tile listed there, for
   * every side of its ring, the first other tile at that corner having the
   * same side is listed as a neighbour, once.
   */
  method TileNeighbours(tiles: seq<Tile>, vt: seq<seq<nat>>) returns (tn: seq<seq<nat>>)
    requires forall v, i :: 0 <= v < |vt| && 0 <= i < |vt[v]| ==> vt[v][i] < |tiles|
    ensures Sound(tiles, tn)
    ensures forall v, k :: 0 <= v < |vt| && 0 <= k < |vt[v]| ==> Covers(tiles, tn, vt[v][k], vt[v])
  {
    tn := seq(|tiles|, t => []);
    var v := 0;
    while v < |vt|
      invariant 0 <= v <= |vt|
      invariant Sound(tiles, tn)
      invariant forall w, k :: 0 <= w < v && 0 <= k < |vt[w]| ==> Covers(tiles, tn, vt[w][k], vt[w])
    {
      ghost var before := tn;
      tn := NeighboursAtCorner(tn, tiles, vt[v]);
      forall w, k | 0 <= w < v && 0 <= k < |vt[w]|
        ensures Covers(tiles, tn, vt[w][k], vt[w])
      {
        CoversGrows(tiles, before, tn, vt[w][k], vt[w]);
      }
      v := v + 1;
    }
  }
}
