/**
 * The 1-to-4 subdivision shared by the generator mesh
 * (src/terrain/generator/mod.rs:185-270) and the earlier terrain mesh
 * (src/terrain/generator.rs:154-238), stated on endpoint pairs and faces.
 *
 * `SplitEdges` and `SplitFaces` run the source's two loops: the split loop
 * gives every old edge `e` a midpoint node `N+e` and two half edges, recording
 * them in an edge map; the face loop's nine `find_edge` lookups either find a
 * half edge in the map or append a new inner edge.  On a well-formed mesh the
 * loops produce `SplitPairs`, `InnerPairs` and `QuarterFaces`, and the counting
 * lemmas below show that these keep `MeshShape`.
 */
module Subdivision {
  import opened Pairs
  import opened Vector
  import opened MeshFace
  import opened MeshTopology

  // ---------------------------------------------------------------------------
  // The split loop and the face loop, as the source runs them

  /** The split loop's edges: old edge `k` yields its halves (a, N+k) and (b, N+k), in that order. */
  function SplitPairs(numNodes: nat, pairs: seq<Pair>): (r: seq<Pair>)
    ensures |r| == 2 * |pairs|
    decreases |pairs|
  {
    if pairs == [] then []
    else
      var k := |pairs| - 1;
      SplitPairs(numNodes, pairs[..k]) + [SortedPair(pairs[k].0, numNodes + k), SortedPair(pairs[k].1, numNodes + k)]
  }

  /**
   * The split loop's edge map: the key `(a, N+k)` (not re-sorted, as the
   * source inserts it) maps to `2k` and `(b, N+k)` to `2k+1`.
   */
  function SplitIndex(numNodes: nat, pairs: seq<Pair>): map<Pair, nat>
    decreases |pairs|
  {
    if pairs == [] then map[]
    else
      var k := |pairs| - 1;
      SplitIndex(numNodes, pairs[..k])[(pairs[k].0, numNodes + k) := 2 * k][(pairs[k].1, numNodes + k) := 2 * k + 1]
  }

  /**
   * The split loop: for each old edge, its two halves are pushed and recorded
   * in the edge map under their unsorted keys.  For proper edges the map
   * holds exactly the halves.
   */
  method SplitEdges(numNodes: nat, pairs: seq<Pair>) returns (split: seq<Pair>, index: map<Pair, nat>)
    ensures split == SplitPairs(numNodes, pairs)
    ensures index == SplitIndex(numNodes, pairs)
    ensures ProperEdges(numNodes, pairs) ==> HalvesIndexed(numNodes, pairs, index)
  {
    split, index := [], map[];
    var i := 0;
    while i < |pairs|
      invariant 0 <= i <= |pairs|
      invariant split == SplitPairs(numNodes, pairs[..i])
      invariant index == SplitIndex(numNodes, pairs[..i])
    {
      var vidx := numNodes + i;
      index := index[(pairs[i].0, vidx) := |split|];
      split := split + [SortedPair(pairs[i].0, vidx)];
      index := index[(pairs[i].1, vidx) := |split|];
      split := split + [SortedPair(pairs[i].1, vidx)];
      assert pairs[..i + 1][..i] == pairs[..i];
      i := i + 1;
    }
    assert pairs[..i] == pairs;
    if ProperEdges(numNodes, pairs) {
      SplitIndexSpec(numNodes, pairs);
    }
  }

  /**
   * `find_edge`: the index the map holds for the sorted key, or else a new
   * edge appended at the end.  The map itself is never extended.
   */
  function FindEdge(index: map<Pair, nat>, edges: seq<Pair>, a: nat, b: nat): (r: (nat, seq<Pair>))
    ensures r.1 == edges || (r.0 == |edges| && r.1 == edges + [SortedPair(a, b)])
  {
    var key := SortedPair(a, b);
    if key in index then (index[key], edges) else (|edges|, edges + [key])
  }

  /**
   * One pass of the face loop: nine `find_edge` lookups in source order, then
   * the four faces that replace `f`.  On a well-formed mesh the six
   * corner-to-midpoint lookups find halves, the three midpoint-to-midpoint
   * lookups append the face's inner edges, and the faces are its quarters.
   */
  method SplitFace(numNodes: nat, pairs: seq<Pair>, index: map<Pair, nat>, edges: seq<Pair>, f: Face)
    returns (edges': seq<Pair>, quarter: seq<Face>)
    requires ProperEdges(numNodes, pairs) && HalvesIndexed(numNodes, pairs, index)
    requires FaceAligned(pairs, f)
    ensures edges' == edges + Triangle(numNodes, f)
    ensures quarter == Quarters(numNodes, pairs, f, |edges|)
  {
    var p0, p1, p2 := f.points.x, f.points.y, f.points.z;
    var e0, e1, e2 := f.edges.x, f.edges.y, f.edges.z;
    var n0, n1, n2 := numNodes + e0, numNodes + e1, numNodes + e2;
    FindHalves(numNodes, pairs, index, edges, f);
    var r := FindEdge(index, edges, p0, n0);
    var e00 := r.0;
    r := FindEdge(index, edges, n0, p1);
    var e01 := r.0;
    r := FindEdge(index, edges, p1, n1);
    var e10 := r.0;
    r := FindEdge(index, edges, n1, p2);
    var e11 := r.0;
    r := FindEdge(index, edges, p2, n2);
    var e20 := r.0;
    r := FindEdge(index, edges, n2, p0);
    var e21 := r.0;
    edges' := edges;
    FindInner(numNodes, index, edges', n0, n1);
    r := FindEdge(index, edges', n0, n1);
    var ne0;
    ne0, edges' := r.0, r.1;
    FindInner(numNodes, index, edges', n1, n2);
    r := FindEdge(index, edges', n1, n2);
    var ne1;
    ne1, edges' := r.0, r.1;
    FindInner(numNodes, index, edges', n2, n0);
    r := FindEdge(index, edges', n2, n0);
    var ne2;
    ne2, edges' := r.0, r.1;
    quarter := [ Face(Vec3(p0, n0, n2), Vec3(e00, ne2, e21)),
                 Face(Vec3(n0, p1, n1), Vec3(e01, e10, ne0)),
                 Face(Vec3(p2, n2, n1), Vec3(e20, ne1, e11)),
                 Face(Vec3(n0, n1, n2), Vec3(ne0, ne1, ne2)) ];
    assert edges' == edges + [SortedPair(n0, n1), SortedPair(n1, n2), SortedPair(n2, n0)];
  }

  /** The six corner-to-midpoint lookups of an aligned face find its halves and append nothing. */
  lemma FindHalves(numNodes: nat, pairs: seq<Pair>, index: map<Pair, nat>, edges: seq<Pair>, f: Face)
    requires ProperEdges(numNodes, pairs) && HalvesIndexed(numNodes, pairs, index)
    requires FaceAligned(pairs, f)
    ensures var p0, p1, p2 := f.points.x, f.points.y, f.points.z;
      var e0, e1, e2 := f.edges.x, f.edges.y, f.edges.z;
      var n0, n1, n2 := numNodes + e0, numNodes + e1, numNodes + e2;
      && FindEdge(index, edges, p0, n0) == (Half(pairs, e0, p0), edges)
      && FindEdge(index, edges, n0, p1) == (Half(pairs, e0, p1), edges)
      && FindEdge(index, edges, p1, n1) == (Half(pairs, e1, p1), edges)
      && FindEdge(index, edges, n1, p2) == (Half(pairs, e1, p2), edges)
      && FindEdge(index, edges, p2, n2) == (Half(pairs, e2, p2), edges)
      && FindEdge(index, edges, n2, p0) == (Half(pairs, e2, p0), edges)
  {
    var p0, p1, p2 := f.points.x, f.points.y, f.points.z;
    HalfLookup(numNodes, pairs, index, f.edges.x, p0, p1);
    HalfLookup(numNodes, pairs, index, f.edges.x, p1, p0);
    HalfLookup(numNodes, pairs, index, f.edges.y, p1, p2);
    HalfLookup(numNodes, pairs, index, f.edges.y, p2, p1);
    HalfLookup(numNodes, pairs, index, f.edges.z, p2, p0);
    HalfLookup(numNodes, pairs, index, f.edges.z, p0, p2);
  }

  /** A lookup between two midpoints misses the map (whose keys start at an old node) and appends. */
  lemma FindInner(numNodes: nat, index: map<Pair, nat>, edges: seq<Pair>, a: nat, b: nat)
    requires forall key :: key in index ==> key.0 < numNodes
    requires a >= numNodes && b >= numNodes
    ensures FindEdge(index, edges, a, b) == (|edges|, edges + [SortedPair(a, b)])
  {
    assert SortedPair(a, b) !in index;
  }

  /**
   * The face loop: every face in turn is replaced by its four quarters, the
   * inner edges accumulating after the halves.
   */
  method SplitFaces(numNodes: nat, pairs: seq<Pair>, index: map<Pair, nat>, split: seq<Pair>, faces: seq<Face>)
    returns (edges: seq<Pair>, quarters: seq<Face>)
    requires ProperEdges(numNodes, pairs) && HalvesIndexed(numNodes, pairs, index)
    requires Aligned(pairs, faces)
    requires |split| == 2 * |pairs|
    ensures edges == split + InnerPairs(numNodes, faces)
    ensures quarters == QuarterFaces(numNodes, pairs, faces)
  {
    edges, quarters := split, [];
    var i := 0;
    while i < |faces|
      invariant 0 <= i <= |faces|
      invariant edges == split + InnerPairs(numNodes, faces[..i])
      invariant quarters == QuarterFaces(numNodes, pairs, faces[..i])
    {
      assert FaceAligned(pairs, faces[i]);
      var quarter;
      ghost var edges0, quarters0 := edges, quarters;
      edges, quarter := SplitFace(numNodes, pairs, index, edges, faces[i]);
      quarters := quarters + quarter;
      FaceLoopStep(numNodes, pairs, split, faces, i, edges0, quarters0, edges, quarter);
      i := i + 1;
    }
    assert faces[..i] == faces;
  }

  /** One turn of the face loop keeps its invariant. */
  lemma FaceLoopStep(numNodes: nat, pairs: seq<Pair>, split: seq<Pair>, faces: seq<Face>, i: nat,
                     edges: seq<Pair>, quarters: seq<Face>, edges': seq<Pair>, quarter: seq<Face>)
    requires i < |faces| && |split| == 2 * |pairs|
    requires edges == split + InnerPairs(numNodes, faces[..i])
    requires quarters == QuarterFaces(numNodes, pairs, faces[..i])
    requires edges' == edges + Triangle(numNodes, faces[i])
    requires quarter == Quarters(numNodes, pairs, faces[i], |edges|)
    ensures edges' == split + InnerPairs(numNodes, faces[..i + 1])
    ensures quarters + quarter == QuarterFaces(numNodes, pairs, faces[..i + 1])
  {
    FacesStep(numNodes, pairs, faces, i);
    assert |edges| == 2 * |pairs| + 3 * i;
  }

  /** The split loop followed by the face loop: the new edges and faces of a well-formed mesh. */
  method SubdivideMesh(numNodes: nat, pairs: seq<Pair>, faces: seq<Face>) returns (pairs': seq<Pair>, faces': seq<Face>)
    requires ProperEdges(numNodes, pairs) && Aligned(pairs, faces)
    ensures pairs' == SplitPairs(numNodes, pairs) + InnerPairs(numNodes, faces)
    ensures faces' == QuarterFaces(numNodes, pairs, faces)
  {
    var split, index := SplitEdges(numNodes, pairs);
    pairs', faces' := SplitFaces(numNodes, pairs, index, split, faces);
  }

  // ---------------------------------------------------------------------------
  // Closed form for a well-formed mesh

  /** Index of the half of old edge `e` that ends at its endpoint `p` (the value for an edge beyond the list is never used). */
  function Half(pairs: seq<Pair>, e: nat, p: nat): nat
  {
    if e < |pairs| && p == pairs[e].0 then 2 * e else 2 * e + 1
  }

  /** The three inner edges of every face, in face order. */
  function InnerPairs(numNodes: nat, faces: seq<Face>): (r: seq<Pair>)
    ensures |r| == 3 * |faces|
    decreases |faces|
  {
    if faces == [] then []
    else
      var k := |faces| - 1;
      InnerPairs(numNodes, faces[..k]) + Triangle(numNodes, faces[k])
  }

  /** The inner edges of one face: its three midpoints joined in slot order. */
  function Triangle(numNodes: nat, f: Face): seq<Pair>
  {
    var n0, n1, n2 := numNodes + f.edges.x, numNodes + f.edges.y, numNodes + f.edges.z;
    [SortedPair(n0, n1), SortedPair(n1, n2), SortedPair(n2, n0)]
  }

  /** The four faces that replace `f`, its inner edges numbered from `base`. */
  function Quarters(numNodes: nat, pairs: seq<Pair>, f: Face, base: nat): seq<Face>
  {
    var p0, p1, p2 := f.points.x, f.points.y, f.points.z;
    var e0, e1, e2 := f.edges.x, f.edges.y, f.edges.z;
    var n0, n1, n2 := numNodes + e0, numNodes + e1, numNodes + e2;
    [ Face(Vec3(p0, n0, n2), Vec3(Half(pairs, e0, p0), base + 2, Half(pairs, e2, p0))),
      Face(Vec3(n0, p1, n1), Vec3(Half(pairs, e0, p1), Half(pairs, e1, p1), base)),
      Face(Vec3(p2, n2, n1), Vec3(Half(pairs, e2, p2), base + 1, Half(pairs, e1, p2))),
      Face(Vec3(n0, n1, n2), Vec3(base, base + 1, base + 2)) ]
  }

  /** All new faces: face `k` becomes four faces whose inner edges start at `2E + 3k`. */
  function QuarterFaces(numNodes: nat, pairs: seq<Pair>, faces: seq<Face>): (r: seq<Face>)
    ensures |r| == 4 * |faces|
    decreases |faces|
  {
    if faces == [] then []
    else
      var k := |faces| - 1;
      QuarterFaces(numNodes, pairs, faces[..k]) + Quarters(numNodes, pairs, faces[k], 2 * |pairs| + 3 * k)
  }

  /** Extending the prefix `faces[..i]` by one face appends its triangle and its quarters. */
  lemma FacesStep(numNodes: nat, pairs: seq<Pair>, faces: seq<Face>, i: nat)
    requires i < |faces|
    ensures InnerPairs(numNodes, faces[..i + 1]) == InnerPairs(numNodes, faces[..i]) + Triangle(numNodes, faces[i])
    ensures QuarterFaces(numNodes, pairs, faces[..i + 1])
      == QuarterFaces(numNodes, pairs, faces[..i]) + Quarters(numNodes, pairs, faces[i], 2 * |pairs| + 3 * i)
  {
    var g := faces[..i + 1];
    assert g[..i] == faces[..i];
    LastFace(numNodes, pairs, g);
  }

  /** The defining step of `InnerPairs` and `QuarterFaces`, for the last face. */
  lemma LastFace(numNodes: nat, pairs: seq<Pair>, g: seq<Face>)
    requires g != []
    ensures var k := |g| - 1;
      && InnerPairs(numNodes, g) == InnerPairs(numNodes, g[..k]) + Triangle(numNodes, g[k])
      && QuarterFaces(numNodes, pairs, g) == QuarterFaces(numNodes, pairs, g[..k]) + Quarters(numNodes, pairs, g[k], 2 * |pairs| + 3 * k)
  {
  }

  /** Half `2e` joins old edge `e`'s first end to its midpoint `N + e`, and half `2e + 1` its second end. */
  lemma {:induction false} SplitPairsAt(numNodes: nat, pairs: seq<Pair>, e: nat)
    requires e < |pairs|
    ensures SplitPairs(numNodes, pairs)[2 * e] == SortedPair(pairs[e].0, numNodes + e)
    ensures SplitPairs(numNodes, pairs)[2 * e + 1] == SortedPair(pairs[e].1, numNodes + e)
    decreases |pairs|
  {
    var k := |pairs| - 1;
    if e < k {
      SplitPairsAt(numNodes, pairs[..k], e);
    }
  }

  /**
   * What the split loop's map holds under proper edges: `(a, N+e)` maps to
   * `2e`, `(b, N+e)` to `2e+1`, and every key's first component is an old node.
   */
  ghost predicate HalvesIndexed(numNodes: nat, pairs: seq<Pair>, index: map<Pair, nat>)
  {
    && (forall e :: 0 <= e < |pairs| ==>
          && (pairs[e].0, numNodes + e) in index && index[(pairs[e].0, numNodes + e)] == 2 * e
          && (pairs[e].1, numNodes + e) in index && index[(pairs[e].1, numNodes + e)] == 2 * e + 1)
    && (forall key :: key in index ==> key.0 < numNodes)
  }

  lemma {:induction false} SplitIndexSpec(numNodes: nat, pairs: seq<Pair>)
    requires ProperEdges(numNodes, pairs)
    ensures HalvesIndexed(numNodes, pairs, SplitIndex(numNodes, pairs))
    decreases |pairs|
  {
    if pairs != [] {
      var k := |pairs| - 1;
      ProperPrefix(numNodes, pairs, k);
      SplitIndexSpec(numNodes, pairs[..k]);
      var index := SplitIndex(numNodes, pairs);
      assert pairs[k].0 < pairs[k].1 < numNodes;
      forall e | 0 <= e < |pairs|
        ensures (pairs[e].0, numNodes + e) in index && index[(pairs[e].0, numNodes + e)] == 2 * e
        ensures (pairs[e].1, numNodes + e) in index && index[(pairs[e].1, numNodes + e)] == 2 * e + 1
      {
        if e < k {
          assert pairs[..k][e] == pairs[e];
          assert pairs[e].0 < pairs[e].1;
        }
      }
    }
  }

  /** A corner's half of an old edge is found under the corner's sorted key, in either argument order. */
  lemma HalfLookup(numNodes: nat, pairs: seq<Pair>, index: map<Pair, nat>, e: nat, p: nat, q: nat)
    requires ProperEdges(numNodes, pairs) && HalvesIndexed(numNodes, pairs, index)
    requires e < |pairs| && pairs[e] == SortedPair(p, q)
    ensures SortedPair(p, numNodes + e) in index
    ensures index[SortedPair(p, numNodes + e)] == Half(pairs, e, p)
    ensures SortedPair(numNodes + e, p) == SortedPair(p, numNodes + e)
  {
    assert pairs[e].0 < pairs[e].1 < numNodes;
  }

  // ---------------------------------------------------------------------------
  // Indexing into the closed form

  /** Inner edges `3k`, `3k + 1` and `3k + 2` join face `k`'s three midpoints, in slot order. */
  lemma {:induction false} InnerPairsAt(numNodes: nat, faces: seq<Face>, k: nat)
    requires k < |faces|
    ensures
      var f := faces[k];
      var n0, n1, n2 := numNodes + f.edges.x, numNodes + f.edges.y, numNodes + f.edges.z;
      && InnerPairs(numNodes, faces)[3 * k] == SortedPair(n0, n1)
      && InnerPairs(numNodes, faces)[3 * k + 1] == SortedPair(n1, n2)
      && InnerPairs(numNodes, faces)[3 * k + 2] == SortedPair(n2, n0)
    decreases |faces|
  {
    var m := |faces| - 1;
    if k < m {
      InnerPairsAt(numNodes, faces[..m], k);
      assert faces[..m][k] == faces[k];
    }
  }

  // ---------------------------------------------------------------------------
  // Counts over the closed form

  /** Splitting keeps every old node's degree and gives every midpoint exactly two half edges. */
  lemma {:induction false} SplitPairsDegree(numNodes: nat, pairs: seq<Pair>, n: nat)
    requires ProperEdges(numNodes, pairs)
    ensures EdgeDegree(SplitPairs(numNodes, pairs), n)
      == if n < numNodes then EdgeDegree(pairs, n) else if n < numNodes + |pairs| then 2 else 0
    decreases |pairs|
  {
    if pairs != [] {
      var k := |pairs| - 1;
      ProperPrefix(numNodes, pairs, k);
      SplitPairsDegree(numNodes, pairs[..k], n);
      assert pairs[k].0 < pairs[k].1 < numNodes;
      var first, second := [SortedPair(pairs[k].0, numNodes + k)], [SortedPair(pairs[k].1, numNodes + k)];
      assert SplitPairs(numNodes, pairs) == SplitPairs(numNodes, pairs[..k]) + first + second;
      EdgeDegreeAppend(SplitPairs(numNodes, pairs[..k]), first, n);
      EdgeDegreeAppend(SplitPairs(numNodes, pairs[..k]) + first, second, n);
      EdgeDegreeOfSorted(pairs[k].0, numNodes + k, n);
      EdgeDegreeOfSorted(pairs[k].1, numNodes + k, n);
    }
  }

  /** Inner edges touch no old node, and midpoint `N+e` twice for every face slot naming `e`. */
  lemma {:induction false} InnerPairsDegree(numNodes: nat, faces: seq<Face>, n: nat)
    ensures EdgeDegree(InnerPairs(numNodes, faces), n)
      == if n < numNodes then 0 else 2 * NamingCount(faces, n - numNodes)
    decreases |faces|
  {
    if faces != [] {
      var k := |faces| - 1;
      var f := faces[k];
      var n0, n1, n2 := numNodes + f.edges.x, numNodes + f.edges.y, numNodes + f.edges.z;
      InnerPairsDegree(numNodes, faces[..k], n);
      var prefix := InnerPairs(numNodes, faces[..k]);
      var triangle := Triangle(numNodes, f);
      EdgeDegreeAppend(prefix, triangle, n);
      EdgeDegreeOfTriangle(n0, n1, n2, n);
      if n >= numNodes {
        assert NamingCount(faces, n - numNodes) == NamingCount(faces[..k], n - numNodes) + Occurrences(f.edges, n - numNodes);
      }
    }
  }

  /** Old nodes keep their corners; midpoint `N+e` is a corner of three quarters per slot naming `e`. */
  lemma {:induction false} QuarterFacesDegree(numNodes: nat, pairs: seq<Pair>, faces: seq<Face>, n: nat)
    requires ProperEdges(numNodes, pairs)
    requires Aligned(pairs, faces)
    ensures FaceDegree(QuarterFaces(numNodes, pairs, faces), n)
      == if n < numNodes then FaceDegree(faces, n) else 3 * NamingCount(faces, n - numNodes)
    decreases |faces|
  {
    if faces != [] {
      var k := |faces| - 1;
      AlignedPrefix(pairs, faces, k);
      QuarterFacesDegree(numNodes, pairs, faces[..k], n);
      var q := Quarters(numNodes, pairs, faces[k], 2 * |pairs| + 3 * k);
      FaceDegreeAppend(QuarterFaces(numNodes, pairs, faces[..k]), q, n);
      assert FaceAligned(pairs, faces[k]);
      QuartersCorners(numNodes, pairs, faces[k], 2 * |pairs| + 3 * k, n);
    }
  }

  /** The corners of one face's quarters. */
  lemma QuartersCorners(numNodes: nat, pairs: seq<Pair>, f: Face, base: nat, n: nat)
    requires ProperEdges(numNodes, pairs)
    requires FaceAligned(pairs, f)
    ensures FaceDegree(Quarters(numNodes, pairs, f, base), n)
      == if n < numNodes then Occurrences(f.points, n) else 3 * Occurrences(f.edges, n - numNodes)
  {
    AlignedFaceDistinct(numNodes, pairs, f);
    var q := Quarters(numNodes, pairs, f, base);
    FaceDegreeOfFour(q[0], q[1], q[2], q[3], n);
    assert q == [q[0], q[1], q[2], q[3]];
  }

  lemma AlignedPrefix(pairs: seq<Pair>, faces: seq<Face>, k: nat)
    requires Aligned(pairs, faces) && k <= |faces|
    ensures Aligned(pairs, faces[..k])
  {
    forall i | 0 <= i < k ensures FaceAligned(pairs, faces[..k][i]) {
      assert faces[..k][i] == faces[i];
    }
  }

  lemma ProperPrefix(numNodes: nat, pairs: seq<Pair>, k: nat)
    requires ProperEdges(numNodes, pairs) && k <= |pairs|
    ensures ProperEdges(numNodes, pairs[..k])
  {
    forall e | 0 <= e < k ensures pairs[..k][e].0 < pairs[..k][e].1 < numNodes {
      assert pairs[..k][e] == pairs[e];
    }
  }

  lemma FaceDegreeOfFour(a: Face, b: Face, c: Face, d: Face, n: nat)
    ensures FaceDegree([a, b, c, d], n)
      == Occurrences(a.points, n) + Occurrences(b.points, n) + Occurrences(c.points, n) + Occurrences(d.points, n)
  {
    assert [a, b, c, d][..3] == [a, b, c];
    assert [a, b, c][..2] == [a, b];
    assert [a, b][..1] == [a];
    assert [a][..0] == [];
    assert FaceDegree([a], n) == Occurrences(a.points, n);
    assert FaceDegree([a, b], n) == FaceDegree([a], n) + Occurrences(b.points, n);
    assert FaceDegree([a, b, c], n) == FaceDegree([a, b], n) + Occurrences(c.points, n);
  }

  lemma NamingCountOfFour(a: Face, b: Face, c: Face, d: Face, e: nat)
    ensures NamingCount([a, b, c, d], e)
      == Occurrences(a.edges, e) + Occurrences(b.edges, e) + Occurrences(c.edges, e) + Occurrences(d.edges, e)
  {
    assert [a, b, c, d][..3] == [a, b, c];
    assert [a, b, c][..2] == [a, b];
    assert [a, b][..1] == [a];
    assert [a][..0] == [];
    assert NamingCount([a], e) == Occurrences(a.edges, e);
    assert NamingCount([a, b], e) == NamingCount([a], e) + Occurrences(b.edges, e);
    assert NamingCount([a, b, c], e) == NamingCount([a, b], e) + Occurrences(c.edges, e);
  }

  /** A sorted pair counts `n` as often as its two arguments do. */
  /** The three inner edges of a face count each of its midpoints twice. */
  lemma EdgeDegreeOfTriangle(a: nat, b: nat, c: nat, n: nat)
    ensures EdgeDegree([SortedPair(a, b), SortedPair(b, c), SortedPair(c, a)], n)
      == 2 * ((if a == n then 1 else 0) + (if b == n then 1 else 0) + (if c == n then 1 else 0))
  {
    var t: seq<Pair> := [SortedPair(a, b), SortedPair(b, c), SortedPair(c, a)];
    assert t[..2] == [SortedPair(a, b), SortedPair(b, c)];
    assert t[..2][..1] == [SortedPair(a, b)];
    assert t[..2][..1][..0] == [];
    EdgeDegreeOfSorted(a, b, n);
    assert EdgeDegree(t[..2], n) == EdgeDegree(t[..2][..1], n) + (if t[1].0 == n then 1 else 0) + (if t[1].1 == n then 1 else 0);
    assert EdgeDegree(t, n) == EdgeDegree(t[..2], n) + (if t[2].0 == n then 1 else 0) + (if t[2].1 == n then 1 else 0);
  }

  lemma EdgeDegreeOfSorted(a: nat, b: nat, n: nat)
    ensures EdgeDegree([SortedPair(a, b)], n) == (if a == n then 1 else 0) + (if b == n then 1 else 0)
  {
    assert [SortedPair(a, b)][..0] == [];
  }

  /**
   * A half edge `j < 2E` is named once per slot naming its old edge `j / 2`;
   * an inner edge `2E + 3k + i` is named exactly twice, by the quarters of face `k`.
   */
  lemma {:induction false} QuarterFacesNamingCount(numNodes: nat, pairs: seq<Pair>, faces: seq<Face>, j: nat)
    requires ProperEdges(numNodes, pairs)
    requires Aligned(pairs, faces)
    ensures j < 2 * |pairs| ==> NamingCount(QuarterFaces(numNodes, pairs, faces), j) == NamingCount(faces, j / 2)
    ensures j >= 2 * |pairs| ==>
      NamingCount(QuarterFaces(numNodes, pairs, faces), j) == if j < 2 * |pairs| + 3 * |faces| then 2 else 0
    decreases |faces|
  {
    if faces != [] {
      var k := |faces| - 1;
      AlignedPrefix(pairs, faces, k);
      QuarterFacesNamingCount(numNodes, pairs, faces[..k], j);
      var base := 2 * |pairs| + 3 * k;
      var q := Quarters(numNodes, pairs, faces[k], base);
      NamingCountAppend(QuarterFaces(numNodes, pairs, faces[..k]), q, j);
      NamingCountOfFour(q[0], q[1], q[2], q[3], j);
      assert q == [q[0], q[1], q[2], q[3]];
      assert FaceAligned(pairs, faces[k]);
      QuartersNaming(numNodes, pairs, faces[k], base, j);
    }
  }

  /** How often one face's quarters name edge `j`. */
  lemma QuartersNaming(numNodes: nat, pairs: seq<Pair>, f: Face, base: nat, j: nat)
    requires ProperEdges(numNodes, pairs)
    requires FaceAligned(pairs, f)
    requires base >= 2 * |pairs|
    ensures var q := Quarters(numNodes, pairs, f, base);
      var c := Occurrences(q[0].edges, j) + Occurrences(q[1].edges, j) + Occurrences(q[2].edges, j) + Occurrences(q[3].edges, j);
      && (j < 2 * |pairs| ==> c == Occurrences(f.edges, j / 2))
      && (j >= 2 * |pairs| ==> c == if base <= j < base + 3 then 2 else 0)
  {
    AlignedFaceDistinct(numNodes, pairs, f);
    HalvesOfEdge(pairs, f.edges.x, f.points.x, f.points.y, j);
    HalvesOfEdge(pairs, f.edges.y, f.points.y, f.points.z, j);
    HalvesOfEdge(pairs, f.edges.z, f.points.z, f.points.x, j);
  }

  /** The two halves of an old edge are `2e` and `2e+1`, one per endpoint. */
  lemma HalvesOfEdge(pairs: seq<Pair>, e: nat, p: nat, q: nat, j: nat)
    requires e < |pairs| && pairs[e] == SortedPair(p, q) && p != q
    ensures Half(pairs, e, p) < 2 * |pairs| && Half(pairs, e, q) < 2 * |pairs|
    ensures (if Half(pairs, e, p) == j then 1 else 0) + (if Half(pairs, e, q) == j then 1 else 0)
      == if j / 2 == e then 1 else 0
  {
  }

  // ---------------------------------------------------------------------------
  // Subdivision keeps the mesh well formed

  lemma NewEdgesProper(numNodes: nat, pairs: seq<Pair>, faces: seq<Face>)
    requires ProperEdges(numNodes, pairs)
    requires Aligned(pairs, faces)
    ensures ProperEdges(numNodes + |pairs|, SplitPairs(numNodes, pairs) + InnerPairs(numNodes, faces))
  {
    var split := SplitPairs(numNodes, pairs);
    var inner := InnerPairs(numNodes, faces);
    forall i | 0 <= i < |split|
      ensures split[i].0 < split[i].1 < numNodes + |pairs|
    {
      SplitPairProper(numNodes, pairs, i);
    }
    forall i | 0 <= i < |inner|
      ensures inner[i].0 < inner[i].1 < numNodes + |pairs|
    {
      InnerPairProper(numNodes, pairs, faces, i);
    }
    ProperEdgesAppend(numNodes + |pairs|, split, inner);
  }

  lemma SplitPairProper(numNodes: nat, pairs: seq<Pair>, i: nat)
    requires ProperEdges(numNodes, pairs)
    requires i < 2 * |pairs|
    ensures SplitPairs(numNodes, pairs)[i].0 < SplitPairs(numNodes, pairs)[i].1 < numNodes + |pairs|
  {
    var e := i / 2;
    assert i == 2 * e || i == 2 * e + 1;
    SplitPairsAt(numNodes, pairs, e);
    assert pairs[e].0 < pairs[e].1 < numNodes;
  }

  lemma InnerPairProper(numNodes: nat, pairs: seq<Pair>, faces: seq<Face>, i: nat)
    requires ProperEdges(numNodes, pairs)
    requires Aligned(pairs, faces)
    requires i < 3 * |faces|
    ensures InnerPairs(numNodes, faces)[i].0 < InnerPairs(numNodes, faces)[i].1 < numNodes + |pairs|
  {
    var k := i / 3;
    assert i == 3 * k || i == 3 * k + 1 || i == 3 * k + 2;
    InnerPairsAt(numNodes, faces, k);
    assert FaceAligned(pairs, faces[k]);
    AlignedFaceDistinct(numNodes, pairs, faces[k]);
  }

  lemma NewFacesAligned(numNodes: nat, pairs: seq<Pair>, faces: seq<Face>)
    requires ProperEdges(numNodes, pairs)
    requires Aligned(pairs, faces)
    ensures Aligned(SplitPairs(numNodes, pairs) + InnerPairs(numNodes, faces), QuarterFaces(numNodes, pairs, faces))
  {
    var all := SplitPairs(numNodes, pairs) + InnerPairs(numNodes, faces);
    NewEdgesLaidOut(numNodes, pairs, faces);
    QuarterFacesAligned(all, numNodes, pairs, faces, |faces|);
    assert faces[..|faces|] == faces;
  }

  /** The quarters of the first `n` faces are aligned in a laid-out edge list. */
  lemma {:induction false} QuarterFacesAligned(all: seq<Pair>, numNodes: nat, pairs: seq<Pair>, faces: seq<Face>, n: nat)
    requires ProperEdges(numNodes, pairs)
    requires Aligned(pairs, faces)
    requires LaidOut(numNodes, pairs, faces, all)
    requires n <= |faces|
    ensures Aligned(all, QuarterFaces(numNodes, pairs, faces[..n]))
    decreases n
  {
    if n > 0 {
      var k := n - 1;
      QuarterFacesAligned(all, numNodes, pairs, faces, k);
      QuartersAligned(all, numNodes, pairs, faces, k);
      FacesStep(numNodes, pairs, faces, k);
      var q := Quarters(numNodes, pairs, faces[k], 2 * |pairs| + 3 * k);
      assert Aligned(all, q) by {
        forall j | 0 <= j < |q| ensures FaceAligned(all, q[j]) {
          assert j == 0 || j == 1 || j == 2 || j == 3;
        }
      }
      AlignedAppend(all, QuarterFaces(numNodes, pairs, faces[..k]), q);
    }
  }

  /** Where the new edge list keeps each half edge and each inner edge. */
  ghost predicate LaidOut(numNodes: nat, pairs: seq<Pair>, faces: seq<Face>, all: seq<Pair>)
  {
    && |all| == 2 * |pairs| + 3 * |faces|
    && (forall e :: 0 <= e < |pairs| ==>
          all[2 * e] == SortedPair(pairs[e].0, numNodes + e) && all[2 * e + 1] == SortedPair(pairs[e].1, numNodes + e))
    && (forall k :: 0 <= k < |faces| ==>
          var n0, n1, n2 := numNodes + faces[k].edges.x, numNodes + faces[k].edges.y, numNodes + faces[k].edges.z;
          && all[2 * |pairs| + 3 * k] == SortedPair(n0, n1)
          && all[2 * |pairs| + 3 * k + 1] == SortedPair(n1, n2)
          && all[2 * |pairs| + 3 * k + 2] == SortedPair(n2, n0))
  }

  lemma NewEdgesLaidOut(numNodes: nat, pairs: seq<Pair>, faces: seq<Face>)
    ensures LaidOut(numNodes, pairs, faces, SplitPairs(numNodes, pairs) + InnerPairs(numNodes, faces))
  {
    var split, inner := SplitPairs(numNodes, pairs), InnerPairs(numNodes, faces);
    var all := split + inner;
    forall e | 0 <= e < |pairs|
      ensures all[2 * e] == SortedPair(pairs[e].0, numNodes + e) && all[2 * e + 1] == SortedPair(pairs[e].1, numNodes + e)
    {
      SplitPairsAt(numNodes, pairs, e);
    }
    forall k | 0 <= k < |faces|
      ensures
        var n0, n1, n2 := numNodes + faces[k].edges.x, numNodes + faces[k].edges.y, numNodes + faces[k].edges.z;
        && all[2 * |pairs| + 3 * k] == SortedPair(n0, n1)
        && all[2 * |pairs| + 3 * k + 1] == SortedPair(n1, n2)
        && all[2 * |pairs| + 3 * k + 2] == SortedPair(n2, n0)
    {
      InnerPairsAt(numNodes, faces, k);
      assert all[2 * |pairs| + 3 * k] == inner[3 * k];
      assert all[2 * |pairs| + 3 * k + 1] == inner[3 * k + 1];
      assert all[2 * |pairs| + 3 * k + 2] == inner[3 * k + 2];
    }
  }

  lemma {:induction false} QuartersAligned(all: seq<Pair>, numNodes: nat, pairs: seq<Pair>, faces: seq<Face>, k: nat)
    requires ProperEdges(numNodes, pairs)
    requires Aligned(pairs, faces)
    requires LaidOut(numNodes, pairs, faces, all)
    requires k < |faces|
    ensures var q := Quarters(numNodes, pairs, faces[k], 2 * |pairs| + 3 * k);
      FaceAligned(all, q[0]) && FaceAligned(all, q[1]) && FaceAligned(all, q[2]) && FaceAligned(all, q[3])
  {
    var f := faces[k];
    assert FaceAligned(pairs, f);
    var p0, p1, p2 := f.points.x, f.points.y, f.points.z;
    var e0, e1, e2 := f.edges.x, f.edges.y, f.edges.z;
    HalfEdgeAt(all, numNodes, pairs, faces, e0, p0, p1);
    HalfEdgeAt(all, numNodes, pairs, faces, e0, p1, p0);
    HalfEdgeAt(all, numNodes, pairs, faces, e1, p1, p2);
    HalfEdgeAt(all, numNodes, pairs, faces, e1, p2, p1);
    HalfEdgeAt(all, numNodes, pairs, faces, e2, p2, p0);
    HalfEdgeAt(all, numNodes, pairs, faces, e2, p0, p2);
    QuartersAlignedIn(all, numNodes, pairs, f, 2 * |pairs| + 3 * k);
  }

  /** The quarters of `f` are aligned in any edge list holding its six halves and three inner edges where expected. */
  lemma QuartersAlignedIn(all: seq<Pair>, numNodes: nat, pairs: seq<Pair>, f: Face, base: nat)
    requires FaceAligned(pairs, f)
    requires
      var p0, p1, p2 := f.points.x, f.points.y, f.points.z;
      var e0, e1, e2 := f.edges.x, f.edges.y, f.edges.z;
      var n0, n1, n2 := numNodes + e0, numNodes + e1, numNodes + e2;
      && Half(pairs, e0, p0) < |all| && all[Half(pairs, e0, p0)] == SortedPair(p0, n0)
      && Half(pairs, e0, p1) < |all| && all[Half(pairs, e0, p1)] == SortedPair(p1, n0)
      && Half(pairs, e1, p1) < |all| && all[Half(pairs, e1, p1)] == SortedPair(p1, n1)
      && Half(pairs, e1, p2) < |all| && all[Half(pairs, e1, p2)] == SortedPair(p2, n1)
      && Half(pairs, e2, p2) < |all| && all[Half(pairs, e2, p2)] == SortedPair(p2, n2)
      && Half(pairs, e2, p0) < |all| && all[Half(pairs, e2, p0)] == SortedPair(p0, n2)
      && base + 2 < |all|
      && all[base] == SortedPair(n0, n1) && all[base + 1] == SortedPair(n1, n2) && all[base + 2] == SortedPair(n2, n0)
    ensures var q := Quarters(numNodes, pairs, f, base);
      FaceAligned(all, q[0]) && FaceAligned(all, q[1]) && FaceAligned(all, q[2]) && FaceAligned(all, q[3])
  {
    var p0, p1, p2 := f.points.x, f.points.y, f.points.z;
    var n0, n1, n2 := numNodes + f.edges.x, numNodes + f.edges.y, numNodes + f.edges.z;
    SortedPairSymmetric(n0, n2);
    SortedPairSymmetric(p0, n2);
    SortedPairSymmetric(n0, p1);
    SortedPairSymmetric(n1, p2);
    SortedPairSymmetric(n2, n1);
    SortedPairSymmetric(n2, p2);
  }

  /** A corner's half of an old edge sits at `Half` in a laid-out edge list. */
  lemma HalfEdgeAt(all: seq<Pair>, numNodes: nat, pairs: seq<Pair>, faces: seq<Face>, e: nat, p: nat, q: nat)
    requires ProperEdges(numNodes, pairs)
    requires LaidOut(numNodes, pairs, faces, all)
    requires e < |pairs| && pairs[e] == SortedPair(p, q)
    ensures Half(pairs, e, p) < |all|
    ensures all[Half(pairs, e, p)] == SortedPair(p, numNodes + e)
  {
    assert pairs[e].0 < pairs[e].1 < numNodes;
  }


  /**
   * One subdivision keeps the mesh well formed: the new mesh has `N + E`
   * nodes, `2E + 3F` edges and `4F` faces, old nodes keep their degrees,
   * every midpoint has exactly six edges and six faces, every face is aligned
   * and every edge lies on exactly two faces.
   */
  lemma SubdivisionKeepsShape(numNodes: nat, pairs: seq<Pair>, faces: seq<Face>)
    requires MeshShape(numNodes, pairs, faces)
    ensures var pairs', faces' := SplitPairs(numNodes, pairs) + InnerPairs(numNodes, faces), QuarterFaces(numNodes, pairs, faces);
      && |pairs'| == 2 * |pairs| + 3 * |faces|
      && |faces'| == 4 * |faces|
      && MeshShape(numNodes + |pairs|, pairs', faces')
      && (forall n :: 0 <= n < numNodes ==>
            EdgeDegree(pairs', n) == EdgeDegree(pairs, n) && FaceDegree(faces', n) == FaceDegree(faces, n))
      && (forall n :: numNodes <= n < numNodes + |pairs| ==>
            EdgeDegree(pairs', n) == 6 && FaceDegree(faces', n) == 6)
  {
    var split := SplitPairs(numNodes, pairs);
    var inner := InnerPairs(numNodes, faces);
    var pairs' := split + inner;
    var faces' := QuarterFaces(numNodes, pairs, faces);
    NewEdgesProper(numNodes, pairs, faces);
    NewFacesAligned(numNodes, pairs, faces);
    forall j | 0 <= j < |pairs'|
      ensures NamingCount(faces', j) == 2
    {
      QuarterFacesNamingCount(numNodes, pairs, faces, j);
    }
    forall n | 0 <= n < numNodes + |pairs|
      ensures n < numNodes ==> EdgeDegree(pairs', n) == EdgeDegree(pairs, n) && FaceDegree(faces', n) == FaceDegree(faces, n)
      ensures n >= numNodes ==> EdgeDegree(pairs', n) == 6 && FaceDegree(faces', n) == 6
    {
      EdgeDegreeAppend(split, inner, n);
      SplitPairsDegree(numNodes, pairs, n);
      InnerPairsDegree(numNodes, faces, n);
      QuarterFacesDegree(numNodes, pairs, faces, n);
    }
  }
}
