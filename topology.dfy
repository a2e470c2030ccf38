/**
 * Index-level topology of a triangle mesh, shared by the generator mesh
 * (src/terrain/generator/mod.rs) and the earlier terrain mesh
 * (src/terrain/generator.rs).  Edges are reduced to their endpoint pairs and
 * faces to their two index triples; everything here is about integer indices.
 *
 * The back-link lists are defined exactly as the link-building loops fill them
 * (edge by edge, then face by face, one push per matching slot), so a method
 * that runs those loops can be proved to produce them.
 */
module MeshTopology {
  import opened Pairs
  import opened Vector
  import opened MeshFace

  /** `c` copies of `k`. */
  function Repeat(k: nat, c: nat): (s: seq<nat>)
    ensures |s| == c
    ensures forall i :: 0 <= i < c ==> s[i] == k
  {
    if c == 0 then [] else Repeat(k, c - 1) + [k]
  }

  // ---------------------------------------------------------------------------
  // Back-link lists

  /** The edge list of node `n`: every edge index once per endpoint equal to `n`, in edge order. */
  function IncidentEdges(pairs: seq<Pair>, n: nat): (r: seq<nat>)
    ensures forall i :: 0 <= i < |r| ==> r[i] < |pairs|
    decreases |pairs|
  {
    if pairs == [] then []
    else
      var k := |pairs| - 1;
      IncidentEdges(pairs[..k], n)
        + (if pairs[k].0 == n then [k] else [])
        + (if pairs[k].1 == n then [k] else [])
  }

  /** The face list of node `n`: every face index once per corner equal to `n`, in face order. */
  function IncidentFaces(faces: seq<Face>, n: nat): (r: seq<nat>)
    ensures forall i :: 0 <= i < |r| ==> r[i] < |faces|
    decreases |faces|
  {
    if faces == [] then []
    else
      var k := |faces| - 1;
      IncidentFaces(faces[..k], n) + Repeat(k, Occurrences(faces[k].points, n))
  }

  /** The face list of edge `e`: every face index once per edge slot naming `e`, in face order. */
  function NamingFaces(faces: seq<Face>, e: nat): (r: seq<nat>)
    ensures forall i :: 0 <= i < |r| ==> r[i] < |faces|
    decreases |faces|
  {
    if faces == [] then []
    else
      var k := |faces| - 1;
      NamingFaces(faces[..k], e) + Repeat(k, Occurrences(faces[k].edges, e))
  }

  // ---------------------------------------------------------------------------
  // Counts

  /** Number of edge endpoints equal to `n` (the degree of node `n`). */
  function EdgeDegree(pairs: seq<Pair>, n: nat): nat
    decreases |pairs|
  {
    if pairs == [] then 0
    else
      var k := |pairs| - 1;
      EdgeDegree(pairs[..k], n) + (if pairs[k].0 == n then 1 else 0) + (if pairs[k].1 == n then 1 else 0)
  }

  /** Number of face corners equal to `n`. */
  function FaceDegree(faces: seq<Face>, n: nat): nat
    decreases |faces|
  {
    if faces == [] then 0
    else FaceDegree(faces[..|faces| - 1], n) + Occurrences(faces[|faces| - 1].points, n)
  }

  /** Number of face edge slots naming edge `e`. */
  function NamingCount(faces: seq<Face>, e: nat): nat
    decreases |faces|
  {
    if faces == [] then 0
    else NamingCount(faces[..|faces| - 1], e) + Occurrences(faces[|faces| - 1].edges, e)
  }

  lemma {:induction false} IncidentEdgesLength(pairs: seq<Pair>, n: nat)
    ensures |IncidentEdges(pairs, n)| == EdgeDegree(pairs, n)
    decreases |pairs|
  {
    if pairs != [] {
      IncidentEdgesLength(pairs[..|pairs| - 1], n);
    }
  }

  lemma {:induction false} IncidentFacesLength(faces: seq<Face>, n: nat)
    ensures |IncidentFaces(faces, n)| == FaceDegree(faces, n)
    decreases |faces|
  {
    if faces != [] {
      IncidentFacesLength(faces[..|faces| - 1], n);
    }
  }

  lemma {:induction false} NamingFacesLength(faces: seq<Face>, e: nat)
    ensures |NamingFaces(faces, e)| == NamingCount(faces, e)
    decreases |faces|
  {
    if faces != [] {
      NamingFacesLength(faces[..|faces| - 1], e);
    }
  }

  lemma {:induction false} EdgeDegreeAppend(x: seq<Pair>, y: seq<Pair>, n: nat)
    ensures EdgeDegree(x + y, n) == EdgeDegree(x, n) + EdgeDegree(y, n)
    decreases |y|
  {
    if y == [] {
      assert x + y == x;
    } else {
      var k := |y| - 1;
      assert (x + y)[..|x + y| - 1] == x + y[..k];
      EdgeDegreeAppend(x, y[..k], n);
    }
  }

  lemma {:induction false} FaceDegreeAppend(x: seq<Face>, y: seq<Face>, n: nat)
    ensures FaceDegree(x + y, n) == FaceDegree(x, n) + FaceDegree(y, n)
    decreases |y|
  {
    if y == [] {
      assert x + y == x;
    } else {
      var k := |y| - 1;
      assert (x + y)[..|x + y| - 1] == x + y[..k];
      FaceDegreeAppend(x, y[..k], n);
    }
  }

  lemma {:induction false} NamingCountAppend(x: seq<Face>, y: seq<Face>, e: nat)
    ensures NamingCount(x + y, e) == NamingCount(x, e) + NamingCount(y, e)
    decreases |y|
  {
    if y == [] {
      assert x + y == x;
    } else {
      var k := |y| - 1;
      assert (x + y)[..|x + y| - 1] == x + y[..k];
      NamingCountAppend(x, y[..k], e);
    }
  }

  // ---------------------------------------------------------------------------
  // Shape of a well-formed mesh

  /** Every edge joins two different nodes below `numNodes`, smaller index first. */
  ghost predicate ProperEdges(numNodes: nat, pairs: seq<Pair>)
  {
    forall e :: 0 <= e < |pairs| ==> pairs[e].0 < pairs[e].1 < numNodes
  }

  /** Each edge slot of `f` names an existing edge joining the slot's two corners. */
  ghost predicate FaceAligned(pairs: seq<Pair>, f: Face)
  {
    && f.edges.x < |pairs| && f.edges.y < |pairs| && f.edges.z < |pairs|
    && pairs[f.edges.x] == SortedPair(f.points.x, f.points.y)
    && pairs[f.edges.y] == SortedPair(f.points.y, f.points.z)
    && pairs[f.edges.z] == SortedPair(f.points.z, f.points.x)
  }

  ghost predicate Aligned(pairs: seq<Pair>, faces: seq<Face>)
  {
    forall k :: 0 <= k < |faces| ==> FaceAligned(pairs, faces[k])
  }

  /** Every edge lies on exactly two face slots (a closed surface). */
  ghost predicate Closed(pairs: seq<Pair>, faces: seq<Face>)
  {
    forall e :: 0 <= e < |pairs| ==> NamingCount(faces, e) == 2
  }

  /** Every node has between `lo` and `hi` edges and between `lo` and `hi` faces. */
  ghost predicate DegreesWithin(numNodes: nat, pairs: seq<Pair>, faces: seq<Face>, lo: nat, hi: nat)
  {
    forall n :: 0 <= n < numNodes ==>
      lo <= EdgeDegree(pairs, n) <= hi && lo <= FaceDegree(faces, n) <= hi
  }

  /** The structural invariant the generator's tests check after zero or more subdivisions. */
  ghost predicate MeshShape(numNodes: nat, pairs: seq<Pair>, faces: seq<Face>)
  {
    && ProperEdges(numNodes, pairs)
    && Aligned(pairs, faces)
    && Closed(pairs, faces)
    && DegreesWithin(numNodes, pairs, faces, 5, 6)
  }

  lemma ProperEdgesAppend(numNodes: nat, x: seq<Pair>, y: seq<Pair>)
    requires ProperEdges(numNodes, x) && ProperEdges(numNodes, y)
    ensures ProperEdges(numNodes, x + y)
  {
    forall e | 0 <= e < |x + y|
      ensures (x + y)[e].0 < (x + y)[e].1 < numNodes
    {
      if e >= |x| {
        assert (x + y)[e] == y[e - |x|];
      }
    }
  }

  lemma AlignedAppend(pairs: seq<Pair>, x: seq<Face>, y: seq<Face>)
    requires Aligned(pairs, x) && Aligned(pairs, y)
    ensures Aligned(pairs, x + y)
  {
    forall k | 0 <= k < |x + y|
      ensures FaceAligned(pairs, (x + y)[k])
    {
      if k >= |x| {
        assert (x + y)[k] == y[k - |x|];
      }
    }
  }

  /** In an aligned face over proper edges, the three corners and the three edges are distinct. */
  lemma AlignedFaceDistinct(numNodes: nat, pairs: seq<Pair>, f: Face)
    requires ProperEdges(numNodes, pairs)
    requires FaceAligned(pairs, f)
    ensures f.points.x != f.points.y && f.points.y != f.points.z && f.points.z != f.points.x
    ensures f.edges.x != f.edges.y && f.edges.y != f.edges.z && f.edges.z != f.edges.x
    ensures f.points.x < numNodes && f.points.y < numNodes && f.points.z < numNodes
  {
    assert pairs[f.edges.x].0 < pairs[f.edges.x].1;
    assert pairs[f.edges.y].0 < pairs[f.edges.y].1;
    assert pairs[f.edges.z].0 < pairs[f.edges.z].1;
  }

  // ---------------------------------------------------------------------------
  // The back-link lists are exactly the incident indices, ascending

  ghost predicate StrictlyIncreasing(s: seq<nat>)
  {
    forall i, j :: 0 <= i < j < |s| ==> s[i] < s[j]
  }

  /**
   * When no edge is a self-loop, node `n`'s edge list holds, in ascending
   * order, exactly the indices of the edges with an endpoint equal to `n`.
   */
  lemma {:induction false} IncidentEdgesExact(pairs: seq<Pair>, n: nat)
    requires forall e :: 0 <= e < |pairs| ==> pairs[e].0 != pairs[e].1
    ensures StrictlyIncreasing(IncidentEdges(pairs, n))
    ensures forall e :: e in IncidentEdges(pairs, n) <==> 0 <= e < |pairs| && (pairs[e].0 == n || pairs[e].1 == n)
    decreases |pairs|
  {
    if pairs != [] {
      var k := |pairs| - 1;
      var front := pairs[..k];
      assert forall e :: 0 <= e < k ==> front[e] == pairs[e];
      IncidentEdgesExact(front, n);
      var prefix := IncidentEdges(front, n);
      var c := if pairs[k].0 == n || pairs[k].1 == n then 1 else 0;
      assert (if pairs[k].0 == n then [k] else []) + (if pairs[k].1 == n then [k] else []) == Repeat(k, c);
      assert IncidentEdges(pairs, n) == prefix + Repeat(k, c);
      AppendAbove(prefix, k, c);
    }
  }

  /** Appending at most one copy of an index above a strictly increasing list keeps it strictly increasing. */
  lemma AppendAbove(prefix: seq<nat>, k: nat, c: nat)
    requires StrictlyIncreasing(prefix) && (forall i :: 0 <= i < |prefix| ==> prefix[i] < k) && c <= 1
    ensures StrictlyIncreasing(prefix + Repeat(k, c))
    ensures forall j :: j in prefix + Repeat(k, c) <==> j in prefix || (c == 1 && j == k)
  {
    var r := prefix + Repeat(k, c);
    forall j | j in r
      ensures j in prefix || (c == 1 && j == k)
    {
      var i :| 0 <= i < |r| && r[i] == j;
      if i >= |prefix| {
        assert r[i] == Repeat(k, c)[i - |prefix|];
      }
    }
    if c == 1 {
      assert r[|prefix|] == k;
    }
  }

  /**
   * When no face repeats a corner, node `n`'s face list holds, in ascending
   * order, exactly the indices of the faces having `n` as a corner.
   */
  lemma {:induction false} IncidentFacesExact(faces: seq<Face>, n: nat)
    requires forall k :: 0 <= k < |faces| ==> Occurrences(faces[k].points, n) <= 1
    ensures StrictlyIncreasing(IncidentFaces(faces, n))
    ensures forall k :: k in IncidentFaces(faces, n) <==> 0 <= k < |faces| && Occurrences(faces[k].points, n) == 1
    decreases |faces|
  {
    if faces != [] {
      var k := |faces| - 1;
      var front := faces[..k];
      assert forall j :: 0 <= j < k ==> front[j] == faces[j];
      IncidentFacesExact(front, n);
      var prefix := IncidentFaces(front, n);
      var c := Occurrences(faces[k].points, n);
      assert IncidentFaces(faces, n) == prefix + Repeat(k, c);
      AppendAbove(prefix, k, c);
    }
  }

  /**
   * When no face repeats an edge, edge `e`'s face list holds, in ascending
   * order, exactly the indices of the faces that name `e`.
   */
  lemma {:induction false} NamingFacesExact(faces: seq<Face>, e: nat)
    requires forall k :: 0 <= k < |faces| ==> Occurrences(faces[k].edges, e) <= 1
    ensures StrictlyIncreasing(NamingFaces(faces, e))
    ensures forall k :: k in NamingFaces(faces, e) <==> 0 <= k < |faces| && Occurrences(faces[k].edges, e) == 1
    decreases |faces|
  {
    if faces != [] {
      var k := |faces| - 1;
      var front := faces[..k];
      assert forall j :: 0 <= j < k ==> front[j] == faces[j];
      NamingFacesExact(front, e);
      var prefix := NamingFaces(front, e);
      var c := Occurrences(faces[k].edges, e);
      assert NamingFaces(faces, e) == prefix + Repeat(k, c);
      AppendAbove(prefix, k, c);
    }
  }

  // ---------------------------------------------------------------------------
  // How often an index appears on a back-link list

  /** `Repeat(k, c)` holds `k` exactly `c` times and nothing else. */
  lemma {:induction false} RepeatCount(k: nat, c: nat, j: nat)
    ensures multiset(Repeat(k, c))[j] == if j == k then c else 0
    decreases c
  {
    if c > 0 {
      RepeatCount(k, c - 1, j);
    }
  }

  /** The list holding `k` when `b` holds, and nothing otherwise, holds `j` once exactly when `b` holds and `j` is `k`. */
  lemma OptionalCount(k: nat, b: bool, j: nat)
    ensures multiset(if b then [k] else [])[j] == if b && j == k then 1 else 0
  {
  }

  /** Edge `j` is on node `n`'s edge list once per endpoint of `j` equal to `n`. */
  lemma {:induction false} IncidentEdgesCount(pairs: seq<Pair>, n: nat, j: nat)
    ensures multiset(IncidentEdges(pairs, n))[j] ==
      if j < |pairs| then (if pairs[j].0 == n then 1 else 0) + (if pairs[j].1 == n then 1 else 0) else 0
    decreases |pairs|
  {
    if pairs != [] {
      var k := |pairs| - 1;
      var prefix: seq<nat> := IncidentEdges(pairs[..k], n);
      var first: seq<nat> := if pairs[k].0 == n then [k] else [];
      var second: seq<nat> := if pairs[k].1 == n then [k] else [];
      var middle := prefix + first;
      assert IncidentEdges(pairs, n) == middle + second;
      assert multiset(middle + second) == multiset(middle) + multiset(second);
      assert multiset(middle) == multiset(prefix) + multiset(first);
      IncidentEdgesCount(pairs[..k], n, j);
      OptionalCount(k, pairs[k].0 == n, j);
      OptionalCount(k, pairs[k].1 == n, j);
      if j < k {
        assert pairs[..k][j] == pairs[j];
      }
    }
  }

  /** Face `j` is on node `n`'s face list once per corner of `j` equal to `n`. */
  lemma {:induction false} IncidentFacesCount(faces: seq<Face>, n: nat, j: nat)
    ensures multiset(IncidentFaces(faces, n))[j] == if j < |faces| then Occurrences(faces[j].points, n) else 0
    decreases |faces|
  {
    if faces != [] {
      var k := |faces| - 1;
      var prefix: seq<nat>, last: seq<nat> := IncidentFaces(faces[..k], n), Repeat(k, Occurrences(faces[k].points, n));
      assert IncidentFaces(faces, n) == prefix + last;
      assert multiset(prefix + last)[j] == multiset(prefix)[j] + multiset(last)[j];
      IncidentFacesCount(faces[..k], n, j);
      RepeatCount(k, Occurrences(faces[k].points, n), j);
      if j < k {
        assert faces[..k][j] == faces[j];
      }
    }
  }

  /** Face `j` is on edge `e`'s face list once per slot of `j` naming `e`. */
  lemma {:induction false} NamingFacesCount(faces: seq<Face>, e: nat, j: nat)
    ensures multiset(NamingFaces(faces, e))[j] == if j < |faces| then Occurrences(faces[j].edges, e) else 0
    decreases |faces|
  {
    if faces != [] {
      var k := |faces| - 1;
      var prefix: seq<nat>, last: seq<nat> := NamingFaces(faces[..k], e), Repeat(k, Occurrences(faces[k].edges, e));
      assert NamingFaces(faces, e) == prefix + last;
      assert multiset(prefix + last)[j] == multiset(prefix)[j] + multiset(last)[j];
      NamingFacesCount(faces[..k], e, j);
      RepeatCount(k, Occurrences(faces[k].edges, e), j);
      if j < k {
        assert faces[..k][j] == faces[j];
      }
    }
  }

  /** Replacing face `k` by `g` trades the slots of the old face naming `e` for those of `g`. */
  lemma {:induction false} NamingCountUpdate(faces: seq<Face>, k: nat, g: Face, e: nat)
    requires k < |faces|
    ensures NamingCount(faces[k := g], e) + Occurrences(faces[k].edges, e) == NamingCount(faces, e) + Occurrences(g.edges, e)
    decreases |faces|
  {
    var m := |faces| - 1;
    var updated := faces[k := g];
    if k == m {
      assert updated[..m] == faces[..m];
    } else {
      assert updated[..m] == faces[..m][k := g];
      NamingCountUpdate(faces[..m], k, g, e);
    }
  }
}
