/**
 * The back-link rebuilds shared by the generator mesh and the earlier terrain
 * mesh: `assign_links_to_nodes` (src/terrain/generator/mod.rs:116-135 and the
 * identical src/terrain/generator.rs:105-125) and `assign_links_to_edges`
 * (src/terrain/generator/mod.rs:137-148).  Both take a node or edge vector by
 * mutable reference and rewrite it record by record; here the vector is a
 * sequence that the loops reassign, and the result is returned.
 */
module MeshLinks {
  import opened Pairs
  import opened MeshFace
  import opened MeshTopology
  import TerrainNode
  import GeneratorEdge

  type Node = TerrainNode.Node
  type Edge = GeneratorEdge.Edge

  /** Every edge endpoint and every face corner indexes a node (else the source indexes out of bounds). */
  ghost predicate EndsWithin(numNodes: nat, pairs: seq<Pair>, faces: seq<Face>)
  {
    && (forall e :: 0 <= e < |pairs| ==> pairs[e].0 < numNodes && pairs[e].1 < numNodes)
    && (forall k :: 0 <= k < |faces| ==> faces[k].points.x < numNodes && faces[k].points.y < numNodes && faces[k].points.z < numNodes)
  }

  /** Every face's edge slots index an edge. */
  ghost predicate SlotsWithin(numEdges: nat, faces: seq<Face>)
  {
    forall k :: 0 <= k < |faces| ==> faces[k].edges.x < numEdges && faces[k].edges.y < numEdges && faces[k].edges.z < numEdges
  }

  /**
   * `assign_links_to_nodes`: clears every node's lists, then walks the edges
   * pushing each edge index onto both endpoints, then walks the faces pushing
   * each face index onto its three corners.  Afterwards node `n` holds
   * exactly `IncidentEdges` and `IncidentFaces`; positions and elevations are
   * untouched.
   */
  method AssignLinksToNodes(nodes: seq<Node>, pairs: seq<Pair>, faces: seq<Face>) returns (r: seq<Node>)
    requires EndsWithin(|nodes|, pairs, faces)
    ensures |r| == |nodes|
    ensures forall n :: 0 <= n < |r| ==> r[n].point == nodes[n].point && r[n].elevation == nodes[n].elevation
    ensures forall n :: 0 <= n < |r| ==> r[n].edges == IncidentEdges(pairs, n) && r[n].faces == IncidentFaces(faces, n)
  {
    r := nodes;
    var i := 0;
    while i < |r|
      invariant 0 <= i <= |r| == |nodes|
      invariant forall n :: 0 <= n < |r| ==> r[n].point == nodes[n].point && r[n].elevation == nodes[n].elevation
      invariant forall n :: 0 <= n < i ==> r[n].edges == [] && r[n].faces == []
    {
      r := r[i := r[i].ClearLinks()];
      i := i + 1;
    }
    i := 0;
    while i < |pairs|
      invariant 0 <= i <= |pairs|
      invariant NodeEdgesUpTo(r, nodes, pairs, i)
    {
      var p0, p1 := pairs[i].0, pairs[i].1;
      ghost var before := r;
      r := r[p0 := r[p0].AddEdge(i)];
      r := r[p1 := r[p1].AddEdge(i)];
      NodeEdgesStep(nodes, pairs, faces, i, before, r);
      i := i + 1;
    }
    assert pairs[..i] == pairs;
    i := 0;
    while i < |faces|
      invariant 0 <= i <= |faces|
      invariant NodeFacesUpTo(r, nodes, pairs, faces, i)
    {
      var p0, p1, p2 := faces[i].points.x, faces[i].points.y, faces[i].points.z;
      ghost var before := r;
      r := r[p0 := r[p0].AddFace(i)];
      r := r[p1 := r[p1].AddFace(i)];
      r := r[p2 := r[p2].AddFace(i)];
      NodeFacesStep(nodes, pairs, faces, i, before, r);
      i := i + 1;
    }
    assert faces[..i] == faces;
  }

  /** The state of `AssignLinksToNodes` once the first `i` edges have been walked. */
  ghost predicate NodeEdgesUpTo(r: seq<Node>, nodes: seq<Node>, pairs: seq<Pair>, i: nat)
    requires i <= |pairs|
  {
    && |r| == |nodes|
    && forall n :: 0 <= n < |r| ==>
         && r[n].point == nodes[n].point && r[n].elevation == nodes[n].elevation
         && r[n].edges == IncidentEdges(pairs[..i], n) && r[n].faces == []
  }

  /** The state of `AssignLinksToNodes` once every edge and the first `i` faces have been walked. */
  ghost predicate NodeFacesUpTo(r: seq<Node>, nodes: seq<Node>, pairs: seq<Pair>, faces: seq<Face>, i: nat)
    requires i <= |faces|
  {
    && |r| == |nodes|
    && forall n :: 0 <= n < |r| ==>
         && r[n].point == nodes[n].point && r[n].elevation == nodes[n].elevation
         && r[n].edges == IncidentEdges(pairs, n) && r[n].faces == IncidentFaces(faces[..i], n)
  }

  lemma NodeEdgesStep(nodes: seq<Node>, pairs: seq<Pair>, faces: seq<Face>, i: nat, before: seq<Node>, r: seq<Node>)
    requires i < |pairs| && EndsWithin(|nodes|, pairs, faces)
    requires NodeEdgesUpTo(before, nodes, pairs, i)
    requires
      var p0, p1 := pairs[i].0, pairs[i].1;
      var r1 := before[p0 := before[p0].AddEdge(i)];
      r == r1[p1 := r1[p1].AddEdge(i)]
    ensures NodeEdgesUpTo(r, nodes, pairs, i + 1)
  {
    forall n | 0 <= n < |r|
      ensures r[n].point == nodes[n].point && r[n].elevation == nodes[n].elevation
      ensures r[n].edges == IncidentEdges(pairs[..i + 1], n) && r[n].faces == []
    {
      PushedTwice(before, i, pairs[i].0, pairs[i].1, r, n);
      IncidentEdgesStep(pairs, i, n);
    }
  }

  lemma NodeFacesStep(nodes: seq<Node>, pairs: seq<Pair>, faces: seq<Face>, i: nat, before: seq<Node>, r: seq<Node>)
    requires i < |faces| && EndsWithin(|nodes|, pairs, faces)
    requires NodeFacesUpTo(before, nodes, pairs, faces, i)
    requires
      var p0, p1, p2 := faces[i].points.x, faces[i].points.y, faces[i].points.z;
      var r1 := before[p0 := before[p0].AddFace(i)];
      var r2 := r1[p1 := r1[p1].AddFace(i)];
      r == r2[p2 := r2[p2].AddFace(i)]
    ensures NodeFacesUpTo(r, nodes, pairs, faces, i + 1)
  {
    forall n | 0 <= n < |r|
      ensures r[n].point == nodes[n].point && r[n].elevation == nodes[n].elevation
      ensures r[n].edges == IncidentEdges(pairs, n) && r[n].faces == IncidentFaces(faces[..i + 1], n)
    {
      PushedThrice(before, i, faces[i].points, r, n);
      IncidentFacesStep(faces, i, n);
    }
  }

  /**
   * `assign_links_to_edges`: walks the faces pushing each face index onto the
   * edge named by each of its three slots.  The lists are not cleared first,
   * so edge `e` ends up with its old list followed by `NamingFaces`.
   */
  method AssignLinksToEdges(edges: seq<Edge>, faces: seq<Face>) returns (r: seq<Edge>)
    requires SlotsWithin(|edges|, faces)
    ensures |r| == |edges|
    ensures forall e :: 0 <= e < |r| ==>
      r[e].a == edges[e].a && r[e].b == edges[e].b && r[e].faces == edges[e].faces + NamingFaces(faces, e)
  {
    r := edges;
    var i := 0;
    while i < |faces|
      invariant 0 <= i <= |faces|
      invariant EdgeLinksUpTo(r, edges, faces, i)
    {
      var e0, e1, e2 := faces[i].edges.x, faces[i].edges.y, faces[i].edges.z;
      ghost var before := r;
      r := r[e0 := r[e0].AddFace(i)];
      r := r[e1 := r[e1].AddFace(i)];
      r := r[e2 := r[e2].AddFace(i)];
      EdgeLinksStep(edges, faces, i, before, r);
      i := i + 1;
    }
    assert faces[..i] == faces;
  }

  /** The state of `AssignLinksToEdges` once the first `i` faces have been walked. */
  ghost predicate EdgeLinksUpTo(r: seq<Edge>, edges: seq<Edge>, faces: seq<Face>, i: nat)
    requires i <= |faces|
  {
    && |r| == |edges|
    && forall e :: 0 <= e < |r| ==>
         r[e].a == edges[e].a && r[e].b == edges[e].b && r[e].faces == edges[e].faces + NamingFaces(faces[..i], e)
  }

  lemma EdgeLinksStep(edges: seq<Edge>, faces: seq<Face>, i: nat, before: seq<Edge>, r: seq<Edge>)
    requires i < |faces| && SlotsWithin(|edges|, faces)
    requires EdgeLinksUpTo(before, edges, faces, i)
    requires
      var e0, e1, e2 := faces[i].edges.x, faces[i].edges.y, faces[i].edges.z;
      var r1 := before[e0 := before[e0].AddFace(i)];
      var r2 := r1[e1 := r1[e1].AddFace(i)];
      r == r2[e2 := r2[e2].AddFace(i)]
    ensures EdgeLinksUpTo(r, edges, faces, i + 1)
  {
    forall e | 0 <= e < |r|
      ensures r[e].a == edges[e].a && r[e].b == edges[e].b
      ensures r[e].faces == edges[e].faces + NamingFaces(faces[..i + 1], e)
    {
      EdgePushedThrice(before, i, faces[i].edges, r, e);
      NamingFacesStep(faces, i, e);
      AppendAssociates(edges[e].faces, NamingFaces(faces[..i], e), Repeat(i, Occurrences(faces[i].edges, e)));
    }
  }

  // ---------------------------------------------------------------------------
  // What one round of pushes does to a single record

  /** Pushing edge `i` onto nodes `p0` and `p1` appends it to node `n` once per match. */
  lemma PushedTwice(before: seq<Node>, i: nat, p0: nat, p1: nat, r: seq<Node>, n: nat)
    requires p0 < |before| && p1 < |before|
    requires
      var r1 := before[p0 := before[p0].AddEdge(i)];
      r == r1[p1 := r1[p1].AddEdge(i)]
    requires n < |r|
    ensures r[n].point == before[n].point && r[n].elevation == before[n].elevation && r[n].faces == before[n].faces
    ensures r[n].edges == before[n].edges + (if p0 == n then [i] else []) + (if p1 == n then [i] else [])
  {
    var r1 := before[p0 := before[p0].AddEdge(i)];
    assert r1[n].edges == before[n].edges + (if p0 == n then [i] else []);
  }

  /** Pushing face `i` onto its three corners appends it to node `n` once per matching corner. */
  lemma PushedThrice(before: seq<Node>, i: nat, slots: Index3, r: seq<Node>, n: nat)
    requires slots.x < |before| && slots.y < |before| && slots.z < |before|
    requires
      var r1 := before[slots.x := before[slots.x].AddFace(i)];
      var r2 := r1[slots.y := r1[slots.y].AddFace(i)];
      r == r2[slots.z := r2[slots.z].AddFace(i)]
    requires n < |r|
    ensures r[n].point == before[n].point && r[n].elevation == before[n].elevation && r[n].edges == before[n].edges
    ensures r[n].faces == before[n].faces + Repeat(i, Occurrences(slots, n))
  {
    var r1 := before[slots.x := before[slots.x].AddFace(i)];
    var r2 := r1[slots.y := r1[slots.y].AddFace(i)];
    var s := before[n].faces;
    var a0, a1, a2 := (if slots.x == n then [i] else []), (if slots.y == n then [i] else []), (if slots.z == n then [i] else []);
    assert r1[n].faces == s + a0;
    assert r2[n].faces == s + a0 + a1;
    assert r[n].faces == s + a0 + a1 + a2;
    PushThree(s, i, slots.x == n, slots.y == n, slots.z == n);
  }

  /** Pushing face `i` onto the three edges it names appends it to edge `e` once per matching slot. */
  lemma EdgePushedThrice(before: seq<Edge>, i: nat, slots: Index3, r: seq<Edge>, e: nat)
    requires slots.x < |before| && slots.y < |before| && slots.z < |before|
    requires
      var r1 := before[slots.x := before[slots.x].AddFace(i)];
      var r2 := r1[slots.y := r1[slots.y].AddFace(i)];
      r == r2[slots.z := r2[slots.z].AddFace(i)]
    requires e < |r|
    ensures r[e].a == before[e].a && r[e].b == before[e].b
    ensures r[e].faces == before[e].faces + Repeat(i, Occurrences(slots, e))
  {
    var r1 := before[slots.x := before[slots.x].AddFace(i)];
    var r2 := r1[slots.y := r1[slots.y].AddFace(i)];
    var s := before[e].faces;
    var a0, a1, a2 := (if slots.x == e then [i] else []), (if slots.y == e then [i] else []), (if slots.z == e then [i] else []);
    assert r1[e].faces == s + a0;
    assert r2[e].faces == s + a0 + a1;
    assert r[e].faces == s + a0 + a1 + a2;
    PushThree(s, i, slots.x == e, slots.y == e, slots.z == e);
  }

  lemma AppendAssociates(a: seq<nat>, b: seq<nat>, c: seq<nat>)
    ensures a + b + c == a + (b + c)
  {
  }

  // ---------------------------------------------------------------------------
  // One more edge or face in the prefix

  lemma IncidentEdgesStep(pairs: seq<Pair>, i: nat, n: nat)
    requires i < |pairs|
    ensures IncidentEdges(pairs[..i + 1], n)
      == IncidentEdges(pairs[..i], n) + (if pairs[i].0 == n then [i] else []) + (if pairs[i].1 == n then [i] else [])
  {
    assert pairs[..i + 1][..i] == pairs[..i];
  }

  lemma IncidentFacesStep(faces: seq<Face>, i: nat, n: nat)
    requires i < |faces|
    ensures IncidentFaces(faces[..i + 1], n) == IncidentFaces(faces[..i], n) + Repeat(i, Occurrences(faces[i].points, n))
  {
    assert faces[..i + 1][..i] == faces[..i];
  }

  lemma NamingFacesStep(faces: seq<Face>, i: nat, e: nat)
    requires i < |faces|
    ensures NamingFaces(faces[..i + 1], e) == NamingFaces(faces[..i], e) + Repeat(i, Occurrences(faces[i].edges, e))
  {
    assert faces[..i + 1][..i] == faces[..i];
  }

  /** Pushing `i` once for each of three slots that match is appending as many copies. */
  lemma PushThree(s: seq<nat>, i: nat, b0: bool, b1: bool, b2: bool)
    ensures s + (if b0 then [i] else []) + (if b1 then [i] else []) + (if b2 then [i] else [])
      == s + Repeat(i, (if b0 then 1 else 0) + (if b1 then 1 else 0) + (if b2 then 1 else 0))
  {
    var c := (if b0 then 1 else 0) + (if b1 then 1 else 0) + (if b2 then 1 else 0);
    var t := s + (if b0 then [i] else []) + (if b1 then [i] else []) + (if b2 then [i] else []);
    assert |t| == |s| + c;
    assert forall j :: 0 <= j < |t| ==> t[j] == (s + Repeat(i, c))[j];
  }
}
