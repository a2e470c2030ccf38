/**
 * The 2-2 edge flip of the generator mesh (`conditional_rotate_edge`,
 * src/terrain/generator/mod.rs:313-383, with the face-count guard of
 * `rotation_predicate` at lines 289-292).
 *
 * An edge `(a, b)` shared by two faces is replaced by the edge joining the
 * two far corners of those faces.  `PlanFlip` performs the lookups that come
 * before any write (each one panics in the source when an index is out of
 * range), `Accepts` is the predicate that decides whether to flip, and
 * `Flipped` is the state the writes leave behind.  `RotateRecords` in
 * module `GeneratorSteps` performs those writes one by one and is proved to
 * reach `Flipped`; the lemmas below say what `Flipped` means.
 *
 * Two helpers the flip calls live in src/terrain/generator/face.rs, which is
 * not part of this model: `Face::opposite_node_index` is taken to return the
 * first slot whose corner is neither end of the edge (and to panic when there
 * is none), and indexing a triple with `k + 1` or `k + 2` is taken modulo 3.
 */
module EdgeFlip {
  import opened Outcomes
  import opened Pairs
  import opened Vector
  import opened MeshFace
  import TerrainNode
  import GeneratorEdge

  type Node = TerrainNode.Node
  type Edge = GeneratorEdge.Edge
  type Vertex = TerrainNode.Vertex

  // ---------------------------------------------------------------------------
  // List surgery

  /** `Vec::retain(|t| *t != x)`: every entry other than `x`, in order. */
  function Retain(s: seq<nat>, x: nat): (r: seq<nat>)
    ensures |r| <= |s|
    decreases |s|
  {
    if s == [] then []
    else
      var k := |s| - 1;
      Retain(s[..k], x) + (if s[k] == x then [] else [s[k]])
  }

  /** Retaining removes every copy of `x` and nothing else. */
  lemma RetainCounts(s: seq<nat>, x: nat)
    ensures multiset(Retain(s, x)) == multiset(s)[x := 0]
    ensures |Retain(s, x)| == |s| - multiset(s)[x]
    ensures x !in Retain(s, x)
  {
    RetainMultiset(s, x);
    RetainLength(s, x);
    assert multiset(Retain(s, x))[x] == 0;
  }

  lemma {:induction false} RetainMultiset(s: seq<nat>, x: nat)
    ensures multiset(Retain(s, x)) == multiset(s)[x := 0]
    decreases |s|
  {
    if s != [] {
      var k := |s| - 1;
      RetainMultiset(s[..k], x);
      assert s == s[..k] + [s[k]];
    }
  }

  lemma {:induction false} RetainLength(s: seq<nat>, x: nat)
    ensures |Retain(s, x)| == |s| - multiset(s)[x]
    decreases |s|
  {
    if s != [] {
      var k := |s| - 1;
      RetainLength(s[..k], x);
      assert s == s[..k] + [s[k]];
      assert multiset(s)[x] == multiset(s[..k])[x] + (if s[k] == x then 1 else 0);
    }
  }

  /** A list without `x` is left as it is. */
  lemma {:induction false} RetainAbsent(s: seq<nat>, x: nat)
    requires x !in s
    ensures Retain(s, x) == s
    decreases |s|
  {
    if s != [] {
      var k := |s| - 1;
      var front := s[..k];
      assert forall i :: 0 <= i < k ==> front[i] == s[i];
      assert x !in front;
      RetainAbsent(front, x);
      assert s[k] != x;
      assert Retain(s, x) == front + [s[k]];
      assert s == front + [s[k]];
    }
  }

  // ---------------------------------------------------------------------------
  // The lookups before any write

  /** `opposite_node_index`: the first slot whose corner is neither `a` nor `b`. */
  function OppositeSlot(f: Face, a: nat, b: nat): (r: Option<nat>)
    ensures r.Some? ==> r.value < 3 && At(f.points, r.value) != a && At(f.points, r.value) != b
    ensures r.None? ==> forall k :: 0 <= k < 3 ==> At(f.points, k) == a || At(f.points, k) == b
  {
    if f.points.x != a && f.points.x != b then Some(0)
    else if f.points.y != a && f.points.y != b then Some(1)
    else if f.points.z != a && f.points.z != b then Some(2)
    else None
  }

  /**
   * What the flip of an edge looks up before it writes: its two faces, the
   * far slot of each, the far (`new`) and near (`old`) corners, and the two
   * edges that will change faces.
   */
  datatype Plan = Plan(face0: nat, face1: nat, far0: nat, far1: nat,
                       new0: nat, old0: nat, new1: nat, old1: nat,
                       edge0: nat, edge1: nat)

  /** Every index of the plan lies in range. */
  predicate Fits(p: Plan, numNodes: nat, numEdges: nat, numFaces: nat)
  {
    && p.face0 < numFaces && p.face1 < numFaces
    && p.far0 < 3 && p.far1 < 3
    && p.new0 < numNodes && p.old0 < numNodes && p.new1 < numNodes && p.old1 < numNodes
    && p.edge0 < numEdges && p.edge1 < numEdges
  }

  /**
   * Lines 314-332: the lookups, or `None` where one of them would panic (an
   * edge index past the end, an edge with fewer than two faces, a face,
   * node or edge index past the end, or a face with no opposite corner).
   */
  function PlanFlip(nodes: seq<Node>, edges: seq<Edge>, faces: seq<Face>, ei: nat): (r: Option<Plan>)
    ensures r.Some? ==> ei < |edges| && |edges[ei].faces| >= 2 && Fits(r.value, |nodes|, |edges|, |faces|)
    ensures r.Some? ==> r.value.face0 == edges[ei].faces[0] && r.value.face1 == edges[ei].faces[1]
    ensures r.Some? ==>
      var p := r.value;
      var a, b := edges[ei].a, edges[ei].b;
      && At(faces[p.face0].points, p.far0) == p.new0 && p.new0 != a && p.new0 != b
      && At(faces[p.face1].points, p.far1) == p.new1 && p.new1 != a && p.new1 != b
      && At(faces[p.face0].points, p.far0 + 1) == p.old0
      && At(faces[p.face1].points, p.far1 + 1) == p.old1
      && At(faces[p.face1].edges, p.far1 + 2) == p.edge0
      && At(faces[p.face0].edges, p.far0 + 2) == p.edge1
    ensures r.Some? ==>
      && OppositeSlot(faces[r.value.face0], edges[ei].a, edges[ei].b) == Some(r.value.far0)
      && OppositeSlot(faces[r.value.face1], edges[ei].a, edges[ei].b) == Some(r.value.far1)
    ensures ei >= |edges| || |edges[ei].faces| < 2 ==> r.None?
  {
    if ei >= |edges| || |edges[ei].faces| < 2 then None
    else
      var ef0, ef1 := edges[ei].faces[0], edges[ei].faces[1];
      if ef0 >= |faces| || ef1 >= |faces| then None
      else
        var f0, f1 := faces[ef0], faces[ef1];
        var a, b := edges[ei].a, edges[ei].b;
        var s0, s1 := OppositeSlot(f0, a, b), OppositeSlot(f1, a, b);
        if s0.None? || s1.None? then None
        else
          var k0, k1 := s0.value, s1.value;
          var p := Plan(ef0, ef1, k0, k1,
                        At(f0.points, k0), At(f0.points, k0 + 1), At(f1.points, k1), At(f1.points, k1 + 1),
                        At(f1.edges, k1 + 2), At(f0.edges, k0 + 2));
          if Fits(p, |nodes|, |edges|, |faces|) then Some(p) else None
  }

  // ---------------------------------------------------------------------------
  // The decision

  /** Lines 289-292: a far node with 7 or more faces, or a near node with 5 or fewer, refuses the flip. */
  predicate DegreeGuard(old0: Node, old1: Node, new0: Node, new1: Node)
  {
    !(|new0.faces| >= 7 || |new1.faces| >= 7 || |old0.faces| <= 5 || |old1.faces| <= 5)
  }

  /**
   * `rotation_predicate`: the face-count guard, then the geometric tests on
   * the four positions (lines 293-310), which are floating point and stand
   * here as the parameter `geometry`.
   */
  predicate Accepts(old0: Node, old1: Node, new0: Node, new1: Node, geometry: (Vertex, Vertex, Vertex, Vertex) -> bool)
  {
    DegreeGuard(old0, old1, new0, new1) && geometry(old0.point, old1.point, new0.point, new1.point)
  }

  /** The face-count guard alone decides a refusal, whatever the geometry says. */
  lemma GuardRefuses(old0: Node, old1: Node, new0: Node, new1: Node, geometry: (Vertex, Vertex, Vertex, Vertex) -> bool)
    requires |new0.faces| >= 7 || |new1.faces| >= 7 || |old0.faces| <= 5 || |old1.faces| <= 5
    ensures !Accepts(old0, old1, new0, new1, geometry)
  {
  }

  // ---------------------------------------------------------------------------
  // The state after the writes

  /**
   * Lines 338-380, in order, on copies taken before any write: the near
   * nodes drop the edge and one face, the far nodes gain them, the two side
   * edges trade faces, both faces take the other far corner and new edge
   * slots, and the edge keeps its index and faces but joins the far corners.
   * Later writes win where two of the indices coincide.
   */
  function Flipped(nodes: seq<Node>, edges: seq<Edge>, faces: seq<Face>, ei: nat, p: Plan): (r: (seq<Node>, seq<Edge>, seq<Face>))
    requires ei < |edges| && |edges[ei].faces| >= 2 && Fits(p, |nodes|, |edges|, |faces|)
    ensures |r.0| == |nodes| && |r.1| == |edges| && |r.2| == |faces|
  {
    var fA, fB := edges[ei].faces[0], edges[ei].faces[1];
    (FlipNodes(nodes, ei, fA, fB, p), FlipEdges(edges, ei, p), FlipFaces(faces, ei, p))
  }

  /** Lines 338-354: the node records after the flip of edge `ei`, whose faces are `fA` and `fB`. */
  function FlipNodes(nodes: seq<Node>, ei: nat, fA: nat, fB: nat, p: Plan): (r: seq<Node>)
    requires p.new0 < |nodes| && p.old0 < |nodes| && p.new1 < |nodes| && p.old1 < |nodes|
    ensures |r| == |nodes|
  {
    var o0, o1, n0, n1 := nodes[p.old0], nodes[p.old1], nodes[p.new0], nodes[p.new1];
    var o0' := o0.(edges := Retain(o0.edges, ei), faces := Retain(o0.faces, fB));
    var o1' := o1.(edges := Retain(o1.edges, ei), faces := Retain(o1.faces, fA));
    var n0' := n0.AddEdge(ei).AddFace(fB);
    var n1' := n1.AddEdge(ei).AddFace(fA);
    nodes[p.old0 := o0'][p.old1 := o1'][p.new0 := n0'][p.new1 := n1']
  }

  /** Lines 356-362 and 376-380: the side edges trade faces, then the edge itself joins the far corners. */
  function FlipEdges(edges: seq<Edge>, ei: nat, p: Plan): (r: seq<Edge>)
    requires ei < |edges| && |edges[ei].faces| >= 2 && p.edge0 < |edges| && p.edge1 < |edges|
    ensures |r| == |edges|
  {
    var edge := edges[ei];
    var fA, fB := edge.faces[0], edge.faces[1];
    var s0, s1 := edges[p.edge0], edges[p.edge1];
    var s0' := s0.(faces := Retain(s0.faces, fB)).AddFace(fA);
    var s1' := s1.(faces := Retain(s1.faces, fA)).AddFace(fB);
    var joined := GeneratorEdge.New(p.new0, p.new1);
    edges[p.edge0 := s0'][p.edge1 := s1'][ei := edge.(a := joined.a, b := joined.b)]
  }

  /** Lines 364-374: each face takes the other far corner and the new edge slots. */
  function FlipFaces(faces: seq<Face>, ei: nat, p: Plan): (r: seq<Face>)
    requires p.face0 < |faces| && p.face1 < |faces|
    ensures |r| == |faces|
  {
    var f0, f1 := faces[p.face0], faces[p.face1];
    var f0' := Face(With(f0.points, p.far0 + 2, p.new1), With(With(f0.edges, p.far0 + 1, p.edge0), p.far0 + 2, ei));
    var f1' := Face(With(f1.points, p.far1 + 2, p.new0), With(With(f1.edges, p.far1 + 1, p.edge1), p.far1 + 2, ei));
    faces[p.face0 := f0'][p.face1 := f1']
  }

  /** The four corners, the three edges and the two faces a flip touches are all different. */
  predicate Separate(p: Plan, ei: nat)
  {
    && p.old0 != p.old1 && p.old0 != p.new0 && p.old0 != p.new1
    && p.old1 != p.new0 && p.old1 != p.new1 && p.new0 != p.new1
    && ei != p.edge0 && ei != p.edge1 && p.edge0 != p.edge1
    && p.face0 != p.face1
  }

  /** After a flip the edge keeps its index and its faces and joins the two far corners, smaller first. */
  lemma FlipJoinsFarCorners(nodes: seq<Node>, edges: seq<Edge>, faces: seq<Face>, ei: nat, p: Plan)
    requires ei < |edges| && |edges[ei].faces| >= 2 && Fits(p, |nodes|, |edges|, |faces|)
    ensures var edges' := Flipped(nodes, edges, faces, ei, p).1;
      && (edges'[ei].a, edges'[ei].b) == SortedPair(p.new0, p.new1)
      && edges'[ei].faces == edges[ei].faces
  {
  }

  /**
   * On separate indices, the near corners lose every copy of the edge, the
   * far corners gain it at the end, and every node the flip does not touch
   * keeps its record.
   */
  lemma FlipMovesEdgeLinks(nodes: seq<Node>, edges: seq<Edge>, faces: seq<Face>, ei: nat, p: Plan)
    requires ei < |edges| && |edges[ei].faces| >= 2 && Fits(p, |nodes|, |edges|, |faces|)
    requires Separate(p, ei)
    ensures var nodes' := Flipped(nodes, edges, faces, ei, p).0;
      && ei !in nodes'[p.old0].edges && ei !in nodes'[p.old1].edges
      && multiset(nodes'[p.old0].edges) == multiset(nodes[p.old0].edges)[ei := 0]
      && multiset(nodes'[p.old1].edges) == multiset(nodes[p.old1].edges)[ei := 0]
      && nodes'[p.new0].edges == nodes[p.new0].edges + [ei]
      && nodes'[p.new1].edges == nodes[p.new1].edges + [ei]
      && (forall n :: 0 <= n < |nodes| && n != p.old0 && n != p.old1 && n != p.new0 && n != p.new1 ==> nodes'[n] == nodes[n])
  {
    var fA, fB := edges[ei].faces[0], edges[ei].faces[1];
    var nodes' := FlipNodes(nodes, ei, fA, fB, p);
    assert Flipped(nodes, edges, faces, ei, p).0 == nodes';
    FlipNodesAt(nodes, ei, fA, fB, p);
    RetainCounts(nodes[p.old0].edges, ei);
    RetainCounts(nodes[p.old1].edges, ei);
  }

  /** The record each of the four corners gets, when they are different nodes. */
  lemma FlipNodesAt(nodes: seq<Node>, ei: nat, fA: nat, fB: nat, p: Plan)
    requires p.new0 < |nodes| && p.old0 < |nodes| && p.new1 < |nodes| && p.old1 < |nodes|
    requires p.old0 != p.old1 && p.old0 != p.new0 && p.old0 != p.new1
    requires p.old1 != p.new0 && p.old1 != p.new1 && p.new0 != p.new1
    ensures var r := FlipNodes(nodes, ei, fA, fB, p);
      && r[p.old0].edges == Retain(nodes[p.old0].edges, ei) && r[p.old0].faces == Retain(nodes[p.old0].faces, fB)
      && r[p.old1].edges == Retain(nodes[p.old1].edges, ei) && r[p.old1].faces == Retain(nodes[p.old1].faces, fA)
      && r[p.new0].edges == nodes[p.new0].edges + [ei] && r[p.new0].faces == nodes[p.new0].faces + [fB]
      && r[p.new1].edges == nodes[p.new1].edges + [ei] && r[p.new1].faces == nodes[p.new1].faces + [fA]
      && (forall n :: 0 <= n < |nodes| && n != p.old0 && n != p.old1 && n != p.new0 && n != p.new1 ==> r[n] == nodes[n])
  {
  }

  /**
   * On two different faces, face 0 becomes (new0, old0, new1) from its far slot
   * on and face 1 becomes (new1, old1, new0); the flipped edge sits in the
   * third slot of both, and the side edge taken from the other face in the
   * second.
   */
  lemma FlipRewritesFaces(faces: seq<Face>, ei: nat, p: Plan)
    requires p.face0 < |faces| && p.face1 < |faces| && p.face0 != p.face1
    requires At(faces[p.face0].points, p.far0) == p.new0 && At(faces[p.face0].points, p.far0 + 1) == p.old0
    requires At(faces[p.face1].points, p.far1) == p.new1 && At(faces[p.face1].points, p.far1 + 1) == p.old1
    ensures var faces' := FlipFaces(faces, ei, p);
      && At(faces'[p.face0].points, p.far0) == p.new0
      && At(faces'[p.face0].points, p.far0 + 1) == p.old0
      && At(faces'[p.face0].points, p.far0 + 2) == p.new1
      && At(faces'[p.face1].points, p.far1) == p.new1
      && At(faces'[p.face1].points, p.far1 + 1) == p.old1
      && At(faces'[p.face1].points, p.far1 + 2) == p.new0
      && At(faces'[p.face0].edges, p.far0 + 1) == p.edge0 && At(faces'[p.face0].edges, p.far0 + 2) == ei
      && At(faces'[p.face1].edges, p.far1 + 1) == p.edge1 && At(faces'[p.face1].edges, p.far1 + 2) == ei
      && (forall k :: 0 <= k < |faces| && k != p.face0 && k != p.face1 ==> faces'[k] == faces[k])
  {
    var faces' := FlipFaces(faces, ei, p);
    var f0, f1 := faces[p.face0], faces[p.face1];
    var g0 := Face(With(f0.points, p.far0 + 2, p.new1), With(With(f0.edges, p.far0 + 1, p.edge0), p.far0 + 2, ei));
    var g1 := Face(With(f1.points, p.far1 + 2, p.new0), With(With(f1.edges, p.far1 + 1, p.edge1), p.far1 + 2, ei));
    assert faces' == faces[p.face0 := g0][p.face1 := g1];
    FaceRewrite(f0, g0, p.far0, p.new0, p.old0, p.new1, p.edge0, ei);
    FaceRewrite(f1, g1, p.far1, p.new1, p.old1, p.new0, p.edge1, ei);
  }

  lemma FaceRewrite(f: Face, g: Face, far: nat, first: nat, second: nat, corner: nat, side: nat, ei: nat)
    requires g == Face(With(f.points, far + 2, corner), With(With(f.edges, far + 1, side), far + 2, ei))
    requires At(f.points, far) == first && At(f.points, far + 1) == second
    ensures && At(g.points, far) == first && At(g.points, far + 1) == second
      && At(g.points, far + 2) == corner && At(g.edges, far + 1) == side && At(g.edges, far + 2) == ei
  {
    assert (far + 2) % 3 != far % 3 && (far + 2) % 3 != (far + 1) % 3;
  }

  /**
   * The guard keeps face counts within 5..7: when each near corner lists the
   * face it loses exactly once, an accepted flip leaves all four corners with
   * between 5 and 7 faces.
   */
  lemma FlipKeepsFaceCounts(nodes: seq<Node>, edges: seq<Edge>, faces: seq<Face>, ei: nat, p: Plan,
                            geometry: (Vertex, Vertex, Vertex, Vertex) -> bool)
    requires ei < |edges| && |edges[ei].faces| >= 2 && Fits(p, |nodes|, |edges|, |faces|)
    requires Separate(p, ei)
    requires Accepts(nodes[p.old0], nodes[p.old1], nodes[p.new0], nodes[p.new1], geometry)
    requires multiset(nodes[p.old0].faces)[edges[ei].faces[1]] == 1
    requires multiset(nodes[p.old1].faces)[edges[ei].faces[0]] == 1
    ensures var nodes' := Flipped(nodes, edges, faces, ei, p).0;
      && |nodes'[p.old0].faces| == |nodes[p.old0].faces| - 1 >= 5
      && |nodes'[p.old1].faces| == |nodes[p.old1].faces| - 1 >= 5
      && |nodes'[p.new0].faces| == |nodes[p.new0].faces| + 1 <= 7
      && |nodes'[p.new1].faces| == |nodes[p.new1].faces| + 1 <= 7
  {
    var fA, fB := edges[ei].faces[0], edges[ei].faces[1];
    FlipNodesAt(nodes, ei, fA, fB, p);
    RetainCounts(nodes[p.old0].faces, fB);
    RetainCounts(nodes[p.old1].faces, fA);
  }
}
