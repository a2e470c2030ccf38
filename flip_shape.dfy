/**
 * What an accepted edge flip keeps (`conditional_rotate_edge`,
 * src/terrain/generator/mod.rs:313-383), and flips chained as `distort`
 * (lines 385-404) chains them.
 *
 * A mesh is `Sound` when its edges are proper, its faces aligned, every edge
 * lies on exactly two face slots, and every back-link list holds the right
 * indices as often as the faces say, in any order.  On such a mesh no lookup
 * of a flip panics.  When the two faces of the flipped edge run along it in
 * opposite directions and have different far corners (`Opposed`), the flip
 * touches four different nodes, three different edges and two different
 * faces, and the mesh it leaves is `Sound` again.
 *
 * The order of the lists is not kept: a flip appends at the end of the far
 * corners' lists, so the ascending lists `LinksMatch` describes become lists
 * that only agree with the mesh up to order.
 */
module FlipShape {
  import opened Outcomes
  import opened Pairs
  import opened MeshFace
  import opened MeshTopology
  import opened Vector
  import opened PrimalMesh
  import EdgeFlip

  // ---------------------------------------------------------------------------
  // The invariant

  /**
   * Every node lists its incident edges and faces, and every edge the faces
   * naming it, each as many times as the mesh says, in any order.
   */
  ghost predicate LinksAgree(nodes: seq<Node>, edges: seq<Edge>, faces: seq<Face>)
  {
    && (forall n :: 0 <= n < |nodes| ==>
          && multiset(nodes[n].edges) == multiset(IncidentEdges(EdgeEnds(edges), n))
          && multiset(nodes[n].faces) == multiset(IncidentFaces(faces, n)))
    && (forall e :: 0 <= e < |edges| ==> multiset(edges[e].faces) == multiset(NamingFaces(faces, e)))
  }

  /** Proper edges, aligned faces, two face slots per edge, and back-links that agree. */
  ghost predicate Sound(nodes: seq<Node>, edges: seq<Edge>, faces: seq<Face>)
  {
    && ProperEdges(|nodes|, EdgeEnds(edges))
    && Aligned(EdgeEnds(edges), faces)
    && Closed(EdgeEnds(edges), faces)
    && LinksAgree(nodes, edges, faces)
  }

  /**
   * The two faces of the flipped edge run along it in opposite directions
   * (their near corners differ) and have different far corners.  The
   * geometric half of `rotation_predicate` is a parameter here, so the model
   * cannot derive this from the positions.
   */
  predicate Opposed(p: EdgeFlip.Plan)
  {
    p.old0 != p.old1 && p.new0 != p.new1
  }

  /** The tested shape with current, ascending back-links is sound. */
  lemma LinkedShapeIsSound(nodes: seq<Node>, edges: seq<Edge>, faces: seq<Face>)
    requires MeshShape(|nodes|, EdgeEnds(edges), faces) && LinksMatch(nodes, edges, faces)
    ensures Sound(nodes, edges, faces)
  {
  }

  // ---------------------------------------------------------------------------
  // A face read from one of its slots on

  function Hit(c: nat, x: nat): nat
  {
    if c == x then 1 else 0
  }

  /** From slot `k` on, face `f` has corners `c0, c1, c2` and edges `e0, e1, e2`. */
  predicate Layout(f: Face, k: nat, c0: nat, c1: nat, c2: nat, e0: nat, e1: nat, e2: nat)
  {
    && At(f.points, k) == c0 && At(f.points, k + 1) == c1 && At(f.points, k + 2) == c2
    && At(f.edges, k) == e0 && At(f.edges, k + 1) == e1 && At(f.edges, k + 2) == e2
  }

  /** A face read from any slot on holds each corner and each edge as often as its fields do. */
  lemma LayoutCounts(f: Face, k: nat, c0: nat, c1: nat, c2: nat, e0: nat, e1: nat, e2: nat, x: nat)
    requires Layout(f, k, c0, c1, c2, e0, e1, e2)
    ensures Occurrences(f.points, x) == Hit(c0, x) + Hit(c1, x) + Hit(c2, x)
    ensures Occurrences(f.edges, x) == Hit(e0, x) + Hit(e1, x) + Hit(e2, x)
  {
    LayoutSlots(f, k, c0, c1, c2, e0, e1, e2);
  }

  /** A face read from any slot on is aligned exactly when each slot's edge joins its two corners. */
  lemma LayoutAligned(pairs: seq<Pair>, f: Face, k: nat, c0: nat, c1: nat, c2: nat, e0: nat, e1: nat, e2: nat)
    requires Layout(f, k, c0, c1, c2, e0, e1, e2)
    ensures FaceAligned(pairs, f) <==>
      && e0 < |pairs| && e1 < |pairs| && e2 < |pairs|
      && pairs[e0] == SortedPair(c0, c1) && pairs[e1] == SortedPair(c1, c2) && pairs[e2] == SortedPair(c2, c0)
  {
    LayoutSlots(f, k, c0, c1, c2, e0, e1, e2);
  }

  /** Distinct corners and edges stay distinct whichever slot a face is read from. */
  lemma LayoutDistinct(f: Face, k: nat, c0: nat, c1: nat, c2: nat, e0: nat, e1: nat, e2: nat)
    requires Layout(f, k, c0, c1, c2, e0, e1, e2)
    requires f.points.x != f.points.y && f.points.y != f.points.z && f.points.z != f.points.x
    requires f.edges.x != f.edges.y && f.edges.y != f.edges.z && f.edges.z != f.edges.x
    ensures c0 != c1 && c1 != c2 && c2 != c0
    ensures e0 != e1 && e1 != e2 && e2 != e0
  {
    LayoutSlots(f, k, c0, c1, c2, e0, e1, e2);
  }

  /** The three ways of reading a face. */
  lemma LayoutSlots(f: Face, k: nat, c0: nat, c1: nat, c2: nat, e0: nat, e1: nat, e2: nat)
    requires Layout(f, k, c0, c1, c2, e0, e1, e2)
    ensures || (f.points == Vec3(c0, c1, c2) && f.edges == Vec3(e0, e1, e2))
            || (f.points == Vec3(c2, c0, c1) && f.edges == Vec3(e2, e0, e1))
            || (f.points == Vec3(c1, c2, c0) && f.edges == Vec3(e1, e2, e0))
  {
    var j := k % 3;
    assert (k + 1) % 3 == (j + 1) % 3 && (k + 2) % 3 == (j + 2) % 3;
  }

  /** Two orderings of the same two ends that start differently are each other's reverse. */
  lemma OppositeEnds(x0: nat, y0: nat, x1: nat, y1: nat)
    requires SortedPair(x0, y0) == SortedPair(x1, y1) && x0 != x1
    ensures y0 == x1 && y1 == x0
  {
  }

  // ---------------------------------------------------------------------------
  // The lookups on a sound mesh

  /**
   * An aligned face over proper edges naming edge `ei` names it once, its
   * opposite slot exists, `ei` sits in the slot after it, and the two
   * corners after the opposite one are the ends of `ei`.
   */
  lemma FaceAroundEdge(numNodes: nat, pairs: seq<Pair>, f: Face, ei: nat)
    requires ProperEdges(numNodes, pairs) && FaceAligned(pairs, f)
    requires ei < |pairs| && Occurrences(f.edges, ei) >= 1
    ensures var s := EdgeFlip.OppositeSlot(f, pairs[ei].0, pairs[ei].1);
      && s.Some?
      && At(f.edges, s.value + 1) == ei
      && pairs[ei] == SortedPair(At(f.points, s.value + 1), At(f.points, s.value + 2))
    ensures Occurrences(f.edges, ei) == 1
  {
    AlignedFaceDistinct(numNodes, pairs, f);
  }

  /**
   * An edge on two face slots whose list agrees with the faces lists two
   * faces naming it, and no other face names it.
   */
  lemma TwoFaces(faces: seq<Face>, ei: nat, list: seq<nat>)
    requires multiset(list) == multiset(NamingFaces(faces, ei)) && NamingCount(faces, ei) == 2
    ensures |list| == 2 && list[0] < |faces| && list[1] < |faces|
    ensures Occurrences(faces[list[0]].edges, ei) >= 1 && Occurrences(faces[list[1]].edges, ei) >= 1
    ensures list[0] == list[1] ==> Occurrences(faces[list[0]].edges, ei) == 2
    ensures forall k :: 0 <= k < |faces| && k != list[0] && k != list[1] ==> Occurrences(faces[k].edges, ei) == 0
  {
    NamingFacesLength(faces, ei);
    assert |list| == |multiset(list)| == |multiset(NamingFaces(faces, ei))| == 2;
    var a, b := list[0], list[1];
    assert multiset(list) == multiset{a, b} by {
      assert list == [a, b];
    }
    NamedByTwo(faces, ei, a, b);
  }

  /** When the faces naming `ei` are `a` and `b`, they exist, name it, and no other face does. */
  lemma NamedByTwo(faces: seq<Face>, ei: nat, a: nat, b: nat)
    requires multiset(NamingFaces(faces, ei)) == multiset{a, b}
    ensures a < |faces| && b < |faces|
    ensures Occurrences(faces[a].edges, ei) >= 1 && Occurrences(faces[b].edges, ei) >= 1
    ensures a == b ==> Occurrences(faces[a].edges, ei) == 2
    ensures forall k :: 0 <= k < |faces| && k != a && k != b ==> Occurrences(faces[k].edges, ei) == 0
  {
    NamingFacesCount(faces, ei, a);
    NamingFacesCount(faces, ei, b);
    forall k | 0 <= k < |faces| && k != a && k != b
      ensures Occurrences(faces[k].edges, ei) == 0
    {
      NamingFacesCount(faces, ei, k);
    }
  }

  /** Read from its opposite slot on, a face naming `ei` has `ei` second and the ends of `ei` as its last two corners. */
  lemma FaceLayout(numNodes: nat, pairs: seq<Pair>, f: Face, ei: nat) returns (far: nat)
    requires ProperEdges(numNodes, pairs) && FaceAligned(pairs, f)
    requires ei < |pairs| && Occurrences(f.edges, ei) >= 1
    ensures EdgeFlip.OppositeSlot(f, pairs[ei].0, pairs[ei].1) == Some(far)
    ensures Layout(f, far, At(f.points, far), At(f.points, far + 1), At(f.points, far + 2),
                   At(f.edges, far), ei, At(f.edges, far + 2))
    ensures pairs[ei] == SortedPair(At(f.points, far + 1), At(f.points, far + 2))
    ensures Occurrences(f.edges, ei) == 1
    ensures At(f.points, far) < numNodes && At(f.points, far + 1) < numNodes
    ensures At(f.edges, far + 2) < |pairs|
  {
    FaceAroundEdge(numNodes, pairs, f, ei);
    far := EdgeFlip.OppositeSlot(f, pairs[ei].0, pairs[ei].1).value;
    AlignedFaceDistinct(numNodes, pairs, f);
  }

  /**
   * On a sound mesh every edge lies on two different faces, which are the
   * two entries of its face list and the only faces naming it, and the
   * lookups of a flip all succeed; the plan they give reads each face from
   * its far slot on.
   */
  lemma PlanAround(nodes: seq<Node>, edges: seq<Edge>, faces: seq<Face>, ei: nat)
    returns (p: EdgeFlip.Plan, m0: nat, m1: nat, side0: nat, side1: nat)
    requires Sound(nodes, edges, faces) && ei < |edges|
    ensures EdgeFlip.PlanFlip(nodes, edges, faces, ei) == Some(p)
    ensures edges[ei].faces == [p.face0, p.face1] && p.face0 != p.face1
    ensures forall k :: 0 <= k < |faces| && k != p.face0 && k != p.face1 ==> Occurrences(faces[k].edges, ei) == 0
    ensures Layout(faces[p.face0], p.far0, p.new0, p.old0, m0, side0, ei, p.edge1)
    ensures Layout(faces[p.face1], p.far1, p.new1, p.old1, m1, side1, ei, p.edge0)
    ensures EdgeEnds(edges)[ei] == SortedPair(p.old0, m0) == SortedPair(p.old1, m1)
  {
    var pairs := EdgeEnds(edges);
    var list := edges[ei].faces;
    assert multiset(list) == multiset(NamingFaces(faces, ei)) && NamingCount(faces, ei) == 2;
    TwoFaces(faces, ei, list);
    var fA, fB := list[0], list[1];
    assert FaceAligned(pairs, faces[fA]) && FaceAligned(pairs, faces[fB]);
    var k0 := FaceLayout(|nodes|, pairs, faces[fA], ei);
    var k1 := FaceLayout(|nodes|, pairs, faces[fB], ei);
    p, m0, m1, side0, side1 := PlanOf(nodes, edges, faces, ei, k0, k1);
  }

  /** The plan `PlanFlip` builds once both opposite slots are known. */
  lemma PlanOf(nodes: seq<Node>, edges: seq<Edge>, faces: seq<Face>, ei: nat, k0: nat, k1: nat)
    returns (p: EdgeFlip.Plan, m0: nat, m1: nat, side0: nat, side1: nat)
    requires ei < |edges| && |edges[ei].faces| == 2
    requires edges[ei].faces[0] < |faces| && edges[ei].faces[1] < |faces| && edges[ei].faces[0] != edges[ei].faces[1]
    requires var f0, f1, a, b := faces[edges[ei].faces[0]], faces[edges[ei].faces[1]], edges[ei].a, edges[ei].b;
      && EdgeFlip.OppositeSlot(f0, a, b) == Some(k0) && EdgeFlip.OppositeSlot(f1, a, b) == Some(k1)
      && At(f0.edges, k0 + 1) == ei && At(f1.edges, k1 + 1) == ei
      && (a, b) == SortedPair(At(f0.points, k0 + 1), At(f0.points, k0 + 2))
      && (a, b) == SortedPair(At(f1.points, k1 + 1), At(f1.points, k1 + 2))
      && At(f0.points, k0) < |nodes| && At(f0.points, k0 + 1) < |nodes|
      && At(f1.points, k1) < |nodes| && At(f1.points, k1 + 1) < |nodes|
      && At(f0.edges, k0 + 2) < |edges| && At(f1.edges, k1 + 2) < |edges|
    ensures EdgeFlip.PlanFlip(nodes, edges, faces, ei) == Some(p)
    ensures edges[ei].faces == [p.face0, p.face1]
    ensures Layout(faces[p.face0], p.far0, p.new0, p.old0, m0, side0, ei, p.edge1)
    ensures Layout(faces[p.face1], p.far1, p.new1, p.old1, m1, side1, ei, p.edge0)
    ensures EdgeEnds(edges)[ei] == SortedPair(p.old0, m0) == SortedPair(p.old1, m1)
  {
    var fA, fB := edges[ei].faces[0], edges[ei].faces[1];
    var f0, f1 := faces[fA], faces[fB];
    p := EdgeFlip.Plan(fA, fB, k0, k1,
                       At(f0.points, k0), At(f0.points, k0 + 1), At(f1.points, k1), At(f1.points, k1 + 1),
                       At(f1.edges, k1 + 2), At(f0.edges, k0 + 2));
    m0, m1 := At(f0.points, k0 + 2), At(f1.points, k1 + 2);
    side0, side1 := At(f0.edges, k0), At(f1.edges, k1);
    assert EdgeFlip.Fits(p, |nodes|, |edges|, |faces|);
    assert edges[ei].faces == [fA, fB];
  }

  // ---------------------------------------------------------------------------
  // The arrays after a flip

  /** The flip changes the ends of edge `ei` only, to the sorted far corners. */
  lemma FlipEnds(edges: seq<Edge>, ei: nat, p: EdgeFlip.Plan)
    requires ei < |edges| && |edges[ei].faces| >= 2 && p.edge0 < |edges| && p.edge1 < |edges|
    ensures EdgeEnds(EdgeFlip.FlipEdges(edges, ei, p)) == EdgeEnds(edges)[ei := SortedPair(p.new0, p.new1)]
  {
  }

  /** The two rewritten faces, read from their far slots on. */
  lemma FlipLayout(faces: seq<Face>, ei: nat, p: EdgeFlip.Plan, m0: nat, m1: nat, side0: nat, side1: nat)
    requires p.face0 < |faces| && p.face1 < |faces| && p.face0 != p.face1
    requires Layout(faces[p.face0], p.far0, p.new0, p.old0, m0, side0, ei, p.edge1)
    requires Layout(faces[p.face1], p.far1, p.new1, p.old1, m1, side1, ei, p.edge0)
    ensures var faces' := EdgeFlip.FlipFaces(faces, ei, p);
      && Layout(faces'[p.face0], p.far0, p.new0, p.old0, p.new1, side0, p.edge0, ei)
      && Layout(faces'[p.face1], p.far1, p.new1, p.old1, p.new0, side1, p.edge1, ei)
      && faces' == faces[p.face0 := faces'[p.face0]][p.face1 := faces'[p.face1]]
  {
    var f0, f1 := faces[p.face0], faces[p.face1];
    var g0 := Face(With(f0.points, p.far0 + 2, p.new1), With(With(f0.edges, p.far0 + 1, p.edge0), p.far0 + 2, ei));
    var g1 := Face(With(f1.points, p.far1 + 2, p.new0), With(With(f1.edges, p.far1 + 1, p.edge1), p.far1 + 2, ei));
    var faces' := EdgeFlip.FlipFaces(faces, ei, p);
    assert faces' == faces[p.face0 := g0][p.face1 := g1];
    assert faces'[p.face0] == g0 && faces'[p.face1] == g1;
    LayoutRewrite(f0, g0, p.far0, p.new0, p.old0, m0, side0, ei, p.edge1, p.new1, p.edge0);
    LayoutRewrite(f1, g1, p.far1, p.new1, p.old1, m1, side1, ei, p.edge0, p.new0, p.edge1);
  }

  /** One face rewritten by a flip, read from its far slot on. */
  lemma LayoutRewrite(f: Face, g: Face, far: nat, c0: nat, c1: nat, c2: nat, e0: nat, e1: nat, e2: nat,
                      corner: nat, side: nat)
    requires Layout(f, far, c0, c1, c2, e0, e1, e2)
    requires g == Face(With(f.points, far + 2, corner), With(With(f.edges, far + 1, side), far + 2, e1))
    ensures Layout(g, far, c0, c1, corner, e0, side, e1)
  {
    EdgeFlip.FaceRewrite(f, g, far, c0, c1, corner, side, e1);
    SlotUntouched(f, g, far, side, e1);
  }

  lemma SlotUntouched(f: Face, g: Face, far: nat, side: nat, ei: nat)
    requires g.edges == With(With(f.edges, far + 1, side), far + 2, ei)
    ensures At(g.edges, far) == At(f.edges, far)
  {
    assert far % 3 != (far + 1) % 3 && far % 3 != (far + 2) % 3;
  }

  /**
   * The two faces of an opposed flip read from their far slots on: face 0
   * runs far corner, `old0`, `old1` and face 1 far corner, `old1`, `old0`.
   */
  ghost predicate Around(faces: seq<Face>, ei: nat, p: EdgeFlip.Plan, side0: nat, side1: nat)
  {
    && p.face0 < |faces| && p.face1 < |faces| && p.face0 != p.face1
    && Layout(faces[p.face0], p.far0, p.new0, p.old0, p.old1, side0, ei, p.edge1)
    && Layout(faces[p.face1], p.far1, p.new1, p.old1, p.old0, side1, ei, p.edge0)
  }

  /** The outer edges of the two faces differ from the three edges the flip rewires. */
  predicate SidesApart(p: EdgeFlip.Plan, ei: nat, side0: nat, side1: nat)
  {
    && side0 != ei && side0 != p.edge0 && side0 != p.edge1
    && side1 != ei && side1 != p.edge0 && side1 != p.edge1
  }

  /** On a sound mesh an opposed plan touches four different nodes, three different edges and two different faces. */
  lemma OpposedIsSeparate(nodes: seq<Node>, edges: seq<Edge>, faces: seq<Face>, ei: nat, p: EdgeFlip.Plan)
    returns (side0: nat, side1: nat)
    requires Sound(nodes, edges, faces)
    requires EdgeFlip.PlanFlip(nodes, edges, faces, ei) == Some(p)
    requires Opposed(p)
    ensures EdgeFlip.Separate(p, ei) && SidesApart(p, ei, side0, side1)
    ensures Around(faces, ei, p, side0, side1)
    ensures edges[ei].faces == [p.face0, p.face1]
    ensures forall k :: 0 <= k < |faces| && k != p.face0 && k != p.face1 ==> Occurrences(faces[k].edges, ei) == 0
    ensures EdgeEnds(edges)[ei] == SortedPair(p.old0, p.old1)
  {
    var pairs := EdgeEnds(edges);
    var q, m0, m1, s0, s1 := PlanAround(nodes, edges, faces, ei);
    assert q == p;
    side0, side1 := s0, s1;
    OppositeEnds(p.old0, m0, p.old1, m1);
    assert FaceAligned(pairs, faces[p.face0]) && FaceAligned(pairs, faces[p.face1]);
    OpposedFaces(|nodes|, pairs, faces[p.face0], faces[p.face1], ei, p, side0, side1);
  }

  /** The corner and edge facts `Separate` needs, read off the two aligned faces. */
  lemma OpposedFaces(numNodes: nat, pairs: seq<Pair>, f0: Face, f1: Face, ei: nat, p: EdgeFlip.Plan,
                     side0: nat, side1: nat)
    requires ProperEdges(numNodes, pairs) && FaceAligned(pairs, f0) && FaceAligned(pairs, f1)
    requires Layout(f0, p.far0, p.new0, p.old0, p.old1, side0, ei, p.edge1)
    requires Layout(f1, p.far1, p.new1, p.old1, p.old0, side1, ei, p.edge0)
    requires p.face0 != p.face1 && Opposed(p)
    ensures EdgeFlip.Separate(p, ei) && SidesApart(p, ei, side0, side1)
  {
    AlignedFaceDistinct(numNodes, pairs, f0);
    AlignedFaceDistinct(numNodes, pairs, f1);
    LayoutDistinct(f0, p.far0, p.new0, p.old0, p.old1, side0, ei, p.edge1);
    LayoutDistinct(f1, p.far1, p.new1, p.old1, p.old0, side1, ei, p.edge0);
    LayoutAligned(pairs, f0, p.far0, p.new0, p.old0, p.old1, side0, ei, p.edge1);
    LayoutAligned(pairs, f1, p.far1, p.new1, p.old1, p.old0, side1, ei, p.edge0);
  }

  /** Replacing the two faces leaves every edge on two face slots. */
  lemma FlipKeepsClosed(pairs: seq<Pair>, faces: seq<Face>, ei: nat, p: EdgeFlip.Plan, side0: nat, side1: nat)
    requires Closed(pairs, faces) && Around(faces, ei, p, side0, side1) && ei < |pairs|
    ensures Closed(pairs[ei := SortedPair(p.new0, p.new1)], EdgeFlip.FlipFaces(faces, ei, p))
  {
    var faces' := EdgeFlip.FlipFaces(faces, ei, p);
    FlipLayout(faces, ei, p, p.old1, p.old0, side0, side1);
    var f0, f1, g0, g1 := faces[p.face0], faces[p.face1], faces'[p.face0], faces'[p.face1];
    forall e | 0 <= e < |pairs|
      ensures NamingCount(faces', e) == 2
    {
      LayoutCounts(f0, p.far0, p.new0, p.old0, p.old1, side0, ei, p.edge1, e);
      LayoutCounts(f1, p.far1, p.new1, p.old1, p.old0, side1, ei, p.edge0, e);
      LayoutCounts(g0, p.far0, p.new0, p.old0, p.new1, side0, p.edge0, ei, e);
      LayoutCounts(g1, p.far1, p.new1, p.old1, p.new0, side1, p.edge1, ei, e);
      NamingCountUpdate(faces, p.face0, g0, e);
      NamingCountUpdate(faces[p.face0 := g0], p.face1, g1, e);
    }
  }

  /** Both rewritten faces are aligned on the new ends, and so is every other face. */
  lemma FlipKeepsAligned(numNodes: nat, pairs: seq<Pair>, faces: seq<Face>, ei: nat, p: EdgeFlip.Plan,
                         side0: nat, side1: nat)
    requires ProperEdges(numNodes, pairs) && Aligned(pairs, faces) && Around(faces, ei, p, side0, side1)
    requires ei < |pairs| && p.new0 != p.new1
    requires forall k :: 0 <= k < |faces| && k != p.face0 && k != p.face1 ==> Occurrences(faces[k].edges, ei) == 0
    ensures Aligned(pairs[ei := SortedPair(p.new0, p.new1)], EdgeFlip.FlipFaces(faces, ei, p))
  {
    var pairs' := pairs[ei := SortedPair(p.new0, p.new1)];
    var faces' := EdgeFlip.FlipFaces(faces, ei, p);
    FlipLayout(faces, ei, p, p.old1, p.old0, side0, side1);
    RewrittenAligned(numNodes, pairs, faces, ei, p, side0, side1);
    forall k | 0 <= k < |faces'|
      ensures FaceAligned(pairs', faces'[k])
    {
      if k != p.face0 && k != p.face1 {
        assert faces'[k] == faces[k] && FaceAligned(pairs, faces[k]);
        assert Occurrences(faces[k].edges, ei) == 0;
      }
    }
  }

  /** The two rewritten faces are aligned on the new ends. */
  lemma RewrittenAligned(numNodes: nat, pairs: seq<Pair>, faces: seq<Face>, ei: nat, p: EdgeFlip.Plan,
                         side0: nat, side1: nat)
    requires ProperEdges(numNodes, pairs) && Around(faces, ei, p, side0, side1) && ei < |pairs|
    requires FaceAligned(pairs, faces[p.face0]) && FaceAligned(pairs, faces[p.face1])
    requires p.new0 != p.new1
    ensures var faces' := EdgeFlip.FlipFaces(faces, ei, p);
      && FaceAligned(pairs[ei := SortedPair(p.new0, p.new1)], faces'[p.face0])
      && FaceAligned(pairs[ei := SortedPair(p.new0, p.new1)], faces'[p.face1])
  {
    var pairs' := pairs[ei := SortedPair(p.new0, p.new1)];
    var faces' := EdgeFlip.FlipFaces(faces, ei, p);
    var f0, f1 := faces[p.face0], faces[p.face1];
    FlipLayout(faces, ei, p, p.old1, p.old0, side0, side1);
    LayoutAligned(pairs, f0, p.far0, p.new0, p.old0, p.old1, side0, ei, p.edge1);
    LayoutAligned(pairs, f1, p.far1, p.new1, p.old1, p.old0, side1, ei, p.edge0);
    AlignedFaceDistinct(numNodes, pairs, f0);
    AlignedFaceDistinct(numNodes, pairs, f1);
    LayoutDistinct(f0, p.far0, p.new0, p.old0, p.old1, side0, ei, p.edge1);
    LayoutDistinct(f1, p.far1, p.new1, p.old1, p.old0, side1, ei, p.edge0);
    SortedPairSymmetric(p.new0, p.new1);
    LayoutAligned(pairs', faces'[p.face0], p.far0, p.new0, p.old0, p.new1, side0, p.edge0, ei);
    LayoutAligned(pairs', faces'[p.face1], p.far1, p.new1, p.old1, p.new0, side1, p.edge1, ei);
  }

  /** The records `FlipNodes` leaves when the four corners are different nodes. */
  ghost predicate NodesMoved(nodes: seq<Node>, nodes': seq<Node>, ei: nat, p: EdgeFlip.Plan)
  {
    && |nodes'| == |nodes|
    && p.new0 < |nodes| && p.old0 < |nodes| && p.new1 < |nodes| && p.old1 < |nodes|
    && nodes'[p.old0].edges == EdgeFlip.Retain(nodes[p.old0].edges, ei)
    && nodes'[p.old0].faces == EdgeFlip.Retain(nodes[p.old0].faces, p.face1)
    && nodes'[p.old1].edges == EdgeFlip.Retain(nodes[p.old1].edges, ei)
    && nodes'[p.old1].faces == EdgeFlip.Retain(nodes[p.old1].faces, p.face0)
    && nodes'[p.new0].edges == nodes[p.new0].edges + [ei] && nodes'[p.new0].faces == nodes[p.new0].faces + [p.face1]
    && nodes'[p.new1].edges == nodes[p.new1].edges + [ei] && nodes'[p.new1].faces == nodes[p.new1].faces + [p.face0]
    && (forall n :: 0 <= n < |nodes| && n != p.old0 && n != p.old1 && n != p.new0 && n != p.new1 ==> nodes'[n] == nodes[n])
  }

  /** The face lists `FlipEdges` leaves when the three edges are different. */
  ghost predicate EdgesMoved(edges: seq<Edge>, edges': seq<Edge>, ei: nat, p: EdgeFlip.Plan)
  {
    && |edges'| == |edges| && ei < |edges| && p.edge0 < |edges| && p.edge1 < |edges|
    && edges'[ei].faces == edges[ei].faces
    && edges'[p.edge0].faces == EdgeFlip.Retain(edges[p.edge0].faces, p.face1) + [p.face0]
    && edges'[p.edge1].faces == EdgeFlip.Retain(edges[p.edge1].faces, p.face0) + [p.face1]
    && (forall e :: 0 <= e < |edges| && e != ei && e != p.edge0 && e != p.edge1 ==> edges'[e] == edges[e])
  }

  lemma FlipNodesMoved(nodes: seq<Node>, ei: nat, p: EdgeFlip.Plan)
    requires p.new0 < |nodes| && p.old0 < |nodes| && p.new1 < |nodes| && p.old1 < |nodes|
    requires EdgeFlip.Separate(p, ei)
    ensures NodesMoved(nodes, EdgeFlip.FlipNodes(nodes, ei, p.face0, p.face1, p), ei, p)
  {
    EdgeFlip.FlipNodesAt(nodes, ei, p.face0, p.face1, p);
  }

  lemma FlipEdgesMoved(edges: seq<Edge>, ei: nat, p: EdgeFlip.Plan)
    requires ei < |edges| && edges[ei].faces == [p.face0, p.face1] && p.edge0 < |edges| && p.edge1 < |edges|
    requires EdgeFlip.Separate(p, ei)
    ensures EdgesMoved(edges, EdgeFlip.FlipEdges(edges, ei, p), ei, p)
  {
  }

  /** Two face lists that change only at `fA` and `fB`. */
  ghost predicate TwoReplaced(faces: seq<Face>, faces': seq<Face>, fA: nat, fB: nat)
  {
    && |faces'| == |faces| && fA < |faces| && fB < |faces|
    && (forall k :: 0 <= k < |faces| && k != fA && k != fB ==> faces'[k] == faces[k])
  }

  /** One count of one edge's face list, before and after the flip. */
  lemma EdgeListCount(faces: seq<Face>, faces': seq<Face>, list: seq<nat>, list': seq<nat>, ei: nat,
                      p: EdgeFlip.Plan, side0: nat, side1: nat, e: nat, j: nat)
    requires EdgeFlip.Separate(p, ei) && SidesApart(p, ei, side0, side1)
    requires TwoReplaced(faces, faces', p.face0, p.face1)
    requires Occurrences(faces[p.face0].edges, e) == Hit(side0, e) + Hit(ei, e) + Hit(p.edge1, e)
    requires Occurrences(faces[p.face1].edges, e) == Hit(side1, e) + Hit(ei, e) + Hit(p.edge0, e)
    requires Occurrences(faces'[p.face0].edges, e) == Hit(side0, e) + Hit(p.edge0, e) + Hit(ei, e)
    requires Occurrences(faces'[p.face1].edges, e) == Hit(side1, e) + Hit(p.edge1, e) + Hit(ei, e)
    requires e == p.edge0 ==> list' == EdgeFlip.Retain(list, p.face1) + [p.face0]
    requires e == p.edge1 ==> list' == EdgeFlip.Retain(list, p.face0) + [p.face1]
    requires e != p.edge0 && e != p.edge1 ==> list' == list
    requires multiset(list) == multiset(NamingFaces(faces, e))
    ensures multiset(list')[j] == multiset(NamingFaces(faces', e))[j]
  {
    NamingFacesCount(faces, e, j);
    NamingFacesCount(faces', e, j);
    if e == p.edge0 {
      EdgeFlip.RetainCounts(list, p.face1);
      assert multiset(list') == multiset(list)[p.face1 := 0] + multiset{p.face0};
    } else if e == p.edge1 {
      EdgeFlip.RetainCounts(list, p.face0);
      assert multiset(list') == multiset(list)[p.face0 := 0] + multiset{p.face1};
    }
    if j != p.face0 && j != p.face1 && j < |faces| {
      assert faces'[j] == faces[j];
    }
  }

  /** One count of one node's face list, before and after the flip. */
  lemma NodeFaceCount(faces: seq<Face>, faces': seq<Face>, list: seq<nat>, list': seq<nat>, ei: nat,
                      p: EdgeFlip.Plan, n: nat, j: nat)
    requires EdgeFlip.Separate(p, ei)
    requires TwoReplaced(faces, faces', p.face0, p.face1)
    requires Occurrences(faces[p.face0].points, n) == Hit(p.new0, n) + Hit(p.old0, n) + Hit(p.old1, n)
    requires Occurrences(faces[p.face1].points, n) == Hit(p.new1, n) + Hit(p.old1, n) + Hit(p.old0, n)
    requires Occurrences(faces'[p.face0].points, n) == Hit(p.new0, n) + Hit(p.old0, n) + Hit(p.new1, n)
    requires Occurrences(faces'[p.face1].points, n) == Hit(p.new1, n) + Hit(p.old1, n) + Hit(p.new0, n)
    requires n == p.old0 ==> list' == EdgeFlip.Retain(list, p.face1)
    requires n == p.old1 ==> list' == EdgeFlip.Retain(list, p.face0)
    requires n == p.new0 ==> list' == list + [p.face1]
    requires n == p.new1 ==> list' == list + [p.face0]
    requires n != p.old0 && n != p.old1 && n != p.new0 && n != p.new1 ==> list' == list
    requires multiset(list) == multiset(IncidentFaces(faces, n))
    ensures multiset(list')[j] == multiset(IncidentFaces(faces', n))[j]
  {
    IncidentFacesCount(faces, n, j);
    IncidentFacesCount(faces', n, j);
    if n == p.old0 {
      EdgeFlip.RetainCounts(list, p.face1);
    } else if n == p.old1 {
      EdgeFlip.RetainCounts(list, p.face0);
    } else if n == p.new0 {
      assert multiset(list') == multiset(list) + multiset{p.face1};
    } else if n == p.new1 {
      assert multiset(list') == multiset(list) + multiset{p.face0};
    }
    if j != p.face0 && j != p.face1 && j < |faces| {
      assert faces'[j] == faces[j];
    }
  }

  /** One node's face list, before and after the flip. */
  lemma NodeFaceList(faces: seq<Face>, faces': seq<Face>, list: seq<nat>, list': seq<nat>, ei: nat,
                     p: EdgeFlip.Plan, n: nat)
    requires EdgeFlip.Separate(p, ei)
    requires TwoReplaced(faces, faces', p.face0, p.face1)
    requires Occurrences(faces[p.face0].points, n) == Hit(p.new0, n) + Hit(p.old0, n) + Hit(p.old1, n)
    requires Occurrences(faces[p.face1].points, n) == Hit(p.new1, n) + Hit(p.old1, n) + Hit(p.old0, n)
    requires Occurrences(faces'[p.face0].points, n) == Hit(p.new0, n) + Hit(p.old0, n) + Hit(p.new1, n)
    requires Occurrences(faces'[p.face1].points, n) == Hit(p.new1, n) + Hit(p.old1, n) + Hit(p.new0, n)
    requires n == p.old0 ==> list' == EdgeFlip.Retain(list, p.face1)
    requires n == p.old1 ==> list' == EdgeFlip.Retain(list, p.face0)
    requires n == p.new0 ==> list' == list + [p.face1]
    requires n == p.new1 ==> list' == list + [p.face0]
    requires n != p.old0 && n != p.old1 && n != p.new0 && n != p.new1 ==> list' == list
    requires multiset(list) == multiset(IncidentFaces(faces, n))
    ensures multiset(list') == multiset(IncidentFaces(faces', n))
  {
    forall j
      ensures multiset(list')[j] == multiset(IncidentFaces(faces', n))[j]
    {
      NodeFaceCount(faces, faces', list, list', ei, p, n, j);
    }
  }

  /** One count of one node's edge list, before and after the flip. */
  lemma NodeEdgeCount(pairs: seq<Pair>, list: seq<nat>, list': seq<nat>, ei: nat, p: EdgeFlip.Plan, n: nat, j: nat)
    requires EdgeFlip.Separate(p, ei)
    requires ei < |pairs| && pairs[ei] == SortedPair(p.old0, p.old1)
    requires n == p.old0 || n == p.old1 ==> list' == EdgeFlip.Retain(list, ei)
    requires n == p.new0 || n == p.new1 ==> list' == list + [ei]
    requires n != p.old0 && n != p.old1 && n != p.new0 && n != p.new1 ==> list' == list
    requires multiset(list) == multiset(IncidentEdges(pairs, n))
    ensures multiset(list')[j] == multiset(IncidentEdges(pairs[ei := SortedPair(p.new0, p.new1)], n))[j]
  {
    var pairs' := pairs[ei := SortedPair(p.new0, p.new1)];
    IncidentEdgesCount(pairs, n, j);
    IncidentEdgesCount(pairs', n, j);
    if n == p.old0 || n == p.old1 {
      EdgeFlip.RetainCounts(list, ei);
    }
  }

  /** The rewritten faces of a flip, read from their far slots on. */
  ghost predicate Rewired(faces: seq<Face>, faces': seq<Face>, ei: nat, p: EdgeFlip.Plan, side0: nat, side1: nat)
  {
    && |faces'| == |faces| && p.face0 < |faces| && p.face1 < |faces|
    && faces' == faces[p.face0 := faces'[p.face0]][p.face1 := faces'[p.face1]]
    && Layout(faces'[p.face0], p.far0, p.new0, p.old0, p.new1, side0, p.edge0, ei)
    && Layout(faces'[p.face1], p.far1, p.new1, p.old1, p.new0, side1, p.edge1, ei)
  }

  /** Edge `e`'s face list still agrees with the faces naming it. */
  lemma EdgeLinksAt(edges: seq<Edge>, edges': seq<Edge>, faces: seq<Face>, faces': seq<Face>, ei: nat,
                    p: EdgeFlip.Plan, side0: nat, side1: nat, e: nat)
    requires Around(faces, ei, p, side0, side1) && Rewired(faces, faces', ei, p, side0, side1)
    requires EdgeFlip.Separate(p, ei) && SidesApart(p, ei, side0, side1)
    requires EdgesMoved(edges, edges', ei, p)
    requires e < |edges| && multiset(edges[e].faces) == multiset(NamingFaces(faces, e))
    ensures multiset(edges'[e].faces) == multiset(NamingFaces(faces', e))
  {
    LayoutCounts(faces[p.face0], p.far0, p.new0, p.old0, p.old1, side0, ei, p.edge1, e);
    LayoutCounts(faces[p.face1], p.far1, p.new1, p.old1, p.old0, side1, ei, p.edge0, e);
    LayoutCounts(faces'[p.face0], p.far0, p.new0, p.old0, p.new1, side0, p.edge0, ei, e);
    LayoutCounts(faces'[p.face1], p.far1, p.new1, p.old1, p.new0, side1, p.edge1, ei, e);
    assert TwoReplaced(faces, faces', p.face0, p.face1);
    var list, list' := edges[e].faces, edges'[e].faces;
    forall j
      ensures multiset(list')[j] == multiset(NamingFaces(faces', e))[j]
    {
      EdgeListCount(faces, faces', list, list', ei, p, side0, side1, e, j);
    }
  }

  /** Node `n`'s edge list still agrees with the edges ending at it. */
  lemma NodeEdgesAt(nodes: seq<Node>, nodes': seq<Node>, pairs: seq<Pair>, ei: nat, p: EdgeFlip.Plan, n: nat)
    requires EdgeFlip.Separate(p, ei) && NodesMoved(nodes, nodes', ei, p)
    requires ei < |pairs| && pairs[ei] == SortedPair(p.old0, p.old1)
    requires n < |nodes| && multiset(nodes[n].edges) == multiset(IncidentEdges(pairs, n))
    ensures multiset(nodes'[n].edges) == multiset(IncidentEdges(pairs[ei := SortedPair(p.new0, p.new1)], n))
  {
    var pairs' := pairs[ei := SortedPair(p.new0, p.new1)];
    var list, list' := nodes[n].edges, nodes'[n].edges;
    forall j
      ensures multiset(list')[j] == multiset(IncidentEdges(pairs', n))[j]
    {
      NodeEdgeCount(pairs, list, list', ei, p, n, j);
    }
  }

  /** Node `n`'s face list still agrees with the faces having it as a corner. */
  lemma NodeFacesAt(nodes: seq<Node>, nodes': seq<Node>, faces: seq<Face>, faces': seq<Face>,
                    ei: nat, p: EdgeFlip.Plan, side0: nat, side1: nat, n: nat)
    requires Around(faces, ei, p, side0, side1) && Rewired(faces, faces', ei, p, side0, side1)
    requires EdgeFlip.Separate(p, ei) && NodesMoved(nodes, nodes', ei, p)
    requires n < |nodes| && multiset(nodes[n].faces) == multiset(IncidentFaces(faces, n))
    ensures multiset(nodes'[n].faces) == multiset(IncidentFaces(faces', n))
  {
    LayoutCounts(faces[p.face0], p.far0, p.new0, p.old0, p.old1, side0, ei, p.edge1, n);
    LayoutCounts(faces[p.face1], p.far1, p.new1, p.old1, p.old0, side1, ei, p.edge0, n);
    LayoutCounts(faces'[p.face0], p.far0, p.new0, p.old0, p.new1, side0, p.edge0, ei, n);
    LayoutCounts(faces'[p.face1], p.far1, p.new1, p.old1, p.new0, side1, p.edge1, ei, n);
    assert TwoReplaced(faces, faces', p.face0, p.face1);
    var list, list' := nodes[n].faces, nodes'[n].faces;
    NodeFaceList(faces, faces', list, list', ei, p, n);
  }

  /** The back-links of the flipped arrays agree with their faces. */
  lemma FlipKeepsLinks(nodes: seq<Node>, edges: seq<Edge>, faces: seq<Face>, ei: nat, p: EdgeFlip.Plan,
                       side0: nat, side1: nat)
    requires LinksAgree(nodes, edges, faces)
    requires Around(faces, ei, p, side0, side1) && EdgeFlip.Separate(p, ei) && SidesApart(p, ei, side0, side1)
    requires EdgeFlip.Fits(p, |nodes|, |edges|, |faces|)
    requires ei < |edges| && edges[ei].faces == [p.face0, p.face1]
    requires EdgeEnds(edges)[ei] == SortedPair(p.old0, p.old1)
    ensures LinksAgree(EdgeFlip.FlipNodes(nodes, ei, p.face0, p.face1, p), EdgeFlip.FlipEdges(edges, ei, p),
                       EdgeFlip.FlipFaces(faces, ei, p))
  {
    var pairs := EdgeEnds(edges);
    var nodes' := EdgeFlip.FlipNodes(nodes, ei, p.face0, p.face1, p);
    var edges' := EdgeFlip.FlipEdges(edges, ei, p);
    var faces' := EdgeFlip.FlipFaces(faces, ei, p);
    FlipEnds(edges, ei, p);
    FlipLayout(faces, ei, p, p.old1, p.old0, side0, side1);
    FlipNodesMoved(nodes, ei, p);
    FlipEdgesMoved(edges, ei, p);
    assert Rewired(faces, faces', ei, p, side0, side1);
    forall n | 0 <= n < |nodes'|
      ensures multiset(nodes'[n].edges) == multiset(IncidentEdges(EdgeEnds(edges'), n))
      ensures multiset(nodes'[n].faces) == multiset(IncidentFaces(faces', n))
    {
      NodeEdgesAt(nodes, nodes', pairs, ei, p, n);
      NodeFacesAt(nodes, nodes', faces, faces', ei, p, side0, side1, n);
    }
    forall e | 0 <= e < |edges'|
      ensures multiset(edges'[e].faces) == multiset(NamingFaces(faces', e))
    {
      EdgeLinksAt(edges, edges', faces, faces', ei, p, side0, side1, e);
    }
  }

  /**
   * An accepted flip of an opposed plan on a sound mesh touches separate
   * indices and leaves a sound mesh: proper edges, aligned faces, two face
   * slots per edge, and back-links that agree.
   */
  lemma FlipKeepsSound(nodes: seq<Node>, edges: seq<Edge>, faces: seq<Face>, ei: nat, p: EdgeFlip.Plan)
    requires Sound(nodes, edges, faces)
    requires EdgeFlip.PlanFlip(nodes, edges, faces, ei) == Some(p)
    requires Opposed(p)
    ensures EdgeFlip.Separate(p, ei)
    ensures var r := EdgeFlip.Flipped(nodes, edges, faces, ei, p);
      Sound(r.0, r.1, r.2)
  {
    var side0, side1 := OpposedIsSeparate(nodes, edges, faces, ei, p);
    FlipKeepsParts(nodes, edges, faces, ei, p, side0, side1);
  }

  /** The four parts of soundness, one lemma each, on the flipped arrays. */
  lemma FlipKeepsParts(nodes: seq<Node>, edges: seq<Edge>, faces: seq<Face>, ei: nat, p: EdgeFlip.Plan,
                       side0: nat, side1: nat)
    requires ProperEdges(|nodes|, EdgeEnds(edges)) && Aligned(EdgeEnds(edges), faces)
    requires Closed(EdgeEnds(edges), faces) && LinksAgree(nodes, edges, faces)
    requires Around(faces, ei, p, side0, side1) && EdgeFlip.Separate(p, ei) && SidesApart(p, ei, side0, side1)
    requires EdgeFlip.Fits(p, |nodes|, |edges|, |faces|)
    requires ei < |edges| && edges[ei].faces == [p.face0, p.face1]
    requires EdgeEnds(edges)[ei] == SortedPair(p.old0, p.old1)
    requires forall k :: 0 <= k < |faces| && k != p.face0 && k != p.face1 ==> Occurrences(faces[k].edges, ei) == 0
    ensures var r := EdgeFlip.Flipped(nodes, edges, faces, ei, p);
      Sound(r.0, r.1, r.2)
  {
    var pairs := EdgeEnds(edges);
    var pairs' := pairs[ei := SortedPair(p.new0, p.new1)];
    var r := EdgeFlip.Flipped(nodes, edges, faces, ei, p);
    assert r == (EdgeFlip.FlipNodes(nodes, ei, p.face0, p.face1, p), EdgeFlip.FlipEdges(edges, ei, p),
                 EdgeFlip.FlipFaces(faces, ei, p));
    FlipEnds(edges, ei, p);
    assert EdgeEnds(r.1) == pairs';
    FlipKeepsProper(|nodes|, pairs, ei, p.new0, p.new1);
    FlipKeepsClosed(pairs, faces, ei, p, side0, side1);
    FlipKeepsAligned(|nodes|, pairs, faces, ei, p, side0, side1);
    FlipKeepsLinks(nodes, edges, faces, ei, p, side0, side1);
  }

  /** Re-joining an edge to two different existing nodes keeps every edge proper. */
  lemma FlipKeepsProper(numNodes: nat, pairs: seq<Pair>, ei: nat, a: nat, b: nat)
    requires ProperEdges(numNodes, pairs) && ei < |pairs| && a != b && a < numNodes && b < numNodes
    ensures ProperEdges(numNodes, pairs[ei := SortedPair(a, b)])
  {
  }

  // ---------------------------------------------------------------------------
  // Flips one after another

  /** The arrays after the flip of edge `ei`, or `None` where the lookups fail or the flip is refused. */
  function FlipAt(nodes: seq<Node>, edges: seq<Edge>, faces: seq<Face>, ei: nat,
                  geometry: (Vertex, Vertex, Vertex, Vertex) -> bool): (r: Option<(seq<Node>, seq<Edge>, seq<Face>)>)
    ensures r.Some? <==> Flippable(nodes, edges, faces, ei, geometry)
    ensures r.Some? ==> |r.value.0| == |nodes| && |r.value.1| == |edges| && |r.value.2| == |faces|
  {
    if Flippable(nodes, edges, faces, ei, geometry)
    then Some(EdgeFlip.Flipped(nodes, edges, faces, ei, EdgeFlip.PlanFlip(nodes, edges, faces, ei).value))
    else None
  }

  /**
   * The arrays after flipping the edges of `order` one after another, each
   * on the arrays the previous flip left, or `None` once one of them is not
   * accepted.
   */
  function Flips(nodes: seq<Node>, edges: seq<Edge>, faces: seq<Face>, order: seq<nat>,
                 geometry: (Vertex, Vertex, Vertex, Vertex) -> bool): (r: Option<(seq<Node>, seq<Edge>, seq<Face>)>)
    ensures r.Some? ==> |r.value.0| == |nodes| && |r.value.1| == |edges| && |r.value.2| == |faces|
    ensures order == [] ==> r == Some((nodes, edges, faces))
    decreases |order|
  {
    if order == [] then Some((nodes, edges, faces))
    else
      match Flips(nodes, edges, faces, order[..|order| - 1], geometry)
      case None => None
      case Some(m) => FlipAt(m.0, m.1, m.2, order[|order| - 1], geometry)
  }

  /** One more accepted flip extends the chain. */
  lemma FlipsSnoc(nodes: seq<Node>, edges: seq<Edge>, faces: seq<Face>, order: seq<nat>, ei: nat,
                  geometry: (Vertex, Vertex, Vertex, Vertex) -> bool)
    requires Flips(nodes, edges, faces, order, geometry).Some?
    ensures var m := Flips(nodes, edges, faces, order, geometry).value;
      Flips(nodes, edges, faces, order + [ei], geometry) == FlipAt(m.0, m.1, m.2, ei, geometry)
  {
    assert (order + [ei])[..|order|] == order;
  }

  /** Every flip of the chain that is looked up has an opposed plan. */
  ghost predicate OpposedAlong(nodes: seq<Node>, edges: seq<Edge>, faces: seq<Face>, order: seq<nat>,
                               geometry: (Vertex, Vertex, Vertex, Vertex) -> bool)
    decreases |order|
  {
    order == [] ||
    (&& OpposedAlong(nodes, edges, faces, order[..|order| - 1], geometry)
     && match Flips(nodes, edges, faces, order[..|order| - 1], geometry)
        case None => true
        case Some(m) =>
          var plan := EdgeFlip.PlanFlip(m.0, m.1, m.2, order[|order| - 1]);
          plan.Some? ==> Opposed(plan.value))
  }

  /** A chain of accepted opposed flips from a sound mesh ends on a sound mesh. */
  lemma {:induction false} FlipsKeepSound(nodes: seq<Node>, edges: seq<Edge>, faces: seq<Face>, order: seq<nat>,
                                          geometry: (Vertex, Vertex, Vertex, Vertex) -> bool)
    requires Sound(nodes, edges, faces) && OpposedAlong(nodes, edges, faces, order, geometry)
    requires Flips(nodes, edges, faces, order, geometry).Some?
    ensures var m := Flips(nodes, edges, faces, order, geometry).value;
      Sound(m.0, m.1, m.2)
    decreases |order|
  {
    if order != [] {
      var prefix, ei := order[..|order| - 1], order[|order| - 1];
      FlipsKeepSound(nodes, edges, faces, prefix, geometry);
      var m := Flips(nodes, edges, faces, prefix, geometry).value;
      FlipKeepsSound(m.0, m.1, m.2, ei, EdgeFlip.PlanFlip(m.0, m.1, m.2, ei).value);
    }
  }

  /** On a sound mesh the lookups of a flip never panic. */
  lemma SoundNeverPanics(nodes: seq<Node>, edges: seq<Edge>, faces: seq<Face>, ei: nat)
    requires Sound(nodes, edges, faces) && ei < |edges|
    ensures EdgeFlip.PlanFlip(nodes, edges, faces, ei).Some?
  {
    var p, m0, m1, side0, side1 := PlanAround(nodes, edges, faces, ei);
  }

  /** The chain with one more flip is opposed when the chain is and the new flip's plan, if any, is. */
  lemma OpposedAlongSnoc(nodes: seq<Node>, edges: seq<Edge>, faces: seq<Face>, order: seq<nat>, ei: nat,
                         geometry: (Vertex, Vertex, Vertex, Vertex) -> bool)
    requires Flips(nodes, edges, faces, order, geometry).Some?
    ensures var m := Flips(nodes, edges, faces, order, geometry).value;
      var plan := EdgeFlip.PlanFlip(m.0, m.1, m.2, ei);
      OpposedAlong(nodes, edges, faces, order + [ei], geometry) <==>
      OpposedAlong(nodes, edges, faces, order, geometry) && (plan.Some? ==> Opposed(plan.value))
  {
    assert (order + [ei])[..|order|] == order;
  }
}
