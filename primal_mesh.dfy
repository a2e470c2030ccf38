/**
 * Facts about the generator's three record arrays taken together
 * (src/terrain/generator/mod.rs): how the edge records reduce to the
 * endpoint pairs the topology is stated on, what it means for the back-links
 * to be current, and the per-step pieces `subdivide` and `distort` are built
 * from.
 */
module PrimalMesh {
  import opened Outcomes
  import opened Pairs
  import opened MeshFace
  import opened MeshTopology
  import MeshLinks
  import Subdivision
  import TerrainNode
  import GeneratorEdge
  import EdgeFlip

  type Node = TerrainNode.Node
  type Edge = GeneratorEdge.Edge
  type Vertex = TerrainNode.Vertex

  /** The endpoint pair of every edge record, in edge order. */
  function EdgeEnds(edges: seq<Edge>): seq<Pair>
  {
    seq(|edges|, e requires 0 <= e < |edges| => (edges[e].a, edges[e].b))
  }

  /** `Edge::new` applied to every pair, as `subdivide` and `new` build their edge arrays. */
  function Unlinked(pairs: seq<Pair>): seq<Edge>
  {
    seq(|pairs|, e requires 0 <= e < |pairs| => GeneratorEdge.New(pairs[e].0, pairs[e].1))
  }

  /** Building records from sorted pairs and reading their ends back gives the pairs, with no faces yet. */
  lemma UnlinkedEnds(pairs: seq<Pair>)
    requires forall e :: 0 <= e < |pairs| ==> pairs[e].0 <= pairs[e].1
    ensures |Unlinked(pairs)| == |pairs|
    ensures EdgeEnds(Unlinked(pairs)) == pairs
    ensures forall e :: 0 <= e < |pairs| ==> Unlinked(pairs)[e].faces == []
  {
    var r := Unlinked(pairs);
    forall e | 0 <= e < |pairs|
      ensures EdgeEnds(r)[e] == pairs[e]
    {
      assert SortedPair(pairs[e].0, pairs[e].1) == pairs[e];
    }
  }

  /** Two edge arrays whose records agree on their ends give the same pairs. */
  lemma EndsKept(x: seq<Edge>, y: seq<Edge>)
    requires |x| == |y|
    requires forall e :: 0 <= e < |x| ==> x[e].a == y[e].a && x[e].b == y[e].b
    ensures EdgeEnds(x) == EdgeEnds(y)
  {
  }

  /**
   * The back-links are current: every node lists exactly its incident edges
   * and faces, and every edge exactly the faces naming it, each in index
   * order, as `assign_links_to_nodes` and `assign_links_to_edges` leave them.
   */
  ghost predicate LinksMatch(nodes: seq<Node>, edges: seq<Edge>, faces: seq<Face>)
  {
    && NodesLinked(nodes, EdgeEnds(edges), faces)
    && (forall e :: 0 <= e < |edges| ==> edges[e].faces == NamingFaces(faces, e))
  }

  /** The node half of the back-links: every node lists exactly its incident edges and faces, in index order. */
  ghost predicate NodesLinked(nodes: seq<Node>, pairs: seq<Pair>, faces: seq<Face>)
  {
    forall n :: 0 <= n < |nodes| ==> nodes[n].edges == IncidentEdges(pairs, n) && nodes[n].faces == IncidentFaces(faces, n)
  }

  /**
   * Fresh edge records for `pairs`, then every back-link of the nodes and
   * edges built from scratch (`assign_links_to_nodes`, `assign_links_to_edges`):
   * the nodes keep their positions and elevations and the links are current.
   */
  method LinkRecords(base: seq<Node>, pairs: seq<Pair>, faces: seq<Face>) returns (nodes: seq<Node>, edges: seq<Edge>)
    requires ProperEdges(|base|, pairs) && Aligned(pairs, faces)
    ensures |nodes| == |base| && |edges| == |pairs|
    ensures forall n :: 0 <= n < |base| ==> nodes[n].point == base[n].point && nodes[n].elevation == base[n].elevation
    ensures EdgeEnds(edges) == pairs
    ensures LinksMatch(nodes, edges, faces)
  {
    ShapeWithin(|base|, pairs, faces);
    UnlinkedEnds(pairs);
    nodes := MeshLinks.AssignLinksToNodes(base, pairs, faces);
    edges := MeshLinks.AssignLinksToEdges(Unlinked(pairs), faces);
    EndsKept(edges, Unlinked(pairs));
  }

  /** In a mesh of proper, aligned edges no index the link loops use falls outside its array. */
  lemma ShapeWithin(numNodes: nat, pairs: seq<Pair>, faces: seq<Face>)
    requires ProperEdges(numNodes, pairs) && Aligned(pairs, faces)
    ensures MeshLinks.EndsWithin(numNodes, pairs, faces)
    ensures MeshLinks.SlotsWithin(|pairs|, faces)
  {
    forall k | 0 <= k < |faces|
      ensures faces[k].points.x < numNodes && faces[k].points.y < numNodes && faces[k].points.z < numNodes
    {
      AlignedFaceDistinct(numNodes, pairs, faces[k]);
    }
  }

  /**
   * The test helpers' checks (src/terrain/generator/mod.rs:608-748): on a
   * mesh of the tested shape with current back-links, every node has five
   * or six edges and as many faces, and every edge has exactly two faces.
   */
  lemma LinkCounts(nodes: seq<Node>, edges: seq<Edge>, faces: seq<Face>)
    requires MeshShape(|nodes|, EdgeEnds(edges), faces)
    requires LinksMatch(nodes, edges, faces)
    ensures forall n :: 0 <= n < |nodes| ==> 5 <= |nodes[n].edges| <= 6 && 5 <= |nodes[n].faces| <= 6
    ensures forall e :: 0 <= e < |edges| ==> |edges[e].faces| == 2
  {
    NodeLinkCounts(nodes, EdgeEnds(edges), faces);
    forall e | 0 <= e < |edges|
      ensures |edges[e].faces| == 2
    {
      NamingFacesLength(faces, e);
    }
  }

  /** The node half of the same checks: with current node links, five or six edges and faces per node. */
  lemma NodeLinkCounts(nodes: seq<Node>, pairs: seq<Pair>, faces: seq<Face>)
    requires MeshShape(|nodes|, pairs, faces)
    requires NodesLinked(nodes, pairs, faces)
    ensures forall n :: 0 <= n < |nodes| ==> 5 <= |nodes[n].edges| <= 6 && 5 <= |nodes[n].faces| <= 6
  {
    forall n | 0 <= n < |nodes|
      ensures 5 <= |nodes[n].edges| <= 6 && 5 <= |nodes[n].faces| <= 6
    {
      IncidentEdgesLength(pairs, n);
      IncidentFacesLength(faces, n);
    }
  }

  /**
   * Current back-links on a mesh of proper edges are exact: edge `e` is in
   * node `n`'s list exactly when `n` is one of its ends, the list is
   * ascending, and likewise for faces wherever no face names a node or an
   * edge twice.
   */
  lemma LinksExact(nodes: seq<Node>, edges: seq<Edge>, faces: seq<Face>, n: nat)
    requires ProperEdges(|nodes|, EdgeEnds(edges)) && Aligned(EdgeEnds(edges), faces)
    requires LinksMatch(nodes, edges, faces)
    requires n < |nodes|
    ensures StrictlyIncreasing(nodes[n].edges) && StrictlyIncreasing(nodes[n].faces)
    ensures forall e :: e in nodes[n].edges <==> 0 <= e < |edges| && (edges[e].a == n || edges[e].b == n)
    ensures forall k :: k in nodes[n].faces <==> 0 <= k < |faces| && Occurrences(faces[k].points, n) == 1
  {
    var pairs := EdgeEnds(edges);
    IncidentEdgesExact(pairs, n);
    forall k | 0 <= k < |faces|
      ensures Occurrences(faces[k].points, n) <= 1
    {
      AlignedFaceDistinct(|nodes|, pairs, faces[k]);
    }
    IncidentFacesExact(faces, n);
  }

  /** The same for the face list of an edge: ascending, and exactly the faces with a slot naming it. */
  lemma EdgeLinksExact(nodes: seq<Node>, edges: seq<Edge>, faces: seq<Face>, e: nat)
    requires ProperEdges(|nodes|, EdgeEnds(edges)) && Aligned(EdgeEnds(edges), faces)
    requires LinksMatch(nodes, edges, faces)
    requires e < |edges|
    ensures StrictlyIncreasing(edges[e].faces)
    ensures forall k :: k in edges[e].faces <==> 0 <= k < |faces| && Occurrences(faces[k].edges, e) == 1
  {
    forall k | 0 <= k < |faces|
      ensures Occurrences(faces[k].edges, e) <= 1
    {
      AlignedFaceDistinct(|nodes|, EdgeEnds(edges), faces[k]);
    }
    NamingFacesExact(faces, e);
  }

  // ---------------------------------------------------------------------------
  // The new nodes of a subdivision

  /** `rand(max)` (lines 550-552): a draw from [0, 1) spread over [-max, max). */
  function Jitter(draw: real, max: real): (r: real)
    requires 0.0 <= draw < 1.0 && max >= 0.0
    ensures -max <= r
    ensures max > 0.0 ==> r < max
  {
    draw * 2.0 * max - max
  }

  /**
   * The node that splits the edge with ends `ends` (lines 199-209): at the
   * spherical midpoint of its ends, with their mean elevation moved by a
   * jitter scaled by `pow`.
   */
  function Midpoint(nodes: seq<Node>, ends: Pair, slerp: (Vertex, Vertex) -> Vertex, draw: real, pow: real): (m: Node)
    requires ends.0 < |nodes| && ends.1 < |nodes|
    requires 0.0 <= draw < 1.0
    ensures m.faces == [] && m.edges == []
    ensures pow >= 0.0 ==>
      (nodes[ends.1].elevation + nodes[ends.0].elevation) / 2.0 - 0.5 * pow <= m.elevation
      <= (nodes[ends.1].elevation + nodes[ends.0].elevation) / 2.0 + 0.5 * pow
  {
    var p0, p1 := nodes[ends.0], nodes[ends.1];
    var j := Jitter(draw, 0.5);
    assert pow >= 0.0 ==> -0.5 * pow <= j * pow <= 0.5 * pow by {
      if pow >= 0.0 {
        JitterScaled(j, pow);
      }
    }
    TerrainNode.New(slerp(p0.point, p1.point), (p1.elevation + p0.elevation) / 2.0 + j * pow)
  }

  /** A value in [-1/2, 1/2] scaled by a non-negative factor stays within half of it either way. */
  lemma JitterScaled(j: real, pow: real)
    requires -0.5 <= j <= 0.5 && pow >= 0.0
    ensures -0.5 * pow <= j * pow <= 0.5 * pow
  {
    assert (j + 0.5) * pow >= 0.0;
    assert (0.5 - j) * pow >= 0.0;
  }

  /** The draws for the new elevations: one per edge, each in [0, 1). */
  ghost predicate DrawsFit(draws: seq<real>, numEdges: nat)
  {
    |draws| == numEdges && forall e :: 0 <= e < |draws| ==> 0.0 <= draws[e] < 1.0
  }

  /**
   * What `subdivide` leaves, stated on endpoint pairs and shared by both
   * primal meshes: the old nodes keep their positions and elevations, node
   * `N + e` is the midpoint of old edge `e`, the edges are the split halves
   * followed by the inner edges, and the faces are the quarters.
   */
  ghost predicate SplitMesh(nodes: seq<Node>, pairs: seq<Pair>, faces: seq<Face>,
                            slerp: (Vertex, Vertex) -> Vertex, draws: seq<real>, pow: real,
                            nodes': seq<Node>, pairs': seq<Pair>, faces': seq<Face>)
    requires ProperEdges(|nodes|, pairs) && DrawsFit(draws, |pairs|)
  {
    && |nodes'| == |nodes| + |pairs|
    && (forall n :: 0 <= n < |nodes| ==> nodes'[n].point == nodes[n].point && nodes'[n].elevation == nodes[n].elevation)
    && (forall e :: 0 <= e < |pairs| ==>
          var m := Midpoint(nodes, pairs[e], slerp, draws[e], pow);
          nodes'[|nodes| + e].point == m.point && nodes'[|nodes| + e].elevation == m.elevation)
    && pairs' == Subdivision.SplitPairs(|nodes|, pairs) + Subdivision.InnerPairs(|nodes|, faces)
    && faces' == Subdivision.QuarterFaces(|nodes|, pairs, faces)
  }

  /**
   * Counts after a subdivision (src/terrain/generator/mod.rs:264-273 and
   * src/terrain/generator.rs:241-244): `2E + 3F` edges and `4F` faces,
   * still proper and aligned; the tested shape is kept; and with current
   * node links before and after, the old nodes keep their numbers of edges
   * and faces while the new ones have six of each.
   */
  lemma SplitCounts(nodes: seq<Node>, pairs: seq<Pair>, faces: seq<Face>,
                    nodes': seq<Node>, pairs': seq<Pair>, faces': seq<Face>)
    requires ProperEdges(|nodes|, pairs) && Aligned(pairs, faces)
    requires |nodes'| == |nodes| + |pairs|
    requires pairs' == Subdivision.SplitPairs(|nodes|, pairs) + Subdivision.InnerPairs(|nodes|, faces)
    requires faces' == Subdivision.QuarterFaces(|nodes|, pairs, faces)
    ensures |pairs'| == 2 * |pairs| + 3 * |faces| && |faces'| == 4 * |faces|
    ensures ProperEdges(|nodes'|, pairs') && Aligned(pairs', faces')
    ensures MeshShape(|nodes|, pairs, faces) ==> MeshShape(|nodes'|, pairs', faces')
    ensures MeshShape(|nodes|, pairs, faces) && NodesLinked(nodes, pairs, faces) && NodesLinked(nodes', pairs', faces') ==>
      && (forall n :: 0 <= n < |nodes| ==>
            |nodes'[n].edges| == |nodes[n].edges| && |nodes'[n].faces| == |nodes[n].faces|)
      && (forall n :: |nodes| <= n < |nodes'| ==> |nodes'[n].edges| == 6 && |nodes'[n].faces| == 6)
  {
    Subdivision.NewEdgesProper(|nodes|, pairs, faces);
    Subdivision.NewFacesAligned(|nodes|, pairs, faces);
    if MeshShape(|nodes|, pairs, faces) {
      Subdivision.SubdivisionKeepsShape(|nodes|, pairs, faces);
      if NodesLinked(nodes, pairs, faces) && NodesLinked(nodes', pairs', faces') {
        forall n | 0 <= n < |nodes'|
          ensures n < |nodes| ==>
            |nodes'[n].edges| == |nodes[n].edges| && |nodes'[n].faces| == |nodes[n].faces|
          ensures n >= |nodes| ==> |nodes'[n].edges| == 6 && |nodes'[n].faces| == 6
        {
          IncidentEdgesLength(pairs', n);
          IncidentFacesLength(faces', n);
          if n < |nodes| {
            IncidentEdgesLength(pairs, n);
            IncidentFacesLength(faces, n);
          }
        }
      }
    }
  }

  /**
   * The index work both primal meshes share in `subdivide`: push the
   * midpoint nodes, then split the edges and faces.  The new nodes carry no
   * links yet.
   */
  method SplitRecords(nodes: seq<Node>, pairs: seq<Pair>, faces: seq<Face>,
                      slerp: (Vertex, Vertex) -> Vertex, draws: seq<real>, pow: real)
    returns (grown: seq<Node>, pairs': seq<Pair>, faces': seq<Face>)
    requires ProperEdges(|nodes|, pairs) && Aligned(pairs, faces)
    requires DrawsFit(draws, |pairs|)
    ensures SplitMesh(nodes, pairs, faces, slerp, draws, pow, grown, pairs', faces')
  {
    grown := PushMidpoints(nodes, pairs, slerp, draws, pow);
    pairs', faces' := Subdivision.SubdivideMesh(|nodes|, pairs, faces);
    forall n | 0 <= n < |nodes|
      ensures grown[n].point == nodes[n].point && grown[n].elevation == nodes[n].elevation
    {
      assert grown[n] == grown[..|nodes|][n];
    }
  }

  /** Rebuilding the links of the split nodes, which keeps their positions and elevations, keeps the split. */
  lemma SplitRelinked(nodes: seq<Node>, pairs: seq<Pair>, faces: seq<Face>,
                      slerp: (Vertex, Vertex) -> Vertex, draws: seq<real>, pow: real,
                      grown: seq<Node>, nodes': seq<Node>, pairs': seq<Pair>, faces': seq<Face>)
    requires ProperEdges(|nodes|, pairs) && DrawsFit(draws, |pairs|)
    requires SplitMesh(nodes, pairs, faces, slerp, draws, pow, grown, pairs', faces')
    requires |nodes'| == |grown|
    requires forall n :: 0 <= n < |grown| ==> nodes'[n].point == grown[n].point && nodes'[n].elevation == grown[n].elevation
    ensures SplitMesh(nodes, pairs, faces, slerp, draws, pow, nodes', pairs', faces')
  {
  }

  /** The pushes of lines 197-209: one new node per edge, in edge order, after the existing ones. */
  method PushMidpoints(nodes: seq<Node>, pairs: seq<Pair>, slerp: (Vertex, Vertex) -> Vertex, draws: seq<real>, pow: real)
    returns (r: seq<Node>)
    requires ProperEdges(|nodes|, pairs)
    requires |draws| == |pairs| && forall e :: 0 <= e < |draws| ==> 0.0 <= draws[e] < 1.0
    ensures |r| == |nodes| + |pairs|
    ensures r[..|nodes|] == nodes
    ensures forall e :: 0 <= e < |pairs| ==> r[|nodes| + e] == Midpoint(nodes, pairs[e], slerp, draws[e], pow)
  {
    r := nodes;
    var i := 0;
    while i < |pairs|
      invariant 0 <= i <= |pairs|
      invariant |r| == |nodes| + i
      invariant r[..|nodes|] == nodes
      invariant forall e :: 0 <= e < i ==> r[|nodes| + e] == Midpoint(nodes, pairs[e], slerp, draws[e], pow)
    {
      r := r + [Midpoint(nodes, pairs[i], slerp, draws[i], pow)];
      i := i + 1;
    }
  }

  // ---------------------------------------------------------------------------
  // Rotations

  /** Edge `ei` can be looked up without a panic and `rotation_predicate` accepts its flip. */
  predicate Flippable(nodes: seq<Node>, edges: seq<Edge>, faces: seq<Face>, ei: nat,
                      geometry: (Vertex, Vertex, Vertex, Vertex) -> bool)
  {
    var plan := EdgeFlip.PlanFlip(nodes, edges, faces, ei);
    && plan.Some?
    && var p := plan.value;
       EdgeFlip.Accepts(nodes[p.old0], nodes[p.old1], nodes[p.new0], nodes[p.new1], geometry)
  }

  /** Edge `ei` can be looked up without a panic but its flip is refused. */
  predicate Refused(nodes: seq<Node>, edges: seq<Edge>, faces: seq<Face>, ei: nat,
                    geometry: (Vertex, Vertex, Vertex, Vertex) -> bool)
  {
    EdgeFlip.PlanFlip(nodes, edges, faces, ei).Some? && !Flippable(nodes, edges, faces, ei, geometry)
  }

  /** One probe step of `distort`: the index after `(s + k) % m` wraps to `(s + k + 1) % m`. */
  lemma ProbeStep(s: nat, k: nat, m: nat)
    requires m > 0
    ensures ((s + k) % m + 1) % m == (s + k + 1) % m
  {
    var q, r := (s + k) / m, (s + k) % m;
    if r + 1 < m {
      DivModUnique(s + k + 1, m, q, r + 1);
      DivModUnique(r + 1, m, 0, r + 1);
    } else {
      DivModUnique(s + k + 1, m, q + 1, 0);
      DivModUnique(r + 1, m, 1, 0);
    }
  }

  /**
   * `m` consecutive probes from any start reach every index below `m`: index
   * `e` is probe number `e - s mod m`, taken modulo `m`.
   */
  lemma ProbesCover(s: nat, m: nat, e: nat) returns (k: nat)
    requires m > 0 && e < m
    ensures k < m && (s + k) % m == e
  {
    var q, r := s / m, s % m;
    k := if r <= e then e - r else e + m - r;
    DivModUnique(s + k, m, if r <= e then q else q + 1, e);
  }

  /** Division with remainder has one answer. */
  lemma DivModUnique(x: int, m: int, q: int, r: int)
    requires m > 0 && 0 <= r < m && x == q * m + r
    ensures x / m == q && x % m == r
  {
    var q0, r0 := x / m, x % m;
    assert (q - q0) * m == r0 - r;
    if q > q0 {
      MulAtLeast(q - q0, m);
      assert false;
    } else if q < q0 {
      MulAtLeast(q0 - q, m);
      assert false;
    }
  }

  /** A positive multiple of `m` is at least `m`. */
  lemma MulAtLeast(a: int, m: int)
    requires a >= 1 && m > 0
    ensures a * m >= m
  {
    assert a * m == (a - 1) * m + m;
  }

  // ---------------------------------------------------------------------------
  // The dual mesh

  /** A vertex of the dual mesh: the centre of a primal face, or the centre of a tile, the mean of its ring's face centres. */
  datatype DualVertex = FaceCentre(face: nat) | TileCentre(ring: seq<nat>)

  /** What `to_planet` ends with: the arguments of `Planet::new`, a panic, or a walk that never ends. */
  datatype Dual = Dual(vertices: seq<DualVertex>, rings: seq<seq<nat>>) | Panics | Hangs
}
