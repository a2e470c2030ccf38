/**
 * The generator's state-changing operations worked out on the three record
 * arrays as values (src/terrain/generator/mod.rs:185-281, 313-383): the
 * class `TerrainGenerator.Generator` runs these and stores what they return.
 * Each operation's outcome is one predicate relating the arrays before and
 * after, so that callers reason about a single fact.
 */
module GeneratorSteps {
  import opened Outcomes
  import opened Pairs
  import opened MeshFace
  import opened MeshTopology
  import opened PrimalMesh
  import MeshLinks
  import IcosahedronTable
  import Subdivision
  import EdgeFlip
  import TerrainNode
  import GeneratorEdge

  // ---------------------------------------------------------------------------
  // Construction

  /**
   * The records `Generator::new` builds (lines 28-114): the icosahedron's
   * twelve nodes with their halved elevation draws, its thirty edges and
   * twenty faces, and every back-link.
   */
  method InitialRecords(du: real, dv: real, draws: seq<real>)
    returns (nodes: seq<Node>, edges: seq<Edge>, faces: seq<Face>)
    requires |draws| == 12 && forall i :: 0 <= i < 12 ==> 0.0 <= draws[i] < 1.0
    ensures |nodes| == 12 && |edges| == 30 && |faces| == 20
    ensures forall n :: 0 <= n < 12 ==>
      nodes[n].point == IcosahedronTable.Points(du, dv)[n] && nodes[n].elevation == draws[n] * 0.5
      && 0.0 <= nodes[n].elevation < 0.5
    ensures EdgeEnds(edges) == IcosahedronTable.EdgePairs() && faces == IcosahedronTable.Faces()
    ensures LinksMatch(nodes, edges, faces) && MeshShape(|nodes|, EdgeEnds(edges), faces)
    ensures forall n :: 0 <= n < 12 ==> |nodes[n].edges| == 5 && |nodes[n].faces| == 5
    ensures forall e :: 0 <= e < 30 ==> |edges[e].faces| == 2
  {
    var points := IcosahedronTable.Points(du, dv);
    var pairs := IcosahedronTable.EdgePairs();
    faces := IcosahedronTable.Faces();
    IcosahedronTable.TableShape();
    var initial := seq(12, i requires 0 <= i < 12 => TerrainNode.New(points[i], draws[i] * 0.5));
    nodes, edges := LinkRecords(initial, pairs, faces);
    LinkCounts(nodes, edges, faces);
    forall n | 0 <= n < 12
      ensures |nodes[n].edges| == 5 && |nodes[n].faces| == 5
    {
      IncidentEdgesLength(pairs, n);
      IncidentFacesLength(faces, n);
    }
  }

  // ---------------------------------------------------------------------------
  // Subdivision

  /**
   * The arrays `subdivide` leaves: the nodes, edge ends and faces split as
   * `SplitMesh` says, and every back-link current.
   */
  ghost predicate Subdivided(nodes: seq<Node>, edges: seq<Edge>, faces: seq<Face>,
                             slerp: (Vertex, Vertex) -> Vertex, draws: seq<real>, pow: real,
                             nodes': seq<Node>, edges': seq<Edge>, faces': seq<Face>)
    requires ProperEdges(|nodes|, EdgeEnds(edges)) && DrawsFit(draws, |edges|)
  {
    && SplitMesh(nodes, EdgeEnds(edges), faces, slerp, draws, pow, nodes', EdgeEnds(edges'), faces')
    && LinksMatch(nodes', edges', faces')
  }

  /**
   * The index work of `subdivide`: push the midpoint nodes, split the edges
   * and faces, then rebuild the node and edge back-links on the new arrays.
   */
  method SubdivideRecords(nodes: seq<Node>, edges: seq<Edge>, faces: seq<Face>,
                          slerp: (Vertex, Vertex) -> Vertex, draws: seq<real>, pow: real)
    returns (nodes': seq<Node>, edges': seq<Edge>, faces': seq<Face>)
    requires ProperEdges(|nodes|, EdgeEnds(edges)) && Aligned(EdgeEnds(edges), faces)
    requires DrawsFit(draws, |edges|)
    ensures Subdivided(nodes, edges, faces, slerp, draws, pow, nodes', edges', faces')
    ensures |nodes'| == |nodes| + |edges|
    ensures |edges'| == 2 * |edges| + 3 * |faces| && |faces'| == 4 * |faces|
    ensures ProperEdges(|nodes'|, EdgeEnds(edges')) && Aligned(EdgeEnds(edges'), faces')
    ensures MeshShape(|nodes|, EdgeEnds(edges), faces) ==> MeshShape(|nodes'|, EdgeEnds(edges'), faces')
    ensures MeshShape(|nodes|, EdgeEnds(edges), faces) && LinksMatch(nodes, edges, faces) ==>
      && (forall n :: 0 <= n < |nodes| ==>
            |nodes'[n].edges| == |nodes[n].edges| && |nodes'[n].faces| == |nodes[n].faces|)
      && (forall n :: |nodes| <= n < |nodes'| ==> |nodes'[n].edges| == 6 && |nodes'[n].faces| == 6)
      && (forall e :: 0 <= e < |edges'| ==> |edges'[e].faces| == 2)
  {
    var pairs := EdgeEnds(edges);
    var grown, pairs', quarters := SplitRecords(nodes, pairs, faces, slerp, draws, pow);
    SplitCounts(nodes, pairs, faces, grown, pairs', quarters);
    nodes', edges' := LinkRecords(grown, pairs', quarters);
    faces' := quarters;
    SplitRelinked(nodes, pairs, faces, slerp, draws, pow, grown, nodes', pairs', faces');
    SubdivisionCounts(nodes, edges, faces, nodes', edges', faces');
  }

  /**
   * Counts after `subdivide` (lines 264-273, checked by the tests at
   * 581-606): `2E + 3F` edges and `4F` faces, still proper and aligned; the
   * tested shape is kept; with current links before, the old nodes keep
   * their numbers of edges and faces, the new ones have six of each, and
   * every edge has two faces.
   */
  lemma SubdivisionCounts(nodes: seq<Node>, edges: seq<Edge>, faces: seq<Face>,
                          nodes': seq<Node>, edges': seq<Edge>, faces': seq<Face>)
    requires ProperEdges(|nodes|, EdgeEnds(edges)) && Aligned(EdgeEnds(edges), faces)
    requires |nodes'| == |nodes| + |edges|
    requires EdgeEnds(edges') == Subdivision.SplitPairs(|nodes|, EdgeEnds(edges)) + Subdivision.InnerPairs(|nodes|, faces)
    requires faces' == Subdivision.QuarterFaces(|nodes|, EdgeEnds(edges), faces)
    requires LinksMatch(nodes', edges', faces')
    ensures |edges'| == 2 * |edges| + 3 * |faces| && |faces'| == 4 * |faces|
    ensures ProperEdges(|nodes'|, EdgeEnds(edges')) && Aligned(EdgeEnds(edges'), faces')
    ensures MeshShape(|nodes|, EdgeEnds(edges), faces) ==> MeshShape(|nodes'|, EdgeEnds(edges'), faces')
    ensures MeshShape(|nodes|, EdgeEnds(edges), faces) && LinksMatch(nodes, edges, faces) ==>
      && (forall n :: 0 <= n < |nodes| ==>
            |nodes'[n].edges| == |nodes[n].edges| && |nodes'[n].faces| == |nodes[n].faces|)
      && (forall n :: |nodes| <= n < |nodes'| ==> |nodes'[n].edges| == 6 && |nodes'[n].faces| == 6)
      && (forall e :: 0 <= e < |edges'| ==> |edges'[e].faces| == 2)
  {
    SplitCounts(nodes, EdgeEnds(edges), faces, nodes', EdgeEnds(edges'), faces');
    if MeshShape(|nodes|, EdgeEnds(edges), faces) {
      LinkCounts(nodes', edges', faces');
    }
  }

  // ---------------------------------------------------------------------------
  // Rotation

  /**
   * What `conditional_rotate_edge` does to the arrays: it panics exactly when
   * a lookup fails, reports `true` exactly when the flip is accepted, leaves
   * everything as it was otherwise, and on `true` leaves the flipped arrays.
   */
  ghost predicate Rotation(nodes: seq<Node>, edges: seq<Edge>, faces: seq<Face>, ei: nat,
                           geometry: (Vertex, Vertex, Vertex, Vertex) -> bool, r: Outcome<bool>,
                           nodes': seq<Node>, edges': seq<Edge>, faces': seq<Face>)
  {
    var plan := EdgeFlip.PlanFlip(nodes, edges, faces, ei);
    && (r.Panic? <==> plan.None?)
    && (r == Done(true) <==> Flippable(nodes, edges, faces, ei, geometry))
    && (r != Done(true) ==> nodes' == nodes && edges' == edges && faces' == faces)
    && (r == Done(true) ==> plan.Some? && (nodes', edges', faces') == EdgeFlip.Flipped(nodes, edges, faces, ei, plan.value))
  }

  /** A rotation never changes how many nodes, edges and faces there are. */
  lemma RotationKeepsCounts(nodes: seq<Node>, edges: seq<Edge>, faces: seq<Face>, ei: nat,
                            geometry: (Vertex, Vertex, Vertex, Vertex) -> bool, r: Outcome<bool>,
                            nodes': seq<Node>, edges': seq<Edge>, faces': seq<Face>)
    requires Rotation(nodes, edges, faces, ei, geometry, r, nodes', edges', faces')
    ensures |nodes'| == |nodes| && |edges'| == |edges| && |faces'| == |faces|
    ensures r == Done(false) ==> Refused(nodes', edges', faces', ei, geometry)
  {
  }

  /**
   * Lines 313-383 on the arrays: look everything up first, panic where a
   * lookup fails, refuse unless the flip is accepted, then write the nodes,
   * the side edges, the faces and the edge itself, in the source's order.
   */
  method RotateRecords(nodes: seq<Node>, edges: seq<Edge>, faces: seq<Face>, ei: nat,
                       geometry: (Vertex, Vertex, Vertex, Vertex) -> bool)
    returns (r: Outcome<bool>, nodes': seq<Node>, edges': seq<Edge>, faces': seq<Face>)
    ensures Rotation(nodes, edges, faces, ei, geometry, r, nodes', edges', faces')
  {
    nodes', edges', faces' := nodes, edges, faces;
    var plan := EdgeFlip.PlanFlip(nodes, edges, faces, ei);
    if plan.None? {
      return Panic, nodes', edges', faces';
    }
    var p := plan.value;
    var oldNode0, oldNode1 := nodes[p.old0], nodes[p.old1];
    var newNode0, newNode1 := nodes[p.new0], nodes[p.new1];
    if !EdgeFlip.Accepts(oldNode0, oldNode1, newNode0, newNode1, geometry) {
      return Done(false), nodes', edges', faces';
    }
    var edge := edges[ei];
    var fA, fB := edge.faces[0], edge.faces[1];
    nodes' := RotateNodes(nodes, ei, fA, fB, p);
    edges' := RotateEdges(edges, ei, p);
    faces' := RotateFaces(faces, ei, p);
    return Done(true), nodes', edges', faces';
  }

  /** Lines 338-354: retain and push on copies of the four corner records, then store them back in order. */
  method RotateNodes(nodes: seq<Node>, ei: nat, fA: nat, fB: nat, p: EdgeFlip.Plan) returns (r: seq<Node>)
    requires p.new0 < |nodes| && p.old0 < |nodes| && p.new1 < |nodes| && p.old1 < |nodes|
    ensures r == EdgeFlip.FlipNodes(nodes, ei, fA, fB, p)
  {
    var oldNode0, oldNode1 := nodes[p.old0], nodes[p.old1];
    var newNode0, newNode1 := nodes[p.new0], nodes[p.new1];
    oldNode0 := oldNode0.(edges := EdgeFlip.Retain(oldNode0.edges, ei));
    oldNode1 := oldNode1.(edges := EdgeFlip.Retain(oldNode1.edges, ei));
    oldNode0 := oldNode0.(faces := EdgeFlip.Retain(oldNode0.faces, fB));
    oldNode1 := oldNode1.(faces := EdgeFlip.Retain(oldNode1.faces, fA));
    r := nodes;
    r := r[p.old0 := oldNode0];
    r := r[p.old1 := oldNode1];
    newNode0 := newNode0.AddEdge(ei);
    newNode1 := newNode1.AddEdge(ei);
    newNode0 := newNode0.AddFace(fB);
    newNode1 := newNode1.AddFace(fA);
    r := r[p.new0 := newNode0];
    r := r[p.new1 := newNode1];
  }

  /** Lines 356-362 and 376-380: the side edges trade faces, then the edge takes the far corners as its ends. */
  method RotateEdges(edges: seq<Edge>, ei: nat, p: EdgeFlip.Plan) returns (r: seq<Edge>)
    requires ei < |edges| && |edges[ei].faces| >= 2 && p.edge0 < |edges| && p.edge1 < |edges|
    ensures r == EdgeFlip.FlipEdges(edges, ei, p)
  {
    var edge := edges[ei];
    var sideEdge0, sideEdge1 := edges[p.edge0], edges[p.edge1];
    sideEdge0 := sideEdge0.(faces := EdgeFlip.Retain(sideEdge0.faces, edge.faces[1]));
    sideEdge1 := sideEdge1.(faces := EdgeFlip.Retain(sideEdge1.faces, edge.faces[0]));
    sideEdge0 := sideEdge0.AddFace(edge.faces[0]);
    sideEdge1 := sideEdge1.AddFace(edge.faces[1]);
    r := edges;
    r := r[p.edge0 := sideEdge0];
    r := r[p.edge1 := sideEdge1];
    var joined := GeneratorEdge.New(p.new0, p.new1);
    edge := edge.(a := joined.a, b := joined.b);
    r := r[ei := edge];
  }

  /** Lines 364-374: slot writes on copies of the two faces, then both are stored back. */
  method RotateFaces(faces: seq<Face>, ei: nat, p: EdgeFlip.Plan) returns (r: seq<Face>)
    requires p.face0 < |faces| && p.face1 < |faces|
    ensures r == EdgeFlip.FlipFaces(faces, ei, p)
  {
    var face0, face1 := faces[p.face0], faces[p.face1];
    face0 := face0.(points := With(face0.points, p.far0 + 2, p.new1));
    face1 := face1.(points := With(face1.points, p.far1 + 2, p.new0));
    face0 := face0.(edges := With(face0.edges, p.far0 + 1, p.edge0));
    face1 := face1.(edges := With(face1.edges, p.far1 + 1, p.edge1));
    face0 := face0.(edges := With(face0.edges, p.far0 + 2, ei));
    face1 := face1.(edges := With(face1.edges, p.far1 + 2, ei));
    r := faces;
    r := r[p.face0 := face0];
    r := r[p.face1 := face1];
  }

  // ---------------------------------------------------------------------------
  // The probe loop of `distort`

  /** Probe number `k` of a round starting at `s` over `m` edges. */
  function Probe(s: nat, k: nat, m: nat): (e: nat)
    requires m > 0
    ensures e < m
  {
    (s + k) % m
  }

  /** The first `attempts` probes from `s` were all refused on these arrays. */
  ghost predicate ProbedInVain(nodes: seq<Node>, edges: seq<Edge>, faces: seq<Face>, s: nat, attempts: nat,
                               geometry: (Vertex, Vertex, Vertex, Vertex) -> bool)
    requires |edges| > 0
  {
    forall k :: 0 <= k < attempts ==> Refused(nodes, edges, faces, Probe(s, k, |edges|), geometry)
  }

  /** A round that probed as many times as there are edges was refused on every edge. */
  lemma VainRoundRefusesAll(nodes: seq<Node>, edges: seq<Edge>, faces: seq<Face>, s: nat,
                            geometry: (Vertex, Vertex, Vertex, Vertex) -> bool)
    requires |edges| > 0
    requires ProbedInVain(nodes, edges, faces, s, |edges|, geometry)
    ensures forall e :: 0 <= e < |edges| ==> Refused(nodes, edges, faces, e, geometry)
  {
    forall e | 0 <= e < |edges|
      ensures Refused(nodes, edges, faces, e, geometry)
    {
      var k := ProbesCover(s, |edges|, e);
      assert Probe(s, k, |edges|) == e;
    }
  }

  /** Refusing the current probe extends a vain run by one. */
  lemma ProbeRefused(nodes: seq<Node>, edges: seq<Edge>, faces: seq<Face>, s: nat, attempts: nat,
                     geometry: (Vertex, Vertex, Vertex, Vertex) -> bool)
    requires |edges| > 0
    requires ProbedInVain(nodes, edges, faces, s, attempts, geometry)
    requires Refused(nodes, edges, faces, Probe(s, attempts, |edges|), geometry)
    ensures ProbedInVain(nodes, edges, faces, s, attempts + 1, geometry)
  {
  }

  /** The index after a probe, wrapping, is the next probe. */
  lemma NextProbe(s: nat, k: nat, m: nat)
    requires m > 0
    ensures (Probe(s, k, m) + 1) % m == Probe(s, k + 1, m)
  {
    ProbeStep(s, k, m);
  }
}
