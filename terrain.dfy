/**
 * The earlier primal mesh (`Terrain`, src/terrain/generator.rs): the same
 * icosahedron and the same 1-to-4 subdivision as the generator, but its
 * edges carry no face lists, only the node back-links are ever rebuilt, and
 * edge rotation is a stub that never rotates.
 */
module TerrainMesh {
  import opened Outcomes
  import opened Pairs
  import opened MeshFace
  import opened MeshTopology
  import PrimalMesh
  import MeshLinks
  import IcosahedronTable
  import Subdivision
  import TerrainNode
  import TerrainEdge

  type Node = TerrainNode.Node
  type Edge = TerrainEdge.Edge
  type Vertex = TerrainNode.Vertex

  /** The endpoints of every edge record, the form in which the mesh topology is stated. */
  function Ends(edges: seq<Edge>): (r: seq<Pair>)
    ensures |r| == |edges|
  {
    seq(|edges|, e requires 0 <= e < |edges| => (edges[e].a, edges[e].b))
  }

  /** One `Edge::new` per pair, in order. */
  function Records(pairs: seq<Pair>): (r: seq<Edge>)
    ensures |r| == |pairs|
  {
    seq(|pairs|, e requires 0 <= e < |pairs| => TerrainEdge.New(pairs[e].0, pairs[e].1))
  }

  /** Records built from ascending pairs give back exactly those pairs. */
  lemma RecordsEnds(pairs: seq<Pair>)
    requires forall e :: 0 <= e < |pairs| ==> pairs[e].0 <= pairs[e].1
    ensures Ends(Records(pairs)) == pairs
  {
    var r := Records(pairs);
    forall e | 0 <= e < |pairs|
      ensures Ends(r)[e] == pairs[e]
    {
      assert r[e] == TerrainEdge.New(pairs[e].0, pairs[e].1);
    }
  }

  /**
   * Fresh edge records for `pairs` and the node back-links rebuilt from
   * scratch (`assign_links_to_nodes`): positions and elevations kept, each
   * node listing as many edges and faces as it has.
   */
  method Relink(initial: seq<Node>, pairs: seq<Pair>, faces: seq<Face>)
    returns (nodes: seq<Node>, edges: seq<Edge>)
    requires ProperEdges(|initial|, pairs) && Aligned(pairs, faces)
    ensures |nodes| == |initial| && Ends(edges) == pairs
    ensures forall n :: 0 <= n < |nodes| ==>
      nodes[n].point == initial[n].point && nodes[n].elevation == initial[n].elevation
    ensures PrimalMesh.NodesLinked(nodes, pairs, faces)
    ensures forall n :: 0 <= n < |nodes| ==>
      |nodes[n].edges| == EdgeDegree(pairs, n) && |nodes[n].faces| == FaceDegree(faces, n)
  {
    PrimalMesh.ShapeWithin(|initial|, pairs, faces);
    nodes := MeshLinks.AssignLinksToNodes(initial, pairs, faces);
    edges := Records(pairs);
    RecordsEnds(pairs);
    forall n | 0 <= n < |nodes|
      ensures |nodes[n].edges| == EdgeDegree(pairs, n) && |nodes[n].faces| == FaceDegree(faces, n)
    {
      IncidentEdgesLength(pairs, n);
      IncidentFacesLength(faces, n);
    }
  }

  /**
   * The records `Terrain::new` builds (lines 18-103): the icosahedron's
   * twelve nodes with their halved elevation draws, its thirty edges and
   * twenty faces, and the node back-links.
   */
  method InitialRecords(du: real, dv: real, draws: seq<real>)
    returns (nodes: seq<Node>, edges: seq<Edge>, faces: seq<Face>)
    requires |draws| == 12 && forall i :: 0 <= i < 12 ==> 0.0 <= draws[i] < 1.0
    ensures |nodes| == 12 && |edges| == 30 && |faces| == 20
    ensures forall n :: 0 <= n < 12 ==>
      nodes[n].point == IcosahedronTable.Points(du, dv)[n] && nodes[n].elevation == draws[n] * 0.5
    ensures Ends(edges) == IcosahedronTable.EdgePairs() && faces == IcosahedronTable.Faces()
    ensures PrimalMesh.NodesLinked(nodes, Ends(edges), faces) && MeshShape(|nodes|, Ends(edges), faces)
    ensures forall n :: 0 <= n < 12 ==> |nodes[n].edges| == 5 && |nodes[n].faces| == 5
  {
    var points := IcosahedronTable.Points(du, dv);
    faces := IcosahedronTable.Faces();
    IcosahedronTable.TableShape();
    var initial := seq(12, i requires 0 <= i < 12 => TerrainNode.New(points[i], draws[i] * 0.5));
    nodes, edges := Relink(initial, IcosahedronTable.EdgePairs(), faces);
    forall n | 0 <= n < 12
      ensures nodes[n].point == points[n] && nodes[n].elevation == draws[n] * 0.5
    {
      assert initial[n] == TerrainNode.New(points[n], draws[n] * 0.5);
    }
  }

  /** The arrays the terrain's `subdivide` leaves: split as `SplitMesh` says, with current node links. */
  ghost predicate Subdivided(nodes: seq<Node>, edges: seq<Edge>, faces: seq<Face>,
                             slerp: (Vertex, Vertex) -> Vertex, draws: seq<real>, pow: real,
                             nodes': seq<Node>, edges': seq<Edge>, faces': seq<Face>)
    requires ProperEdges(|nodes|, Ends(edges)) && PrimalMesh.DrawsFit(draws, |edges|)
  {
    && PrimalMesh.SplitMesh(nodes, Ends(edges), faces, slerp, draws, pow, nodes', Ends(edges'), faces')
    && PrimalMesh.NodesLinked(nodes', Ends(edges'), faces')
  }

  /**
   * The index work of the terrain's `subdivide` (lines 154-244): the same
   * split as the generator's, then fresh edge records and the node
   * back-links only (line 241).
   */
  method SubdivideRecords(nodes: seq<Node>, edges: seq<Edge>, faces: seq<Face>,
                          slerp: (Vertex, Vertex) -> Vertex, draws: seq<real>, pow: real)
    returns (nodes': seq<Node>, edges': seq<Edge>, faces': seq<Face>)
    requires ProperEdges(|nodes|, Ends(edges)) && Aligned(Ends(edges), faces)
    requires PrimalMesh.DrawsFit(draws, |edges|)
    ensures Subdivided(nodes, edges, faces, slerp, draws, pow, nodes', edges', faces')
    ensures |nodes'| == |nodes| + |edges|
    ensures |edges'| == 2 * |edges| + 3 * |faces| && |faces'| == 4 * |faces|
    ensures ProperEdges(|nodes'|, Ends(edges')) && Aligned(Ends(edges'), faces')
    ensures MeshShape(|nodes|, Ends(edges), faces) ==> MeshShape(|nodes'|, Ends(edges'), faces')
    ensures MeshShape(|nodes|, Ends(edges), faces) && PrimalMesh.NodesLinked(nodes, Ends(edges), faces) ==>
      && (forall n :: 0 <= n < |nodes| ==>
            |nodes'[n].edges| == |nodes[n].edges| && |nodes'[n].faces| == |nodes[n].faces|)
      && (forall n :: |nodes| <= n < |nodes'| ==> |nodes'[n].edges| == 6 && |nodes'[n].faces| == 6)
  {
    var pairs := Ends(edges);
    var grown, pairs', quarters := PrimalMesh.SplitRecords(nodes, pairs, faces, slerp, draws, pow);
    PrimalMesh.SplitCounts(nodes, pairs, faces, grown, pairs', quarters);
    nodes', edges' := Relink(grown, pairs', quarters);
    faces' := quarters;
    PrimalMesh.SplitRelinked(nodes, pairs, faces, slerp, draws, pow, grown, nodes', pairs', faces');
    PrimalMesh.SplitCounts(nodes, pairs, faces, nodes', pairs', faces');
  }

  class Terrain {
    var nodes: seq<Node>
    var edges: seq<Edge>
    var faces: seq<Face>
    var rndPow: real
    var level: nat

    /** Every node lists exactly its incident edges and faces. */
    ghost predicate Linked()
      reads this
    {
      PrimalMesh.NodesLinked(nodes, Ends(edges), faces)
    }

    /** The shape the tests check: proper edges, aligned faces, two faces per edge, degrees 5 to 6. */
    ghost predicate Shaped()
      reads this
    {
      MeshShape(|nodes|, Ends(edges), faces)
    }

    /**
     * `Terrain::new` (lines 18-103): the icosahedron with one elevation draw
     * per node, halved; node back-links built; jitter scale 3, level 0.
     */
    constructor (du: real, dv: real, draws: seq<real>)
      requires |draws| == 12 && forall i :: 0 <= i < 12 ==> 0.0 <= draws[i] < 1.0
      ensures |nodes| == 12 && |edges| == 30 && |faces| == 20
      ensures level == 0 && rndPow == 3.0
      ensures forall n :: 0 <= n < 12 ==>
        nodes[n].point == IcosahedronTable.Points(du, dv)[n] && nodes[n].elevation == draws[n] * 0.5
      ensures Ends(edges) == IcosahedronTable.EdgePairs() && faces == IcosahedronTable.Faces()
      ensures Linked() && Shaped()
      ensures forall n :: 0 <= n < 12 ==> |nodes[n].edges| == 5 && |nodes[n].faces| == 5
    {
      var nodes', edges', faces' := InitialRecords(du, dv, draws);
      nodes, edges, faces := nodes', edges', faces';
      rndPow := 3.0;
      level := 0;
    }

    /** `current_level`. */
    function CurrentLevel(): (r: nat)
      reads this
      ensures r == level
    {
      level
    }

    /**
     * `subdivide` (lines 154-249): as the generator's, except that only the
     * node back-links are rebuilt; the jitter scale shrinks by a quarter
     * before the new elevations are drawn.
     */
    method Subdivide(slerp: (Vertex, Vertex) -> Vertex, draws: seq<real>)
      requires ProperEdges(|nodes|, Ends(edges)) && Aligned(Ends(edges), faces)
      requires PrimalMesh.DrawsFit(draws, |edges|)
      modifies this
      ensures level == old(level) + 1 && rndPow == old(rndPow) * 0.75
      ensures Subdivided(old(nodes), old(edges), old(faces), slerp, draws, rndPow, nodes, edges, faces)
      ensures |nodes| == old(|nodes|) + old(|edges|)
      ensures |edges| == 2 * old(|edges|) + 3 * old(|faces|) && |faces| == 4 * old(|faces|)
      ensures ProperEdges(|nodes|, Ends(edges)) && Aligned(Ends(edges), faces)
      ensures Linked()
      ensures old(Shaped()) ==> Shaped()
      ensures old(Shaped() && Linked()) ==>
        && (forall n :: 0 <= n < old(|nodes|) ==>
              |nodes[n].edges| == old(|nodes[n].edges|) && |nodes[n].faces| == old(|nodes[n].faces|))
        && (forall n :: old(|nodes|) <= n < |nodes| ==> |nodes[n].edges| == 6 && |nodes[n].faces| == 6)
    {
      level := level + 1;
      rndPow := rndPow * 0.75;
      var nodes', edges', faces' := SubdivideRecords(nodes, edges, faces, slerp, draws, rndPow);
      nodes, edges, faces := nodes', edges', faces';
    }

    /**
     * The stub `conditional_rotate_edge` (lines 276-280): it looks the edge
     * up, which panics when the index is out of range, and otherwise refuses.
     */
    function ConditionalRotateEdge(ei: nat): (r: Outcome<bool>)
      reads this
      ensures r.Panic? <==> ei >= |edges|
      ensures r != Done(true)
    {
      if ei < |edges| then Done(false) else Panic
    }

    /** The stub `distort` (line 282): it changes nothing. */
    method Distort()
      modifies this
      ensures nodes == old(nodes) && edges == old(edges) && faces == old(faces)
      ensures level == old(level) && rndPow == old(rndPow)
    {
    }
  }
}
