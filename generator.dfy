/**
 * The planet generator (`Generator`, src/terrain/generator/mod.rs): three
 * arrays of node, edge and face records linked by indices, plus the level
 * and the jitter scale.  Construction starts from the icosahedron,
 * `subdivide` splits every face in four, `conditional_rotate_edge` and
 * `distort` flip edges, and `to_planet` walks around every node to build the
 * dual mesh.
 *
 * Floating-point positions are symbolic: the icosahedron's two coordinates,
 * the spherical midpoint (`slerp`) and the geometric half of the rotation
 * test are parameters.  Every random draw is a parameter too.
 */
module TerrainGenerator {
  import opened Outcomes
  import opened Pairs
  import opened MeshFace
  import opened MeshTopology
  import opened PrimalMesh
  import opened GeneratorSteps
  import MeshLinks
  import IcosahedronTable
  import Subdivision
  import EdgeFlip
  import FlipShape
  import RingWalk
  import TerrainNode
  import GeneratorEdge

  class Generator {
    var nodes: seq<Node>
    var edges: seq<Edge>
    var faces: seq<Face>
    var rndPow: real
    var level: nat

    /** Every back-link list is current. */
    ghost predicate Linked()
      reads this
    {
      LinksMatch(nodes, edges, faces)
    }

    /** The shape the tests check: proper edges, aligned faces, two faces per edge, degrees 5 to 6. */
    ghost predicate Shaped()
      reads this
    {
      MeshShape(|nodes|, EdgeEnds(edges), faces)
    }

    /**
     * `Generator::new` (lines 28-114): the icosahedron with one elevation
     * draw per node, halved; every back-link built; jitter scale 3, level 0.
     */
    constructor (du: real, dv: real, draws: seq<real>)
      requires |draws| == 12 && forall i :: 0 <= i < 12 ==> 0.0 <= draws[i] < 1.0
      ensures |nodes| == 12 && |edges| == 30 && |faces| == 20
      ensures level == 0 && rndPow == 3.0
      ensures forall n :: 0 <= n < 12 ==>
        nodes[n].point == IcosahedronTable.Points(du, dv)[n] && nodes[n].elevation == draws[n] * 0.5
        && 0.0 <= nodes[n].elevation < 0.5
      ensures EdgeEnds(edges) == IcosahedronTable.EdgePairs() && faces == IcosahedronTable.Faces()
      ensures Linked() && Shaped()
      ensures forall n :: 0 <= n < 12 ==> |nodes[n].edges| == 5 && |nodes[n].faces| == 5
      ensures forall e :: 0 <= e < 30 ==> |edges[e].faces| == 2
    {
      var nodes', edges', faces' := InitialRecords(du, dv, draws);
      nodes, edges, faces := nodes', edges', faces';
      rndPow := 3.0;
      level := 0;
    }

    /** `current_level`. */
    function CurrentLevel(): nat
      reads this
    {
      level
    }

    /** `num_edges`: the edge count cast to `u32`, which keeps its low 32 bits. */
    function NumEdges(): (r: nat)
      reads this
      ensures r < 0x1_0000_0000
      ensures |edges| < 0x1_0000_0000 ==> r == |edges|
      ensures r % 0x1_0000_0000 == |edges| % 0x1_0000_0000
    {
      |edges| % 0x1_0000_0000
    }

    /** `num_nodes`: the node count cast to `u32`. */
    function NumNodes(): (r: nat)
      reads this
      ensures r < 0x1_0000_0000
      ensures |nodes| < 0x1_0000_0000 ==> r == |nodes|
      ensures r % 0x1_0000_0000 == |nodes| % 0x1_0000_0000
    {
      |nodes| % 0x1_0000_0000
    }

    /**
     * `subdivide` (lines 185-281): one new node per old edge at index
     * `N + e`, each edge split in two, three inner edges per face, four faces
     * per face, and every back-link rebuilt.  The jitter scale shrinks by a
     * quarter before the new elevations are drawn.
     */
    method Subdivide(slerp: (Vertex, Vertex) -> Vertex, draws: seq<real>)
      requires ProperEdges(|nodes|, EdgeEnds(edges)) && Aligned(EdgeEnds(edges), faces)
      requires DrawsFit(draws, |edges|)
      modifies this
      ensures level == old(level) + 1 && rndPow == old(rndPow) * 0.75
      ensures Subdivided(old(nodes), old(edges), old(faces), slerp, draws, rndPow, nodes, edges, faces)
      ensures |edges| == 2 * old(|edges|) + 3 * old(|faces|) && |faces| == 4 * old(|faces|)
      ensures ProperEdges(|nodes|, EdgeEnds(edges)) && Aligned(EdgeEnds(edges), faces)
      ensures Linked()
      ensures old(Shaped()) ==> Shaped()
      ensures old(Shaped() && Linked()) ==>
        && (forall n :: 0 <= n < old(|nodes|) ==>
              |nodes[n].edges| == old(|nodes[n].edges|) && |nodes[n].faces| == old(|nodes[n].faces|))
        && (forall n :: old(|nodes|) <= n < |nodes| ==> |nodes[n].edges| == 6 && |nodes[n].faces| == 6)
        && (forall e :: 0 <= e < |edges| ==> |edges[e].faces| == 2)
    {
      level := level + 1;
      rndPow := rndPow * 0.75;
      var nodes', edges', faces' := SubdivideRecords(nodes, edges, faces, slerp, draws, rndPow);
      nodes, edges, faces := nodes', edges', faces';
    }

    /**
     * `conditional_rotate_edge` (lines 313-383): look up the edge's two faces,
     * their far corners and side edges (a panic if any index is out of range
     * or a face has no far corner); refuse unless `rotation_predicate`
     * accepts; otherwise rewrite nodes, side edges, faces and the edge.  On a
     * sound mesh no lookup panics, and an accepted flip whose two faces are
     * opposed leaves a sound mesh.
     */
    method ConditionalRotateEdge(ei: nat, geometry: (Vertex, Vertex, Vertex, Vertex) -> bool) returns (r: Outcome<bool>)
      modifies this
      ensures Rotation(old(nodes), old(edges), old(faces), ei, geometry, r, nodes, edges, faces)
      ensures |nodes| == old(|nodes|) && |edges| == old(|edges|) && |faces| == old(|faces|)
      ensures r == Done(false) ==> Refused(nodes, edges, faces, ei, geometry)
      ensures !(r.Done? && r.value) ==> nodes == old(nodes) && edges == old(edges) && faces == old(faces)
      ensures level == old(level) && rndPow == old(rndPow)
      ensures old(FlipShape.Sound(nodes, edges, faces)) && ei < old(|edges|) ==> !r.Panic?
      ensures var plan := EdgeFlip.PlanFlip(old(nodes), old(edges), old(faces), ei);
        old(FlipShape.Sound(nodes, edges, faces)) && r == Done(true) && plan.Some? && FlipShape.Opposed(plan.value) ==>
        FlipShape.Sound(nodes, edges, faces)
    {
      var nodes', edges', faces';
      r, nodes', edges', faces' := RotateRecords(nodes, edges, faces, ei, geometry);
      RotationKeepsCounts(nodes, edges, faces, ei, geometry, r, nodes', edges', faces');
      RotationOnSound(nodes, edges, faces, ei, geometry, r, nodes', edges', faces');
      nodes, edges, faces := nodes', edges', faces';
    }

    /**
     * `distort(degree)` (lines 385-404): the range of draws is built first,
     * which panics with no edges; then `degree` rounds, each starting at a
     * drawn edge index and probing successive indices, wrapping, until one
     * flip is accepted.  A round that has probed every edge in vain ends the
     * call with `false`; at that point no edge of the mesh can be rotated.
     * `flipped` lists the accepted edges in order, and the arrays are those
     * flips applied one after another.  From a sound mesh, as long as every
     * accepted flip is opposed, no round panics and the mesh stays sound.
     */
    method Distort(degree: nat, starts: seq<nat>, geometry: (Vertex, Vertex, Vertex, Vertex) -> bool)
      returns (r: Outcome<bool>, ghost flipped: seq<nat>)
      requires |starts| == degree
      requires |edges| > 0 ==> forall i :: 0 <= i < |starts| ==> starts[i] < |edges|
      modifies this
      ensures |edges| == 0 ==> r.Panic?
      ensures |nodes| == old(|nodes|) && |edges| == old(|edges|) && |faces| == old(|faces|)
      ensures level == old(level) && rndPow == old(rndPow)
      ensures FlipShape.Flips(old(nodes), old(edges), old(faces), flipped, geometry) == Some((nodes, edges, faces))
      ensures r == Done(true) ==> |flipped| == degree
      ensures r == Done(false) ==>
        |flipped| < degree && forall e :: 0 <= e < |edges| ==> Refused(nodes, edges, faces, e, geometry)
      ensures old(FlipShape.Sound(nodes, edges, faces)) && |edges| > 0 &&
              FlipShape.OpposedAlong(old(nodes), old(edges), old(faces), flipped, geometry) ==>
              !r.Panic? && FlipShape.Sound(nodes, edges, faces)
    {
      flipped := [];
      var numEdges := |edges|;
      if numEdges == 0 {
        return Panic, flipped;
      }
      ghost var sound0 := FlipShape.Sound(nodes, edges, faces);
      var i := 0;
      while i < degree
        invariant 0 <= i <= degree && |flipped| == i
        invariant |nodes| == old(|nodes|) && |edges| == numEdges && |faces| == old(|faces|)
        invariant level == old(level) && rndPow == old(rndPow)
        invariant FlipShape.Flips(old(nodes), old(edges), old(faces), flipped, geometry) == Some((nodes, edges, faces))
        invariant sound0 && FlipShape.OpposedAlong(old(nodes), old(edges), old(faces), flipped, geometry) ==>
          FlipShape.Sound(nodes, edges, faces)
      {
        var rotated, at, tries := RotateFrom(starts[i], geometry);
        if rotated.Panic? {
          return Panic, flipped;
        } else if !rotated.value {
          return Done(false), flipped;
        }
        FlipShape.FlipsSnoc(old(nodes), old(edges), old(faces), flipped, at, geometry);
        FlipShape.OpposedAlongSnoc(old(nodes), old(edges), old(faces), flipped, at, geometry);
        flipped := flipped + [at];
        i := i + 1;
      }
      return Done(true), flipped;
    }

    /** One probe of a round: the rotation at `ei`. */
    method Attempt(ei: nat, geometry: (Vertex, Vertex, Vertex, Vertex) -> bool) returns (r: Outcome<bool>)
      modifies this
      ensures Settled(old(nodes), old(edges), old(faces), ei, geometry, r, nodes, edges, faces)
      ensures |nodes| == old(|nodes|) && |edges| == old(|edges|) && |faces| == old(|faces|)
      ensures level == old(level) && rndPow == old(rndPow)
    {
      ghost var nodes0, edges0, faces0 := nodes, edges, faces;
      r := ConditionalRotateEdge(ei, geometry);
      RotationOnSound(nodes0, edges0, faces0, ei, geometry, r, nodes, edges, faces);
    }

    /**
     * One round of `distort` (lines 392-400): rotate the edge at `start`, and
     * on refusal the next index, wrapping, until a rotation is accepted or
     * every edge has been tried.  The round stops at probe number `tries`,
     * edge `at`, after every earlier probe was refused; on `true` the arrays
     * are the flip of `at`, and otherwise they are as they were.
     */
    method RotateFrom(start: nat, geometry: (Vertex, Vertex, Vertex, Vertex) -> bool)
      returns (r: Outcome<bool>, ghost at: nat, ghost tries: nat)
      requires start < |edges|
      modifies this
      ensures |nodes| == old(|nodes|) && |edges| == old(|edges|) && |faces| == old(|faces|)
      ensures level == old(level) && rndPow == old(rndPow)
      ensures tries < |edges| && at == Probe(start, tries, |edges|)
      ensures ProbedInVain(old(nodes), old(edges), old(faces), start, tries, geometry)
      ensures r == Done(true) ==>
        FlipShape.FlipAt(old(nodes), old(edges), old(faces), at, geometry) == Some((nodes, edges, faces))
      ensures r != Done(true) ==> nodes == old(nodes) && edges == old(edges) && faces == old(faces)
      ensures r.Panic? ==> EdgeFlip.PlanFlip(nodes, edges, faces, at).None?
      ensures r == Done(false) ==> forall e :: 0 <= e < |edges| ==> Refused(nodes, edges, faces, e, geometry)
      ensures old(FlipShape.Sound(nodes, edges, faces)) ==> !r.Panic?
      ensures var plan := EdgeFlip.PlanFlip(old(nodes), old(edges), old(faces), at);
        old(FlipShape.Sound(nodes, edges, faces)) && r == Done(true) && plan.Some? && FlipShape.Opposed(plan.value) ==>
        FlipShape.Sound(nodes, edges, faces)
    {
      ghost var nodes0, edges0, faces0 := nodes, edges, faces;
      var numEdges := |edges|;
      var attempts := 0;
      var edgeIndex := start;
      assert edgeIndex == Probe(start, 0, numEdges);
      r := Attempt(edgeIndex, geometry);
      at, tries := edgeIndex, attempts;
      while !(r.Done? && r.value)
        invariant 0 <= attempts < numEdges == |edges0|
        invariant |nodes| == old(|nodes|) && |edges| == numEdges && |faces| == old(|faces|)
        invariant level == old(level) && rndPow == old(rndPow)
        invariant edgeIndex == Probe(start, attempts, numEdges) && at == edgeIndex && tries == attempts
        invariant ProbedInVain(nodes0, edges0, faces0, start, attempts, geometry)
        invariant Settled(nodes0, edges0, faces0, edgeIndex, geometry, r, nodes, edges, faces)
        decreases numEdges - attempts
      {
        if r.Panic? {
          return;
        }
        ProbeRefused(nodes0, edges0, faces0, start, attempts, geometry);
        NextProbe(start, attempts, numEdges);
        if attempts + 1 >= numEdges {
          VainRoundRefusesAll(nodes0, edges0, faces0, start, geometry);
          return;
        }
        attempts := attempts + 1;
        edgeIndex := (edgeIndex + 1) % numEdges;
        r := Attempt(edgeIndex, geometry);
        at, tries := edgeIndex, attempts;
      }
    }

    /**
     * `to_planet` (lines 484-547): one dual vertex per face (its centre),
     * then, node by node, the ring of faces met walking around the node from
     * its first face, and a dual vertex at the ring's centre.  A walk that
     * panics panics the whole call; one that never comes back to its first
     * face loops for ever.
     */
    method ToPlanet() returns (r: Dual)
      ensures r.Dual? ==>
        && |r.rings| == |nodes|
        && |r.vertices| == |faces| + |nodes|
        && (forall f :: 0 <= f < |faces| ==> r.vertices[f] == FaceCentre(f))
        && (forall i :: 0 <= i < |nodes| ==> r.vertices[|faces| + i] == TileCentre(r.rings[i]))
        && (forall i :: 0 <= i < |nodes| ==>
              |nodes[i].faces| > 0 && RingWalk.IsRing(edges, faces, i, nodes[i].faces[0], r.rings[i]))
        && (forall i, k :: 0 <= i < |nodes| && 0 <= k < |r.rings[i]| ==>
              r.rings[i][k] < |faces| && Occurrences(faces[r.rings[i][k]].points, i) > 0)
      ensures r.Panics? ==>
        exists i :: 0 <= i < |nodes| && (nodes[i].faces == [] || RingWalk.Breaks(edges, faces, i, nodes[i].faces[0]))
      ensures r.Hangs? ==>
        exists i :: 0 <= i < |nodes| && |nodes[i].faces| > 0 && RingWalk.Spins(edges, faces, i, nodes[i].faces[0])
    {
      var numFaces := |faces|;
      var vertices := seq(numFaces, f requires 0 <= f < numFaces => FaceCentre(f));
      var rings: seq<seq<nat>> := [];
      var i := 0;
      while i < |nodes|
        invariant 0 <= i <= |nodes|
        invariant |rings| == i && |vertices| == |faces| + i
        invariant forall f :: 0 <= f < |faces| ==> vertices[f] == FaceCentre(f)
        invariant forall j :: 0 <= j < i ==> vertices[|faces| + j] == TileCentre(rings[j])
        invariant forall j :: 0 <= j < i ==>
          |nodes[j].faces| > 0 && RingWalk.IsRing(edges, faces, j, nodes[j].faces[0], rings[j])
        invariant forall j, k :: 0 <= j < i && 0 <= k < |rings[j]| ==>
          rings[j][k] < |faces| && Occurrences(faces[rings[j][k]].points, j) > 0
      {
        if |nodes[i].faces| == 0 {
          return Panics;
        }
        var start := nodes[i].faces[0];
        var ring := RingWalk.WalkRing(edges, faces, i, start);
        if ring.Broken? {
          return Panics;
        } else if ring.Endless? {
          return Hangs;
        }
        RingWalk.RingFacesHaveNode(edges, faces, i, start, ring.faces);
        vertices := vertices + [TileCentre(ring.faces)];
        rings := rings + [ring.faces];
        i := i + 1;
      }
      return Dual(vertices, rings);
    }
  }

  /** What one probe leaves, as far as a round of `distort` needs it. */
  ghost predicate Settled(nodes: seq<Node>, edges: seq<Edge>, faces: seq<Face>, ei: nat,
                          geometry: (Vertex, Vertex, Vertex, Vertex) -> bool, r: Outcome<bool>,
                          nodes': seq<Node>, edges': seq<Edge>, faces': seq<Face>)
  {
    && (r != Done(true) ==> nodes' == nodes && edges' == edges && faces' == faces)
    && (r == Done(false) ==> Refused(nodes, edges, faces, ei, geometry))
    && (r.Panic? ==> EdgeFlip.PlanFlip(nodes, edges, faces, ei).None?)
    && (r == Done(true) ==> FlipShape.FlipAt(nodes, edges, faces, ei, geometry) == Some((nodes', edges', faces')))
    && (FlipShape.Sound(nodes, edges, faces) && ei < |edges| ==> !r.Panic?)
    && (var plan := EdgeFlip.PlanFlip(nodes, edges, faces, ei);
        FlipShape.Sound(nodes, edges, faces) && r == Done(true) && plan.Some? && FlipShape.Opposed(plan.value) ==>
        FlipShape.Sound(nodes', edges', faces'))
  }

  /**
   * A rotation settles: on `true` the arrays are `FlipAt`'s, a sound mesh
   * never panics, and an accepted opposed flip of a sound mesh leaves a
   * sound mesh.
   */
  lemma RotationOnSound(nodes: seq<Node>, edges: seq<Edge>, faces: seq<Face>, ei: nat,
                        geometry: (Vertex, Vertex, Vertex, Vertex) -> bool, r: Outcome<bool>,
                        nodes': seq<Node>, edges': seq<Edge>, faces': seq<Face>)
    requires Rotation(nodes, edges, faces, ei, geometry, r, nodes', edges', faces')
    ensures Settled(nodes, edges, faces, ei, geometry, r, nodes', edges', faces')
  {
    var plan := EdgeFlip.PlanFlip(nodes, edges, faces, ei);
    if FlipShape.Sound(nodes, edges, faces) && ei < |edges| {
      FlipShape.SoundNeverPanics(nodes, edges, faces, ei);
      if r == Done(true) && FlipShape.Opposed(plan.value) {
        FlipShape.FlipKeepsSound(nodes, edges, faces, ei, plan.value);
      }
    }
  }

  /** A settled probe is exactly a rotation: `Settled` implies every clause of `Rotation`. */
  lemma SettledIsRotation(nodes: seq<Node>, edges: seq<Edge>, faces: seq<Face>, ei: nat,
                          geometry: (Vertex, Vertex, Vertex, Vertex) -> bool, r: Outcome<bool>,
                          nodes': seq<Node>, edges': seq<Edge>, faces': seq<Face>)
    requires Settled(nodes, edges, faces, ei, geometry, r, nodes', edges', faces')
    ensures Rotation(nodes, edges, faces, ei, geometry, r, nodes', edges', faces')
  {
    if r.Done? && r.value {
      assert FlipShape.FlipAt(nodes, edges, faces, ei, geometry).Some?;
    }
  }
}
