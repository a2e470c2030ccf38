# terragen in Dafny

A model of the mesh and planet core of terragen. terragen builds the surface
of a planet in three stages:

1. It starts from a regular icosahedron: 12 nodes, 30 edges and 20 faces.
2. It subdivides that mesh one to four, again and again. Each time it puts a
   jittered elevation on every new midpoint node and rebuilds the back-links
   from nodes and edges to faces.
3. It randomly flips shared edges to break the regularity (`distort`). It then
   turns the triangle mesh into its dual, a `Planet` of polygonal tiles. Tiles
   are grown into tectonic plates from random seed corners, and small plates
   are merged into neighbouring ones.

The model follows the source's own layout:

- **Records as datatypes.** `Node`, `Edge`, `Face`, `Tile`, `Border`, `Plate`
  and `Vec3` are datatypes. Their push methods become member functions.
- **Owners as classes.** `Generator`, the older `Terrain`, `Icosahedron` and
  `Planet` are classes whose `seq` fields are reassigned by methods. The loops
  of the source are methods with loop invariants.
- **Specification functions.** Each method is proved against a function that
  states what it computes. The source's promises are then proved about those
  functions as lemmas.

Indices are `nat` throughout. Floating-point geometry is passed in as
parameters:

- `du` and `dv` are the icosahedron's two coordinates.
- `slerp` and `mid` compute midpoints.
- `geometry` is the distance and angle test of `rotation_predicate`.

The random number generator is replaced by draw sequences and functions
supplied by the caller.

Modules:

- `Vector` (Vec3 algebra), `Pairs` (the sorted pair rule), `Outcomes`
  (`Done` or `Panic`, and `Option`).
- The records: `MeshFace`, `TerrainNode`, `TerrainEdge`, `GeneratorEdge`,
  `PlanetTile`, `PlanetBorder`, `PlanetPlate`.
- The primal mesh: `IcosahedronTable` (the level-0 tables), `MeshTopology`
  (incidence lists and the mesh shape), `MeshLinks` (the back-link loops),
  `Subdivision` (the face loop of the generator), `PrimalMesh` (what both
  primal meshes share).
- Edge rotation: `EdgeFlip`, `GeneratorSteps`, `FlipShape` (what an accepted
  flip keeps, and flips chained as `distort` chains them).
- Dual construction: `RingWalk`.
- The owners: `TerrainGenerator`, `TerrainMesh`, `IcosahedronMesh`.
- The planet: `PlanetBorders`, `PlanetIndex`, `PlanetPlates`, `PlanetMerge`,
  `Planets`.

## Model

| member | source | states |
|---|---|---|
| `Vector.TruncDiv` | src/math/vector.rs:110-138 | For a non-zero divisor, the quotient's magnitude is `abs(a) / abs(d)`, and it is negative exactly when the operands' signs differ. This is Rust's division, which truncates toward zero. |
| `Vector.AddCommutes` | src/math/vector.rs:16-84 | Componentwise `+` is commutative. |
| `Vector.AddAssociates` | src/math/vector.rs:16-84 | Componentwise `+` is associative. |
| `Vector.SubUndoesAdd` | src/math/vector.rs:16-84 | `(u + v) - v == u` and `(u - v) + v == u`. |
| `Vector.DivideUndoesScale` | src/math/vector.rs:110-138 | Dividing `v * k` by the same non-zero `k` gives back `v`. |
| `Vector.DotSymmetric` | src/math/vector.rs:172-190 | `u · v == v · u`. |
| `Vector.DotDistributesOverAdd` | src/math/vector.rs:172-190 | `(u + v) · w == u · w + v · w`. |
| `Vector.LengthSquaredIsSelfDot` | src/math/vector.rs:213-215 | `length_squared(v)` equals `v · v`. It is never negative, and it is zero exactly for the zero vector. |
| `Vector.OperatorExamples` | src/math/vector.rs:272-283 | The worked values of the source's operator tests hold. |
| `Vector.DivideTruncatesTowardZero` | src/math/vector.rs:110-164 | `(-7, 7, -8) / 2` is `(-3, 3, -4)`, not the floored `(-4, 3, -4)`. Dividing by `-2` is also truncated. |
| `Vector.MutableVec3.constructor` | src/math/vector.rs:11-14 | The new vector holds the given components. |
| `Vector.MutableVec3.AddAssign` | src/math/vector.rs:86-108 | `+=` leaves the receiver equal to `old + other`. |
| `Vector.MutableVec3.SubAssign` | src/math/vector.rs:86-108 | `-=` leaves the receiver equal to `old - other`. |
| `Vector.MutableVec3.MulAssign` | src/math/vector.rs:140-153 | `*=` by a scalar leaves the receiver equal to `old * k`. |
| `Vector.MutableVec3.DivAssign` | src/math/vector.rs:140-153 | `/=` by a non-zero scalar leaves the receiver equal to `old / k`, truncated. |
| `Pairs.SortedPair` | src/terrain/edge.rs:8-14 | The result holds both arguments, the smaller first. |
| `Pairs.SortedPairSymmetric` | src/terrain/generator/edge.rs:11-18 | Ordering forgets which argument came first. |
| `Pairs.SortedPairUnique` | src/terrain/planet/border.rs:12-17 | The sorted pair is the only ordered pair with those two endpoints. |
| `MeshFace.With` | src/terrain/generator/mod.rs:364-374 | Writing slot `i mod 3` of a triple leaves `value` in that slot. |
| `MeshFace.WithKeepsOthers` | src/terrain/generator/mod.rs:364-374 | Writing slot `i mod 3` of a triple leaves the two other slots unchanged. |
| `TerrainNode.Node.AddEdge` | src/terrain/node.rs:21-24 | Appends the edge index and keeps everything else. |
| `TerrainNode.Node.AddFace` | src/terrain/generator/mod.rs:130-134 | Appends the face index and keeps everything else. |
| `TerrainNode.Node.ClearLinks` | src/terrain/generator/mod.rs:117-120 | Both link lists are emptied; position and elevation are kept. |
| `TerrainNode.New` | src/terrain/node.rs:12-19 | The node has the given position and elevation, and no links. |
| `TerrainEdge.New` | src/terrain/edge.rs:8-14 | The ends are in ascending order and are the two arguments. |
| `TerrainEdge.NewSymmetric` | src/terrain/edge.rs:8-14 | Both argument orders build the same record. |
| `TerrainEdge.NewSelfLoop` | src/terrain/edge.rs:8-14 | Equal ends are accepted. |
| `GeneratorEdge.Edge.AddFace` | src/terrain/generator/edge.rs:20-23 | Appends the face index and keeps the ends. |
| `GeneratorEdge.New` | src/terrain/generator/edge.rs:11-18 | The ends are sorted and there are no faces yet. |
| `GeneratorEdge.NewSymmetric` | src/terrain/generator/edge.rs:11-18 | Swapping the arguments builds the same edge. |
| `PlanetTile.Tile.IndexOf` | src/terrain/planet/mod.rs:42-44 | `None` exactly when the corner is absent. Otherwise it gives the position of its first occurrence. |
| `PlanetTile.Tile.HasEdge` | src/terrain/planet/mod.rs:46-55 | False for an absent corner. When true, `b` is a corner of the ring. |
| `PlanetTile.New` | src/terrain/planet/mod.rs:32-40 | The tile has the given ring and centre, no borders and plate 0. |
| `PlanetTile.HasEdgeIsRingEdge` | src/terrain/planet/tile.rs:31-40 | On a ring of distinct corners, `has_edge(a, b)` holds exactly when `a` and `b` are neighbours on the ring, wrapping included. |
| `PlanetTile.HasEdgeSymmetric` | src/terrain/planet/mod.rs:46-55 | On a ring of distinct corners, the argument order does not matter. |
| `PlanetTile.HasEdgeExample` | src/terrain/planet/mod.rs:46-55 | On the ring 2, 3, 5, 8, 13 the test wraps around (13 and 2 are neighbours) and rejects corners two apart. |
| `PlanetTile.HasEdgeFirstOccurrenceOnly` | src/terrain/planet/mod.rs:42-55 | With a repeated corner only the first occurrence is looked at. On 1, 2, 3, 1, 4, `has_edge(3, 1)` holds but `has_edge(1, 3)` does not. |
| `PlanetBorder.Border.OtherTile` | src/terrain/planet/border.rs:19-27 | `Some` exactly when `t` is one of the two tiles. Then `t` and the result are the border's tiles. |
| `PlanetBorder.New` | src/terrain/planet/border.rs:12-17 | Both the corner pair and the tile pair are sorted permutations of the arguments. |
| `PlanetBorder.NewSymmetric` | src/terrain/planet/border.rs:12-17 | Naming the corners or the tiles the other way round builds the same border. |
| `PlanetBorder.OtherTileTwice` | src/terrain/planet/border.rs:19-27 | Crossing a border between two different tiles twice comes back to the start. |
| `PlanetPlate.Plate.AddTile` | src/terrain/planet/plate.rs:48-50 | Appends the tile and keeps the id. |
| `PlanetPlate.New` | src/terrain/planet/plate.rs:20-46 | The plate has the given id and no tiles. |
| `MeshTopology.IncidentEdgesExact` | src/terrain/generator/mod.rs:116-128 | Without self-loops, a node's edge list is strictly increasing and holds exactly the edges with an end at the node. |
| `MeshTopology.IncidentFacesExact` | src/terrain/generator/mod.rs:130-135 | When no face repeats a corner, a node's face list is strictly increasing and holds exactly the faces with the node as a corner. |
| `MeshTopology.NamingFacesExact` | src/terrain/generator/mod.rs:138-148 | When no face repeats an edge, an edge's face list is strictly increasing and holds exactly the faces naming it. |
| `MeshTopology.AlignedFaceDistinct` | src/terrain/generator/mod.rs:750-769 | In an aligned face over proper edges, the three corners are distinct and so are the three edges. |
| `MeshLinks.AssignLinksToNodes` | src/terrain/generator/mod.rs:116-136 | Afterwards every node lists exactly its incident edges and faces, in index order. Positions and elevations are untouched. |
| `MeshLinks.AssignLinksToEdges` | src/terrain/generator/mod.rs:138-148 | Each edge ends with its old list followed by the faces naming it, once per naming slot. The lists are not cleared first. |
| `PrimalMesh.LinkRecords` | src/terrain/generator/mod.rs:103-104 | Fresh edge records for the pairs, with every back-link of nodes and edges current. Positions and elevations are kept. |
| `PrimalMesh.LinkCounts` | src/terrain/generator/mod.rs:608-748 | On a mesh of the tested shape with current links, every node has five or six edges and as many faces, and every edge has exactly two faces. |
| `PrimalMesh.NodeLinkCounts` | src/terrain/generator.rs:443-537 | With current node links on the tested shape, every node has five or six edges and faces. |
| `PrimalMesh.LinksExact` | src/terrain/generator/mod.rs:116-136 | Current node links are exact and ascending: an edge or face is listed at a node exactly when it touches the node. |
| `PrimalMesh.EdgeLinksExact` | src/terrain/generator/mod.rs:138-148 | Current edge links are exact and ascending: exactly the faces with a slot naming the edge. |
| `PrimalMesh.Jitter` | src/terrain/generator/mod.rs:550-552 | A draw in `[0, 1)` becomes a value in `[-max, max)`. |
| `PrimalMesh.Midpoint` | src/terrain/generator/mod.rs:199-209 | The new node has no links, and its elevation is within `pow / 2` of its ends' mean. |
| `PrimalMesh.JitterScaled` | src/terrain/generator/mod.rs:205 | A value in `[-1/2, 1/2]` scaled by a non-negative factor stays within half of that factor. |
| `PrimalMesh.SplitCounts` | src/terrain/generator/mod.rs:264-273 | After a split there are `2E + 3F` edges and `4F` faces, still proper and aligned, and the tested shape is kept. Old nodes keep their degrees; new nodes have six edges and six faces. |
| `PrimalMesh.SplitRecords` | src/terrain/generator/mod.rs:197-268 | Pushes the midpoint nodes, then splits edges and faces as `SplitMesh` says. |
| `PrimalMesh.PushMidpoints` | src/terrain/generator/mod.rs:197-209 | The old nodes come first, unchanged; node `N + e` is the midpoint of edge `e`. |
| `PrimalMesh.ProbesCover` | src/terrain/generator/mod.rs:393-400 | `m` consecutive probes from any start reach every index below `m`. |
| `Subdivision.SplitPairs` | src/terrain/generator/mod.rs:197-220 | Two halves per old edge; `SplitPairsAt` states which. |
| `Subdivision.SplitPairsAt` | src/terrain/generator/mod.rs:208-219 | Half `2e` joins old edge `e`'s first end to midpoint `N + e`, and half `2e + 1` its second end. |
| `Subdivision.SplitEdges` | src/terrain/generator/mod.rs:197-220 | Pushes the halves and records each under its unsorted key. On proper edges the map holds exactly the halves, at `2e` and `2e + 1`. |
| `Subdivision.FindEdge` | src/terrain/generator/mod.rs:225-235 | Either the map's index for the sorted key (the edges unchanged), or a new sorted edge appended at the end. |
| `Subdivision.SplitFace` | src/terrain/generator/mod.rs:237-268 | On a well-formed mesh the six corner lookups find halves. The three midpoint lookups append the face's inner triangle, and the four faces are its quarters. |
| `Subdivision.SplitFaces` | src/terrain/generator/mod.rs:237-268 | Every face is replaced by its quarters, the inner edges accumulating after the halves. |
| `Subdivision.SubdivideMesh` | src/terrain/generator/mod.rs:197-268 | The new edges are the halves followed by three inner edges per face; the new faces are four quarters per face. |
| `Subdivision.InnerPairs` | src/terrain/generator/mod.rs:237-268 | Three inner edges per face. |
| `Subdivision.InnerPairsAt` | src/terrain/generator/mod.rs:260-262 | Inner edges `3k` to `3k + 2` join face `k`'s midpoints in slot order. |
| `Subdivision.QuarterFaces` | src/terrain/generator/mod.rs:237-268 | Four faces per face. |
| `Subdivision.SplitIndexSpec` | src/terrain/generator/mod.rs:197-220 | On proper edges the split map holds each half under its key, and every key starts at an old node. |
| `Subdivision.SplitPairsDegree` | src/terrain/generator/mod.rs:197-220 | Splitting keeps every old node's degree and gives each midpoint two halves. |
| `Subdivision.InnerPairsDegree` | src/terrain/generator/mod.rs:237-268 | Inner edges touch no old node, and touch midpoint `N + e` twice per slot naming `e`. |
| `Subdivision.QuarterFacesDegree` | src/terrain/generator/mod.rs:237-268 | Old nodes keep their corner counts; midpoint `N + e` is a corner three times per slot naming `e`. |
| `Subdivision.QuarterFacesNamingCount` | src/terrain/generator/mod.rs:237-268 | A half edge is named once per slot naming its old edge; each inner edge is named exactly twice. |
| `Subdivision.SubdivisionKeepsShape` | src/terrain/generator/mod.rs:185-281 | One subdivision yields `N + E` nodes, `2E + 3F` edges and `4F` faces. Old degrees are kept and midpoints have six edges and six faces. Faces stay aligned, and every edge still lies on exactly two faces. |
| `EdgeFlip.Retain` | src/terrain/generator/mod.rs:338-357 | Never longer than the input. |
| `EdgeFlip.RetainCounts` | src/terrain/generator/mod.rs:338-357 | Removes every copy of `x` and nothing else (as multisets), keeping the order. |
| `EdgeFlip.RetainAbsent` | src/terrain/generator/mod.rs:338-357 | A list without `x` is left unchanged. |
| `EdgeFlip.OppositeSlot` | src/terrain/generator/mod.rs:319-320 | The first slot whose corner is neither endpoint; `None` means every corner is an endpoint. |
| `EdgeFlip.PlanFlip` | src/terrain/generator/mod.rs:314-332 | `None` where a lookup would panic, including an edge past the end or with fewer than two faces. Otherwise the plan's faces are the edge's first two faces, every index is in range, and corners and side edges are as looked up. |
| `EdgeFlip.GuardRefuses` | src/terrain/generator/mod.rs:289-292 | A far node with 7 or more faces, or a near node with 5 or fewer, refuses the flip whatever the geometry. |
| `EdgeFlip.Flipped` | src/terrain/generator/mod.rs:338-380 | A flip keeps the number of nodes, edges and faces. |
| `EdgeFlip.FlipJoinsFarCorners` | src/terrain/generator/mod.rs:376-380 | The flipped edge keeps its index and faces and joins the two far corners, smaller first. |
| `EdgeFlip.FlipMovesEdgeLinks` | src/terrain/generator/mod.rs:338-354 | The near corners lose every copy of the edge, the far corners gain it at the end, and untouched nodes keep their records. |
| `EdgeFlip.FlipNodesAt` | src/terrain/generator/mod.rs:338-354 | The exact record each of the four corners gets, when they are different nodes. |
| `EdgeFlip.FlipRewritesFaces` | src/terrain/generator/mod.rs:364-374 | Face 0 becomes (new0, old0, new1) and face 1 becomes (new1, old1, new0), from the far slot on. The flipped edge is in their third slots. |
| `EdgeFlip.FlipKeepsFaceCounts` | src/terrain/generator/mod.rs:289-354 | An accepted flip leaves all four corners with between 5 and 7 faces. |
| `GeneratorSteps.InitialRecords` | src/terrain/generator/mod.rs:28-114 | 12 nodes at the table positions with halved draws as elevations (so in `[0, 0.5)`), 30 edges and 20 faces. Links are current, the shape is tested, and every node has five edges and five faces. |
| `GeneratorSteps.SubdivideRecords` | src/terrain/generator/mod.rs:185-281 | The arrays are split as `SplitMesh` says, with every back-link rebuilt. |
| `GeneratorSteps.SubdivisionCounts` | src/terrain/generator/mod.rs:581-606 | After a subdivision, the counts and degrees the tests check: `2E + 3F` edges, `4F` faces, new nodes of degree six, and two faces per edge. |
| `GeneratorSteps.RotationKeepsCounts` | src/terrain/generator/mod.rs:313-383 | A rotation keeps the array sizes. One that reports `false` leaves the edge refused. |
| `FlipShape.LinkedShapeIsSound` | src/terrain/generator/mod.rs:116-148 | A mesh of the tested shape whose back-links are built as `assign_links_to_nodes` and `assign_links_to_edges` build them is sound. |
| `FlipShape.PlanAround` | src/terrain/generator/mod.rs:314-332 | On a sound mesh every lookup of a flip succeeds. The edge lies on two different faces, which are its face list and the only faces naming it. Read from its far slot on, each face has the edge second and the edge's ends as its last two corners. |
| `FlipShape.SoundNeverPanics` | src/terrain/generator/mod.rs:314-332 | On a sound mesh the lookups of a flip never panic. |
| `FlipShape.OpposedIsSeparate` | src/terrain/generator/mod.rs:314-332 | On a sound mesh, an opposed plan touches four different nodes, three different edges and two different faces. The faces' outer edges differ from the three rewired edges. |
| `FlipShape.FlipKeepsClosed` | src/terrain/generator/mod.rs:364-380 | After the two faces are rewritten, every edge still lies on exactly two face slots. |
| `FlipShape.FlipKeepsAligned` | src/terrain/generator/mod.rs:364-380 | Every face stays aligned: each slot's edge joins the slot's two corners, on the new ends of the flipped edge. |
| `FlipShape.FlipKeepsProper` | src/terrain/generator/mod.rs:376-380 | Re-joining the edge to the two far corners keeps every edge's ends ordered and in range. |
| `FlipShape.FlipKeepsLinks` | src/terrain/generator/mod.rs:338-362 | Each node's edge and face lists, and each edge's face list, still hold the right indices as often as the flipped faces say. |
| `FlipShape.FlipKeepsSound` | src/terrain/generator/mod.rs:313-383 | An accepted opposed flip on a sound mesh touches separate indices and leaves a sound mesh. |
| `FlipShape.FlipAt` | src/terrain/generator/mod.rs:313-383 | Gives arrays exactly when the flip is accepted, and keeps the array sizes. |
| `FlipShape.Flips` | src/terrain/generator/mod.rs:391-402 | Flips in a row keep the array sizes, and no flips leave the arrays as they are. |
| `FlipShape.FlipsSnoc` | src/terrain/generator/mod.rs:391-402 | One more accepted flip extends the chain by that flip. |
| `FlipShape.OpposedAlongSnoc` | src/terrain/generator/mod.rs:391-402 | A chain with one more flip is opposed exactly when the chain is and the new flip's plan is. |
| `FlipShape.FlipsKeepSound` | src/terrain/generator/mod.rs:385-404 | A chain of accepted opposed flips from a sound mesh ends on a sound mesh. |
| `GeneratorSteps.RotateRecords` | src/terrain/generator/mod.rs:313-383 | Panics exactly when a lookup fails, and reports `true` exactly when the flip is accepted. Then it leaves the flipped arrays; otherwise it leaves them unchanged. |
| `GeneratorSteps.RotateNodes` | src/terrain/generator/mod.rs:338-354 | The writes on the four corner records produce the nodes of the flip. |
| `GeneratorSteps.RotateEdges` | src/terrain/generator/mod.rs:356-362 | The side edges trade faces and the edge joins the far corners, as in the flip. |
| `GeneratorSteps.RotateFaces` | src/terrain/generator/mod.rs:364-374 | The slot writes on both faces produce the faces of the flip. |
| `GeneratorSteps.Probe` | src/terrain/generator/mod.rs:399 | The probed index, wrapped, is below the edge count. |
| `GeneratorSteps.VainRoundRefusesAll` | src/terrain/generator/mod.rs:392-400 | A round that probed every edge in vain means every edge is refused. |
| `GeneratorSteps.NextProbe` | src/terrain/generator/mod.rs:399 | The wrapped index after a probe is the next probe. |
| `TerrainGenerator.Generator.constructor` | src/terrain/generator/mod.rs:28-114 | The icosahedron with halved elevation draws, all links current, the tested shape, level 0 and jitter scale 3. |
| `TerrainGenerator.Generator.NumEdges` | src/terrain/generator/mod.rs:154-156 | Below `2^32` and congruent to the edge count modulo `2^32`; exact while the count fits. |
| `TerrainGenerator.Generator.NumNodes` | src/terrain/generator/mod.rs:158-160 | Below `2^32` and congruent to the node count modulo `2^32`; exact while the count fits. |
| `TerrainGenerator.Generator.Subdivide` | src/terrain/generator/mod.rs:185-281 | Level up by one and jitter scale times 0.75. The arrays are split with links current, giving `2E + 3F` edges and `4F` faces. The tested shape is kept, with degrees as in the tests. |
| `TerrainGenerator.Generator.ConditionalRotateEdge` | src/terrain/generator/mod.rs:313-383 | The rotation as `RotateRecords` states it. Anything but `Done(true)` leaves the mesh unchanged, and the counts are kept. On a sound mesh it never panics, and an accepted flip whose faces are opposed leaves the mesh sound. |
| `TerrainGenerator.Generator.Distort` | src/terrain/generator/mod.rs:385-404 | Panics with no edges, whatever the degree. The arrays are the accepted flips, in the order listed in `flipped`, applied one after another. `true` means `degree` flips were accepted; `false` means fewer were and then a round probed every edge in vain, so no edge can be rotated. From a sound mesh with every accepted flip opposed, it never panics and the mesh stays sound. |
| `TerrainGenerator.Generator.Attempt` | src/terrain/generator/mod.rs:394 | One probe settles as `Settled` says: unchanged unless accepted, and on acceptance the arrays are `FlipAt`'s. |
| `TerrainGenerator.Generator.RotateFrom` | src/terrain/generator/mod.rs:392-400 | One round stops at probe `tries`, edge `at`, after every earlier probe was refused. On `true` the arrays are the flip of `at`; otherwise they are unchanged. A panic means `at`'s lookups fail, and `false` only comes once every edge has been refused. From a sound mesh it never panics, and an opposed accepted flip leaves the mesh sound. |
| `TerrainGenerator.RotationOnSound` | src/terrain/generator/mod.rs:313-383 | A rotation settles: its arrays are `FlipAt`'s on `true`, a sound mesh never panics, and an accepted opposed flip of a sound mesh leaves a sound mesh. |
| `TerrainGenerator.SettledIsRotation` | src/terrain/generator/mod.rs:313-383 | A settled probe meets every clause of the rotation: it panics exactly when a lookup fails, and reports `true` exactly when the flip is accepted. |
| `TerrainGenerator.Generator.ToPlanet` | src/terrain/generator/mod.rs:484-545 | `F + N` dual vertices: face centres, then one tile centre per node. Ring `i` is the closed walk around node `i` from its first face. Panics when some node has no face or its walk panics; hangs when a walk never returns. |
| `RingWalk.LeavingEdge` | src/terrain/generator/mod.rs:508-521 | `None` exactly when the node is not a corner of the face. |
| `RingWalk.NextFace` | src/terrain/generator/mod.rs:523-533 | A step lands only on a face that has the node as a corner. |
| `RingWalk.WalkRing` | src/terrain/generator/mod.rs:502-539 | `Closed` gives the closed walk, `Broken` means some step panics, and `Endless` means the walk never returns. |
| `RingWalk.RingFacesHaveNode` | src/terrain/generator/mod.rs:502-539 | Every face of a ring exists and has the node as a corner. |
| `RingWalk.NeverReturns` | src/terrain/generator/mod.rs:502-539 | A walk that survives `F + 1` steps without meeting the start never meets it. |
| `RingWalk.Periodic` | src/terrain/generator/mod.rs:502-539 | Once a face repeats, the walk cycles and never panics nor meets the start. |
| `TerrainMesh.RecordsEnds` | src/terrain/generator.rs:41-70 | Records built from ascending pairs give those pairs back. |
| `TerrainMesh.Relink` | src/terrain/generator.rs:105-125 | Fresh edge records and node links rebuilt: exact incident lists, positions and elevations kept. |
| `TerrainMesh.InitialRecords` | src/terrain/generator.rs:18-103 | The icosahedron with halved draws, node links current and the tested shape, degrees five. |
| `TerrainMesh.SubdivideRecords` | src/terrain/generator.rs:154-249 | The same split as the generator's, with node links only rebuilt. Same counts and degrees. |
| `TerrainMesh.Terrain.constructor` | src/terrain/generator.rs:18-103 | The icosahedron, node links current, the tested shape, level 0 and jitter scale 3. |
| `TerrainMesh.Terrain.CurrentLevel` | src/terrain/generator.rs:127-129 | The subdivision level. |
| `TerrainMesh.Terrain.Subdivide` | src/terrain/generator.rs:154-249 | Level up by one, jitter times 0.75, the split, node links current and the shape kept. |
| `TerrainMesh.Terrain.ConditionalRotateEdge` | src/terrain/generator.rs:276-280 | Panics exactly for an index past the end, and never rotates. |
| `TerrainMesh.Terrain.Distort` | src/terrain/generator.rs:282 | Changes nothing. |
| `IcosahedronMesh.MakeEdge` | src/icosahedron.rs:8-14 | The two indices, smaller first. |
| `IcosahedronMesh.MakeEdgeSymmetric` | src/icosahedron.rs:8-14 | Argument order does not matter. |
| `IcosahedronMesh.EdgesAtExact` | src/icosahedron.rs:135-145 | Exactly the edges touching the vertex, each as often as stored. |
| `IcosahedronMesh.EdgesAtDegree` | src/icosahedron.rs:135-145 | Without self-loops, as many edges as the vertex has edge ends. |
| `IcosahedronMesh.FacesAtExact` | src/icosahedron.rs:147-157 | Ascending, exactly the faces having the vertex as a corner. |
| `IcosahedronMesh.FacesAtIncident` | src/icosahedron.rs:147-157 | When no face repeats a corner, the same list the later meshes build. |
| `IcosahedronMesh.SubdivisionAligned` | src/icosahedron.rs:186-217 | Every new face's edge `i` joins its corners `i` and `i + 1`. |
| `IcosahedronMesh.NineEdgesAt` | src/icosahedron.rs:199-210 | New edge `9k + i` is the `i`-th edge added for face `k`. |
| `IcosahedronMesh.SharedHalfEdgeStoredTwice` | src/icosahedron.rs:176-210 | On the icosahedron one subdivision stores 180 edges; the half from corner 1 to vertex 12 is stored at both 4 and 37. |
| `IcosahedronMesh.SplitFace` | src/icosahedron.rs:187-215 | Appends the face's nine edges and gives its four faces. |
| `IcosahedronMesh.SplitFaces` | src/icosahedron.rs:176-218 | Nine edges and four faces per face, nothing shared. |
| `IcosahedronMesh.PushMidpoints` | src/icosahedron.rs:164-174 | The vertices are followed by one midpoint per edge, in edge order. |
| `IcosahedronMesh.Icosahedron.constructor` | src/icosahedron.rs:38-121 | The table: 12 vertices, 30 proper edges and 20 aligned faces. |
| `IcosahedronMesh.Icosahedron.FindEdges` | src/icosahedron.rs:135-145 | The edges with an endpoint at the vertex, in array order. |
| `IcosahedronMesh.Icosahedron.FindFaces` | src/icosahedron.rs:147-157 | The faces with the vertex as a corner, in array order. |
| `IcosahedronMesh.Icosahedron.Subdivide` | src/icosahedron.rs:159-222 | One midpoint per edge, `9F` edges and `4F` faces, all faces aligned. |
| `IcosahedronTable.TableProper` | src/icosahedron.rs:59-90 | The 30 table edges join distinct nodes below 12, smaller first. |
| `IcosahedronTable.TableAligned` | src/icosahedron.rs:92-113 | Every table face's edge slots join its consecutive corners. |
| `IcosahedronTable.TableClosed` | src/icosahedron.rs:92-113 | Every table edge lies on exactly two face slots. |
| `IcosahedronTable.TableDegrees` | src/icosahedron.rs:59-113 | Every node has five edges and five faces. |
| `IcosahedronTable.TableShape` | src/terrain/generator/mod.rs:558-578 | The level-0 mesh has the shape the tests check, with every degree five. |
| `PlanetBorders.PushesMembers` | src/terrain/planet/mod.rs:86-98 | A tile is pushed under a key exactly when the key joins two consecutive corners of its ring. |
| `PlanetBorders.TilesOfMembers` | src/terrain/planet/mod.rs:93-94 | The tiles listed under a key are those pushed with it. |
| `PlanetBorders.CollectCorner` | src/terrain/planet/mod.rs:89-96 | One push: the key's list gets the tile at its end. |
| `PlanetBorders.CollectRing` | src/terrain/planet/mod.rs:87-97 | After one ring the map holds every push so far. |
| `PlanetBorders.CollectKeys` | src/terrain/planet/mod.rs:86-98 | The map holds, for every key, exactly the tiles pushed under it. |
| `PlanetBorders.BorderListMembers` | src/terrain/planet/mod.rs:109-110 | A border is on a tile's list exactly when the tile is one of its sides. |
| `PlanetBorders.AddBorder` | src/terrain/planet/mod.rs:101-110 | The new border is `Border::new` for the key and its two tiles, pushed onto both. |
| `PlanetBorders.MakeBorders` | src/terrain/planet/mod.rs:100-111 | One border per key, with distinct corner pairs, each pushed onto both its tiles. |
| `PlanetIndex.MakeTiles` | src/terrain/planet/mod.rs:78-84 | Tile `i` gets ring `i` and centre `numCorners + i`. |
| `PlanetIndex.TilesAtMembers` | src/terrain/planet/mod.rs:114-120 | A tile is listed at a corner exactly when its ring passes through it. |
| `PlanetIndex.TilesAtSorted` | src/terrain/planet/mod.rs:114-120 | The tiles at a corner are in ascending order. |
| `PlanetIndex.TilesAtUnrepeated` | src/terrain/planet/mod.rs:114-120 | When no ring repeats a corner, no corner lists a tile twice. |
| `PlanetIndex.ListCorner` | src/terrain/planet/mod.rs:118 | The corner lists then hold the tiles so far, now including this corner of the tile. |
| `PlanetIndex.VertexTiles` | src/terrain/planet/mod.rs:114-120 | Each corner's list is exactly the tiles at it, in tile order. |
| `PlanetIndex.FirstOther` | src/terrain/planet/mod.rs:131-134 | The first candidate other than `t` whose ring has the edge, or `None` when there is none. |
| `PlanetIndex.NeighbourAt` | src/terrain/planet/mod.rs:130-140 | The first other tile at the corner with that side ends up listed. Lists stay sound (no repeats, never the tile itself) and only grow. |
| `PlanetIndex.NeighboursOfTile` | src/terrain/planet/mod.rs:127-141 | Every side of the tile's ring is covered by its list. |
| `PlanetIndex.NeighboursAtCorner` | src/terrain/planet/mod.rs:125-142 | Every tile at the corner is covered. |
| `PlanetIndex.TileNeighbours` | src/terrain/planet/mod.rs:122-143 | The lists are sound (no repeats, not the tile itself, adjacent tiles only) and cover every side at every corner. |
| `PlanetPlates.ResetPlateIds` | src/terrain/planet/mod.rs:220-223 | Every plate id becomes 0 and nothing else changes. |
| `PlanetPlates.AnyClaimed` | src/terrain/planet/mod.rs:235-242 | True exactly when a tile at the corner is claimed. |
| `PlanetPlates.ClaimCorner` | src/terrain/planet/mod.rs:249-256 | A new plate with id `|plates| + 1` holding the corner's tiles, whose ids are set, keeping ids consistent. |
| `PlanetPlates.QueueFree` | src/terrain/planet/mod.rs:259-264 | Queues exactly the still-free neighbours of the tile, with the plate's id. |
| `PlanetPlates.QueueCorner` | src/terrain/planet/mod.rs:258-265 | Queues the free neighbours of every corner tile. |
| `PlanetPlates.SeedPlate` | src/terrain/planet/mod.rs:249-267 | A new consistent plate, a valid queue, and every claimed tile's neighbours claimed or queued. |
| `PlanetPlates.InitializePlates` | src/terrain/planet/mod.rs:219-274 | Ids are reset, then at most `numPlates` consistent plates, each a corner's tiles, with a valid frontier queue. Fewer plates only after 10000 refused draws in a row. |
| `PlanetPlates.QueueIndex` | src/terrain/planet/mod.rs:315 | The floor of `r * r * len`, a valid queue position. |
| `PlanetPlates.UnclaimedClaim` | src/terrain/planet/mod.rs:318-319 | Claiming a free tile leaves one fewer free tile. |
| `PlanetPlates.GrowStep` | src/terrain/planet/mod.rs:316-326 | A free tile joins the plate and its free neighbours are queued; ids stay consistent. |
| `PlanetPlates.ClaimConsistent` | src/terrain/planet/mod.rs:318-319 | Claiming a free tile on both sides keeps ids consistent. |
| `PlanetPlates.GrowPlates` | src/terrain/planet/mod.rs:310-331 | Only plate ids change, ids stay consistent, there are at most `numPlates` plates, and no claimed tile has a free neighbour. |
| `PlanetPlates.TakeAndGrow` | src/terrain/planet/mod.rs:313-329 | One turn keeps the invariant and decreases free tiles plus queue length. |
| `PlanetPlates.TakeOut` | src/terrain/planet/mod.rs:316 | Removing an entry keeps the queue valid. |
| `PlanetMerge.TotalPermutation` | src/terrain/planet/mod.rs:339 | The tiles of all plates do not depend on their order. |
| `PlanetMerge.Insert` | src/terrain/planet/mod.rs:339 | The result is the list plus `x`, as a multiset, one longer. |
| `PlanetMerge.InsertSorted` | src/terrain/planet/mod.rs:339 | Inserting into a list sorted by size keeps it sorted. |
| `PlanetMerge.SortBySize` | src/terrain/planet/mod.rs:339 | A permutation of the plates, sorted by size. |
| `PlanetMerge.SortSorted` | src/terrain/planet/mod.rs:339 | A list already sorted by size is left unchanged. |
| `PlanetMerge.SwapRemoveFirst` | src/terrain/planet/mod.rs:375 | One plate fewer: as a multiset, exactly the plates after the first. |
| `PlanetMerge.Merge` | src/terrain/planet/mod.rs:373-375 | One plate fewer; `MergeTiles` and `MergeIds` state what it keeps. |
| `PlanetMerge.MergeTiles` | src/terrain/planet/mod.rs:373-375 | A merge keeps every tile, with repetitions. |
| `PlanetMerge.MergeIds` | src/terrain/planet/mod.rs:373-375 | A merge keeps every id except the first plate's. |
| `PlanetMerge.PlatesTouch` | src/terrain/planet/mod.rs:352-360 | True exactly when a tile of one plate has a neighbour in the other. |
| `PlanetMerge.FindNeighbourPlate` | src/terrain/planet/mod.rs:347-364 | The first later plate touching the first, or `None` when none does. |
| `PlanetMerge.MergeRound` | src/terrain/planet/mod.rs:339-375 | A round keeps the tiles and takes ids only away. |
| `PlanetMerge.MergePlates` | src/terrain/planet/mod.rs:333-378 | `Done`: plates sorted by size, each at least the minimum size, same tiles, ids a subset. `Panic`: no plates, or stuck with a smallest plate touching no other. |
| `PlanetMerge.Owner` | src/terrain/planet/mod.rs:299-308 | Either the tile's old id or the id of a plate listing the tile. |
| `PlanetMerge.AssignPlate` | src/terrain/planet/mod.rs:301-305 | Every tile of the plate takes its id; other tiles are unchanged. |
| `PlanetMerge.AssignPlates` | src/terrain/planet/mod.rs:299-308 | Every tile takes the id of the last plate listing it; other fields unchanged. |
| `PlanetMerge.OwnerOfListed` | src/terrain/planet/mod.rs:299-308 | A tile listed once overall takes the id of the plate listing it. |
| `Planets.MapReady` | src/terrain/planet/mod.rs:100-105 | Under the source's check, every key is ordered and lists two tiles. |
| `Planets.BorderOnRings` | src/terrain/planet/mod.rs:86-111 | Every border joins two consecutive corners of both its tiles' rings. |
| `Planets.SideHasBorder` | src/terrain/planet/mod.rs:86-111 | Every side of every ring is a border listing that ring's tile. |
| `Planets.SideHasNeighbour` | src/terrain/planet/mod.rs:122-143 | Every side shared with another tile is met by a listed neighbour. |
| `Planets.BuildTiles` | src/terrain/planet/mod.rs:73-111 | Tiles with their rings and exact border lists, borders on the rings, every side bordered. |
| `Planets.Build` | src/terrain/planet/mod.rs:73-143 | As `BuildTiles`, plus exact corner lists and sound, covering neighbour lists. |
| `Planets.ListedOnceOverall` | src/terrain/planet/mod.rs:249-327 | With consistent ids and no repeats within a plate, no tile is listed twice overall. |
| `Planets.CornersOfRings` | src/terrain/planet/mod.rs:114-120 | When no ring repeats a corner, no corner list repeats a tile. |
| `Planets.OwnersCarryIds` | src/terrain/planet/mod.rs:299-308 | After relabelling by plates listing each tile once, every listed tile carries its plate's id. |
| `Planets.MergeAndAssign` | src/terrain/planet/mod.rs:333-382 | `Panic` when the merge is stuck. `Done` when it finished and the tiles are relabelled; listed tiles carry their plate's id. |
| `Planets.Planet.constructor` | src/terrain/planet/mod.rs:73-171 | All elevations 0 and scale 10. Tiles with rings, centres and exact borders, with distinct borders on the rings. Exact corner lists, sound neighbour lists, at most 27 consistent plates, and no claimed tile with a free neighbour. |
| `Planets.Planet.GrowPlates` | src/terrain/planet/mod.rs:310-331 | Only plate ids, plates and their count change; ids stay consistent and no claimed tile has a free neighbour. |
| `Planets.Planet.MergePlates` | src/terrain/planet/mod.rs:333-382 | On `Panic` the planet is unchanged. On `Done` it is merged and relabelled, and the plate count is left as it was. |

## Left out

- Floating-point geometry is not modelled. This covers `relax`, `face_midpoint`, `calculate_elevations`, `normal`, `slerp`, `normalize`, `tile_normal`, `tile_midpoint`, `tile_border_points`, `tile_elevation` and `get_elevation_scale`. Midpoints and positions are symbolic, and the distance and dot-product tests of `rotation_predicate` (src/terrain/generator/mod.rs:293-310) are the `geometry` parameter.
- Plate movement (`calculate_movement_vector`, `assign_plate_to_tile`'s movement vector) and `Plate::new`'s random elevation, axis and speed are not modelled; a plate is its id and its tiles.
- Random numbers are parameters: elevation draws, edge and corner draws, and queue picks. `rand(max)` is modelled on a draw in `[0, 1)`.
- `PlanetPlates.QueueIndex`: the queue position is computed on exact reals, not f32, so f32 rounding of `r * r * len` is not modelled.
- Integer widths: indices are `nat`, and u32 overflow on index casts is not modelled. The u32 casts of `num_edges` and `num_nodes` are modelled.
- TerrainGenerator.Generator.Subdivide and TerrainMesh.Terrain.Subdivide: the level is a `nat`, while the source's `level` is a `u8`, so the overflow of `self.level += 1` after 255 subdivisions (src/terrain/generator/mod.rs:186) is not modelled.
- Vector: `Vec3` components are unbounded `int`, while the source's tests use `i32` (src/math/vector.rs:272-283), so i32 overflow is not modelled.
- `Vector.LengthSquaredIsSelfDot`: stated on integer vectors, while the source's `length_squared` is f32.
- Panics that have no value to return are preconditions. These are:
  - `Planet::new` with more rings than vertices, an empty ring, or a ring corner past the corners;
  - a key not listed by exactly two tiles (line 103);
  - `initialize_plates` with no corners;
  - `Icosahedron::subdivide` with an edge end past the vertices.
- Panics in `conditional_rotate_edge`, `distort`, `to_planet` and `merge_plates` are modelled as a `Panic` outcome. When `merge_plates` panics, the model leaves the planet as it was, so nothing of a partial run is kept.
- The iteration order of the border `HashMap` is an arbitrary choice of key, so every property holds for any order.
- `merge_plates` does not update `num_plates` and does not renumber ids; the model keeps both as the source does.
- `Node::add_face` is taken to append, like `add_edge`.
- src/terrain/generator/node.rs and src/terrain/generator/face.rs are not part of this model. The generator's records are taken to be those of src/terrain/node.rs and src/terrain/face.rs.
- src/terrain/types.rs is not part of this model. `opposite_node_index` is taken to return the first slot whose corner is neither end, and triple indexing to work modulo 3.
- `sorted_pair` is not part of this model; it is taken to order a pair like `make_edge` and `Edge::new`.
- `EdgeFlip.Retain`: its own contract only bounds the length. `EdgeFlip.RetainCounts` states its content.
- `to_planet` in the model stops a walk after `F + 1` steps and reports `Hangs`, where the source loops for ever.
- TerrainGenerator.Generator.ToPlanet: it returns the dual vertices and rings, and stops before `Planet::new(vertices, borders)` at src/terrain/generator/mod.rs:546. `Planets.Planet.constructor` models that call, with its `assert!` as the requires `Paired` and its plate growth. The two are not chained, and no lemma proves that the rings of a sound mesh are `Paired`, so the panic of that `assert!` and the plate growth are not part of `ToPlanet`'s contract.
- FlipShape.FlipKeepsSound, TerrainGenerator.Generator.ConditionalRotateEdge and TerrainGenerator.Generator.Distort: soundness is kept only for flips whose plan is `Opposed`. The two faces must run along the edge in opposite directions and have different far corners. The geometric test is a parameter, so the model cannot derive this. Without it a flip can join a node to itself, or rewrite two faces that run the same way along the edge into faces whose slots no longer match their edges.
- FlipShape.Sound: back-link lists agree with the mesh as multisets, not in ascending order. A flip appends at the end of the far corners' lists, so after a flip the lists `assign_links_to_nodes` builds and the flipped lists agree only up to order.
- PlanetMerge.Merge: its own contract states only the length; `MergeTiles` and `MergeIds` state what a merge keeps.
- Subdivision.SplitPairs, Subdivision.InnerPairs and Subdivision.QuarterFaces: their own contracts state only lengths; `SplitPairsAt`, `InnerPairsAt` and the degree and naming lemmas state their content.
- Console output (`println!`), `stat`, rendering and the program entry point are not modelled.

## Findings

| source | as written | input that shows it | evidently intended | confidence | as-written member | corrected member |
|---|---|---|---|---|---|---|
| src/icosahedron.rs:176-215 | `subdivide` adds nine edges per face with no lookup, so an edge shared by two faces is stored once per face | the icosahedron: faces 0 and 4 both add the half from corner 1 to new vertex 12 (indices 4 and 37); 180 records for 120 edges | each split edge stored once, `2E + 3F` edges as the capacity at line 176 reserves, as the generator's `find_edge` does | high, not executed | `IcosahedronMesh.SharedHalfEdgeStoredTwice` | `Subdivision.SubdivisionKeepsShape` |
