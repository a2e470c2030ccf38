/**
 * The first mesh of the project (`Icosahedron`, src/icosahedron.rs):
 * vertices, edges as bare endpoint pairs and faces.  Its `subdivide` adds
 * one vertex per edge but, unlike the later meshes, never looks an edge up:
 * every face adds nine edges of its own, so edges shared by two faces are
 * stored twice.
 */
module IcosahedronMesh {
  import opened Pairs
  import opened Vector
  import opened MeshFace
  import opened MeshTopology
  import IcosahedronTable

  /** A point (`Point3<f32>`), carried as an opaque triple of reals. */
  type Vertex = Vec3<real>

  /** `make_edge` (lines 8-14): the two indices, smaller first. */
  function MakeEdge(a: nat, b: nat): (e: Pair)
    ensures e == SortedPair(a, b)
    ensures e.0 <= e.1 && (e == (a, b) || e == (b, a))
  {
    if a > b then (b, a) else (a, b)
  }

  /** The order of the arguments does not matter. */
  lemma MakeEdgeSymmetric(a: nat, b: nat)
    ensures MakeEdge(a, b) == MakeEdge(b, a)
  {
    SortedPairSymmetric(a, b);
  }

  // ---------------------------------------------------------------------------
  // Lookups

  /** The edges with an endpoint equal to `v`, in array order (what `find_edges` collects). */
  function EdgesAt(edges: seq<Pair>, v: nat): (r: seq<Pair>)
    ensures |r| <= |edges|
    decreases |edges|
  {
    if edges == [] then []
    else
      var k := |edges| - 1;
      EdgesAt(edges[..k], v) + (if edges[k].0 == v || edges[k].1 == v then [edges[k]] else [])
  }

  /** The indices of the faces having `v` as a corner, in array order (what `find_faces` collects). */
  function FacesAt(faces: seq<Face>, v: nat): (r: seq<nat>)
    ensures forall i :: 0 <= i < |r| ==> r[i] < |faces|
    decreases |faces|
  {
    if faces == [] then []
    else
      var k := |faces| - 1;
      FacesAt(faces[..k], v) + (if Occurrences(faces[k].points, v) > 0 then [k] else [])
  }

  /** `find_edges` collects exactly the edges touching `v`, each as often as it is stored. */
  lemma {:induction false} EdgesAtExact(edges: seq<Pair>, v: nat)
    ensures forall p :: p in EdgesAt(edges, v) <==> p in edges && (p.0 == v || p.1 == v)
    ensures multiset(EdgesAt(edges, v)) <= multiset(edges)
    decreases |edges|
  {
    if edges != [] {
      var k := |edges| - 1;
      EdgesAtExact(edges[..k], v);
      assert edges == edges[..k] + [edges[k]];
    }
  }

  /** Without self-loops, `find_edges` finds as many edges as `v` has edge ends. */
  lemma {:induction false} EdgesAtDegree(edges: seq<Pair>, v: nat)
    requires forall e :: 0 <= e < |edges| ==> edges[e].0 != edges[e].1
    ensures |EdgesAt(edges, v)| == EdgeDegree(edges, v)
    decreases |edges|
  {
    if edges != [] {
      var k := |edges| - 1;
      EdgesAtDegree(edges[..k], v);
    }
  }

  /** `find_faces` lists, ascending, exactly the faces having `v` as a corner. */
  lemma {:induction false} FacesAtExact(faces: seq<Face>, v: nat)
    ensures StrictlyIncreasing(FacesAt(faces, v))
    ensures forall k :: k in FacesAt(faces, v) <==> 0 <= k < |faces| && Occurrences(faces[k].points, v) > 0
    decreases |faces|
  {
    if faces != [] {
      var k := |faces| - 1;
      FacesAtExact(faces[..k], v);
      forall j | 0 <= j < k
        ensures faces[..k][j] == faces[j]
      {
      }
    }
  }

  /** When no face repeats a corner, `find_faces` agrees with the face list the later meshes build. */
  lemma {:induction false} FacesAtIncident(faces: seq<Face>, v: nat)
    requires forall k :: 0 <= k < |faces| ==> Occurrences(faces[k].points, v) <= 1
    ensures FacesAt(faces, v) == IncidentFaces(faces, v)
    decreases |faces|
  {
    if faces != [] {
      var k := |faces| - 1;
      FacesAtIncident(faces[..k], v);
      var c := Occurrences(faces[k].points, v);
      assert c > 0 ==> Repeat(k, c) == [k];
    }
  }

  // ---------------------------------------------------------------------------
  // Subdivision

  /** The nine `add_edge` calls for one face (lines 199-210), in call order. */
  function NineEdges(numVertices: nat, f: Face): seq<Pair>
  {
    var p0, p1, p2 := f.points.x, f.points.y, f.points.z;
    var n0, n1, n2 := numVertices + f.edges.x, numVertices + f.edges.y, numVertices + f.edges.z;
    [ MakeEdge(p0, n0), MakeEdge(n0, p1), MakeEdge(p1, n1), MakeEdge(n1, p2), MakeEdge(p2, n2),
      MakeEdge(n2, p0), MakeEdge(n0, n1), MakeEdge(n1, n2), MakeEdge(n2, n0) ]
  }

  /** The four faces pushed for one face (lines 212-215), whose nine edges start at index `base`. */
  function FourFaces(numVertices: nat, f: Face, base: nat): seq<Face>
  {
    var p0, p1, p2 := f.points.x, f.points.y, f.points.z;
    var n0, n1, n2 := numVertices + f.edges.x, numVertices + f.edges.y, numVertices + f.edges.z;
    [ Face(Vec3(p0, n0, n2), Vec3(base, base + 8, base + 5)),
      Face(Vec3(n0, p1, n1), Vec3(base + 1, base + 2, base + 6)),
      Face(Vec3(p2, n2, n1), Vec3(base + 4, base + 7, base + 3)),
      Face(Vec3(n0, n1, n2), Vec3(base + 6, base + 7, base + 8)) ]
  }

  /** All new edges: nine per face, in face order. */
  function AllNineEdges(numVertices: nat, faces: seq<Face>): (r: seq<Pair>)
    ensures |r| == 9 * |faces|
    decreases |faces|
  {
    if faces == [] then []
    else
      var k := |faces| - 1;
      AllNineEdges(numVertices, faces[..k]) + NineEdges(numVertices, faces[k])
  }

  /** All new faces: four per face, face `k`'s edges starting at `9k`. */
  function AllFourFaces(numVertices: nat, faces: seq<Face>): (r: seq<Face>)
    ensures |r| == 4 * |faces|
    decreases |faces|
  {
    if faces == [] then []
    else
      var k := |faces| - 1;
      AllFourFaces(numVertices, faces[..k]) + FourFaces(numVertices, faces[k], 9 * k)
  }

  /** The new vertices: the normalised midpoint of every edge, in edge order (lines 164-174). */
  function Midpoints(vertices: seq<Vertex>, edges: seq<Pair>, mid: (Vertex, Vertex) -> Vertex): (r: seq<Vertex>)
    requires forall e :: 0 <= e < |edges| ==> edges[e].0 < |vertices| && edges[e].1 < |vertices|
    ensures |r| == |edges|
  {
    seq(|edges|, e requires 0 <= e < |edges| => mid(vertices[edges[e].0], vertices[edges[e].1]))
  }

  /** The defining step of `AllNineEdges` and `AllFourFaces`, for the last face. */
  lemma LastFace(numVertices: nat, g: seq<Face>)
    requires g != []
    ensures var k := |g| - 1;
      && AllNineEdges(numVertices, g) == AllNineEdges(numVertices, g[..k]) + NineEdges(numVertices, g[k])
      && AllFourFaces(numVertices, g) == AllFourFaces(numVertices, g[..k]) + FourFaces(numVertices, g[k], 9 * k)
  {
  }

  /** Taking one more face of `faces` adds its nine edges and its four faces. */
  lemma FacesStep(numVertices: nat, faces: seq<Face>, i: nat)
    requires i < |faces|
    ensures AllNineEdges(numVertices, faces[..i + 1]) == AllNineEdges(numVertices, faces[..i]) + NineEdges(numVertices, faces[i])
    ensures AllFourFaces(numVertices, faces[..i + 1]) == AllFourFaces(numVertices, faces[..i]) + FourFaces(numVertices, faces[i], 9 * i)
  {
    var g := faces[..i + 1];
    assert g[..i] == faces[..i];
    LastFace(numVertices, g);
  }

  /** The four faces of `f` are aligned with any edge array holding its nine edges from `base` on. */
  lemma FourFacesAlignedIn(all: seq<Pair>, numVertices: nat, f: Face, base: nat)
    requires
      var p0, p1, p2 := f.points.x, f.points.y, f.points.z;
      var n0, n1, n2 := numVertices + f.edges.x, numVertices + f.edges.y, numVertices + f.edges.z;
      && base + 9 <= |all|
      && all[base] == SortedPair(p0, n0) && all[base + 1] == SortedPair(n0, p1)
      && all[base + 2] == SortedPair(p1, n1) && all[base + 3] == SortedPair(n1, p2)
      && all[base + 4] == SortedPair(p2, n2) && all[base + 5] == SortedPair(n2, p0)
      && all[base + 6] == SortedPair(n0, n1) && all[base + 7] == SortedPair(n1, n2)
      && all[base + 8] == SortedPair(n2, n0)
    ensures var q := FourFaces(numVertices, f, base);
      FaceAligned(all, q[0]) && FaceAligned(all, q[1]) && FaceAligned(all, q[2]) && FaceAligned(all, q[3])
  {
    var n0, n1, n2 := numVertices + f.edges.x, numVertices + f.edges.y, numVertices + f.edges.z;
    SortedPairSymmetric(n0, n2);
    SortedPairSymmetric(n0, n1);
    SortedPairSymmetric(n1, n2);
  }

  /** Appending a face's nine edges to any edge array aligns its four faces there. */
  lemma FourFacesAligned(prefix: seq<Pair>, numVertices: nat, f: Face)
    ensures Aligned(prefix + NineEdges(numVertices, f), FourFaces(numVertices, f, |prefix|))
  {
    var nine := NineEdges(numVertices, f);
    var all := prefix + nine;
    forall j | 0 <= j < 9
      ensures all[|prefix| + j] == nine[j]
    {
    }
    FourFacesAlignedIn(all, numVertices, f, |prefix|);
    var q := FourFaces(numVertices, f, |prefix|);
    forall j | 0 <= j < |q|
      ensures FaceAligned(all, q[j])
    {
      assert j == 0 || j == 1 || j == 2 || j == 3;
    }
  }

  /** Faces aligned with some edges stay aligned when more edges are appended. */
  lemma AlignedExtended(pairs: seq<Pair>, more: seq<Pair>, faces: seq<Face>)
    requires Aligned(pairs, faces)
    ensures Aligned(pairs + more, faces)
  {
    forall k | 0 <= k < |faces|
      ensures FaceAligned(pairs + more, faces[k])
    {
      var f := faces[k];
      assert (pairs + more)[f.edges.x] == pairs[f.edges.x];
      assert (pairs + more)[f.edges.y] == pairs[f.edges.y];
      assert (pairs + more)[f.edges.z] == pairs[f.edges.z];
    }
  }

  /**
   * Whatever the old faces were, every new face's edge `i` joins its
   * corners `i` and `i + 1`: each face adds its own edges, so the check of
   * the later meshes' tests holds here by construction.
   */
  lemma {:induction false} SubdivisionAligned(numVertices: nat, faces: seq<Face>, n: nat)
    requires n <= |faces|
    ensures Aligned(AllNineEdges(numVertices, faces[..n]), AllFourFaces(numVertices, faces[..n]))
    decreases n
  {
    if n > 0 {
      var k := n - 1;
      SubdivisionAligned(numVertices, faces, k);
      FacesStep(numVertices, faces, k);
      var prefix := AllNineEdges(numVertices, faces[..k]);
      var nine := NineEdges(numVertices, faces[k]);
      AlignedExtended(prefix, nine, AllFourFaces(numVertices, faces[..k]));
      FourFacesAligned(prefix, numVertices, faces[k]);
      AlignedAppend(prefix + nine, AllFourFaces(numVertices, faces[..k]), FourFaces(numVertices, faces[k], 9 * k));
    }
  }

  /** New edge `9k + i` is the `i`-th edge added for face `k`. */
  lemma {:induction false} NineEdgesAt(numVertices: nat, faces: seq<Face>, k: nat, i: nat)
    requires k < |faces| && i < 9
    ensures 9 * k + i < |AllNineEdges(numVertices, faces)|
    ensures AllNineEdges(numVertices, faces)[9 * k + i] == NineEdges(numVertices, faces[k])[i]
    decreases |faces|
  {
    var m := |faces| - 1;
    var prefix, last := AllNineEdges(numVertices, faces[..m]), NineEdges(numVertices, faces[m]);
    LastFace(numVertices, faces);
    assert |last| == 9;
    if k < m {
      NineEdgesAt(numVertices, faces[..m], k, i);
      assert faces[..m][k] == faces[k];
      assert (prefix + last)[9 * k + i] == prefix[9 * k + i];
    } else {
      assert (prefix + last)[9 * k + i] == last[i];
    }
  }

  /**
   * A half-edge shared by two faces is stored twice.  On the icosahedron,
   * faces 0 and 4 share edge 0 (corners 0 and 1), and both add the half from
   * corner 1 to the new vertex 12, at indices 4 and 37: one subdivision
   * leaves 180 edge records for 120 distinct edges.
   */
  lemma SharedHalfEdgeStoredTwice()
    ensures var e := AllNineEdges(12, IcosahedronTable.Faces());
      |e| == 180 && e[4] == (1, 12) && e[37] == (1, 12)
  {
    NineEdgesAt(12, IcosahedronTable.Faces(), 0, 4);
    NineEdgesAt(12, IcosahedronTable.Faces(), 4, 1);
  }

  /** One turn of the face loop (lines 187-215): the nine `add_edge` calls, then the four pushes. */
  method SplitFace(numVertices: nat, f: Face, edges: seq<Pair>) returns (edges': seq<Pair>, quarter: seq<Face>)
    ensures edges' == edges + NineEdges(numVertices, f)
    ensures quarter == FourFaces(numVertices, f, |edges|)
  {
    var p0, p1, p2 := f.points.x, f.points.y, f.points.z;
    var n0, n1, n2 := numVertices + f.edges.x, numVertices + f.edges.y, numVertices + f.edges.z;
    var base := |edges|;
    edges' := edges + [MakeEdge(p0, n0), MakeEdge(n0, p1), MakeEdge(p1, n1), MakeEdge(n1, p2),
                       MakeEdge(p2, n2), MakeEdge(n2, p0), MakeEdge(n0, n1), MakeEdge(n1, n2), MakeEdge(n2, n0)];
    quarter := [ Face(Vec3(p0, n0, n2), Vec3(base, base + 8, base + 5)),
                 Face(Vec3(n0, p1, n1), Vec3(base + 1, base + 2, base + 6)),
                 Face(Vec3(p2, n2, n1), Vec3(base + 4, base + 7, base + 3)),
                 Face(Vec3(n0, n1, n2), Vec3(base + 6, base + 7, base + 8)) ];
  }

  /** The face loop of `subdivide` (lines 176-218): nine edges and four faces per face, nothing shared. */
  method SplitFaces(numVertices: nat, faces: seq<Face>) returns (newEdges: seq<Pair>, newFaces: seq<Face>)
    ensures newEdges == AllNineEdges(numVertices, faces)
    ensures newFaces == AllFourFaces(numVertices, faces)
  {
    newEdges, newFaces := [], [];
    var i := 0;
    while i < |faces|
      invariant 0 <= i <= |faces|
      invariant newEdges == AllNineEdges(numVertices, faces[..i])
      invariant newFaces == AllFourFaces(numVertices, faces[..i])
    {
      var quarter;
      newEdges, quarter := SplitFace(numVertices, faces[i], newEdges);
      newFaces := newFaces + quarter;
      FacesStep(numVertices, faces, i);
      i := i + 1;
    }
    assert faces[..i] == faces;
  }

  /** The vertex loop of `subdivide` (lines 164-174): push one midpoint per edge, in edge order. */
  method PushMidpoints(vertices: seq<Vertex>, edges: seq<Pair>, mid: (Vertex, Vertex) -> Vertex)
    returns (grown: seq<Vertex>)
    requires forall e :: 0 <= e < |edges| ==> edges[e].0 < |vertices| && edges[e].1 < |vertices|
    ensures grown == vertices + Midpoints(vertices, edges, mid)
  {
    grown := vertices;
    var i := 0;
    while i < |edges|
      invariant 0 <= i <= |edges|
      invariant |grown| == |vertices| + i && grown[..|vertices|] == vertices
      invariant forall j :: 0 <= j < i ==> grown[|vertices| + j] == mid(vertices[edges[j].0], vertices[edges[j].1])
    {
      var e := edges[i];
      grown := grown + [mid(grown[e.0], grown[e.1])];
      i := i + 1;
    }
    var r := vertices + Midpoints(vertices, edges, mid);
    assert forall n :: 0 <= n < |grown| ==> grown[n] == r[n] by {
      forall n | 0 <= n < |grown|
        ensures grown[n] == r[n]
      {
        if n < |vertices| {
          assert grown[n] == grown[..|vertices|][n];
        }
      }
    }
  }

  class Icosahedron {
    var vertices: seq<Vertex>
    var edges: seq<Pair>
    var faces: seq<Face>

    /**
     * `Icosahedron::new` (lines 38-121): twelve vertices, thirty edges each
     * smaller end first, twenty faces whose edge slots match their corners.
     */
    constructor (du: real, dv: real)
      ensures vertices == IcosahedronTable.Points(du, dv)
      ensures edges == IcosahedronTable.EdgePairs() && faces == IcosahedronTable.Faces()
      ensures |vertices| == 12 && |edges| == 30 && |faces| == 20
      ensures ProperEdges(|vertices|, edges) && Aligned(edges, faces)
    {
      vertices := IcosahedronTable.Points(du, dv);
      edges := IcosahedronTable.EdgePairs();
      faces := IcosahedronTable.Faces();
      new;
      IcosahedronTable.TableShape();
    }

    /** `find_edges` (lines 135-145): every edge with an endpoint equal to `vertex`, in array order. */
    method FindEdges(vertex: nat) returns (r: seq<Pair>)
      ensures r == EdgesAt(edges, vertex)
    {
      r := [];
      var i := 0;
      while i < |edges|
        invariant 0 <= i <= |edges|
        invariant r == EdgesAt(edges[..i], vertex)
      {
        var e := edges[i];
        if e.0 == vertex || e.1 == vertex {
          r := r + [e];
        }
        assert edges[..i + 1][..i] == edges[..i];
        i := i + 1;
      }
      assert edges[..|edges|] == edges;
    }

    /** `find_faces` (lines 147-157): the index of every face having `vertex` as a corner, in array order. */
    method FindFaces(vertex: nat) returns (r: seq<nat>)
      ensures r == FacesAt(faces, vertex)
    {
      r := [];
      var i := 0;
      while i < |faces|
        invariant 0 <= i <= |faces|
        invariant r == FacesAt(faces[..i], vertex)
      {
        var f := faces[i];
        if f.points.x == vertex || f.points.y == vertex || f.points.z == vertex {
          r := r + [i];
        }
        assert faces[..i + 1][..i] == faces[..i];
        i := i + 1;
      }
      assert faces[..|faces|] == faces;
    }

    /**
     * `subdivide` (lines 159-222): one vertex per edge, the one for edge `e`
     * at `V + e` (`mid` is the normalised midpoint), then nine edges and
     * four faces per face.  The edge ends must name vertices, as the
     * midpoint lookup indexes them.
     */
    method Subdivide(mid: (Vertex, Vertex) -> Vertex)
      requires forall e :: 0 <= e < |edges| ==> edges[e].0 < |vertices| && edges[e].1 < |vertices|
      modifies this
      ensures vertices == old(vertices) + Midpoints(old(vertices), old(edges), mid)
      ensures edges == AllNineEdges(old(|vertices|), old(faces))
      ensures faces == AllFourFaces(old(|vertices|), old(faces))
      ensures |vertices| == old(|vertices|) + old(|edges|)
      ensures |edges| == 9 * old(|faces|) && |faces| == 4 * old(|faces|)
      ensures Aligned(edges, faces)
    {
      var numVertices := |vertices|;
      vertices := PushMidpoints(vertices, edges, mid);
      var newEdges, newFaces := SplitFaces(numVertices, faces);
      SubdivisionAligned(numVertices, faces, |faces|);
      assert faces[..|faces|] == faces;
      edges := newEdges;
      faces := newFaces;
    }
  }
}
