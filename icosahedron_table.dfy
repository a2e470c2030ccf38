/**
 * The level-0 icosahedron shared by the three mesh builders
 * (src/terrain/generator/mod.rs:38-101, src/terrain/generator.rs:28-91,
 * src/icosahedron.rs:45-111): 12 nodes, 30 edges listed as sorted endpoint
 * pairs and 20 faces.  Node positions are written with the two coordinates
 * `du` and `dv`, which the source computes from the golden ratio in floating
 * point; they are parameters here.
 *
 * The facts about the table are proved by evaluation.  To keep each proof
 * small, the table is also spelled as short lists (`PairsAt0`, `PairsAt10`,
 * ... and `FacesAt0`, `FacesAt5`, ...) whose concatenation is shown equal to
 * the sequences; every count is then taken one list and one node or edge at
 * a time and added up.
 */
module IcosahedronTable {
  import opened Pairs
  import opened Vector
  import opened MeshFace
  import opened MeshTopology

  /** The 12 corner positions, in table order. */
  function Points(du: real, dv: real): (ps: seq<Vec3<real>>)
    ensures |ps| == 12
  {
    [ Vec3(0.0, dv, du), Vec3(0.0, dv, -du), Vec3(0.0, -dv, du), Vec3(0.0, -dv, -du),
      Vec3(du, 0.0, dv), Vec3(-du, 0.0, dv), Vec3(du, 0.0, -dv), Vec3(-du, 0.0, -dv),
      Vec3(dv, du, 0.0), Vec3(dv, -du, 0.0), Vec3(-dv, du, 0.0), Vec3(-dv, -du, 0.0) ]
  }

  /** The 30 edges as (smaller, larger) node pairs, in table order. */
  function EdgePairs(): seq<Pair>
  {
    [(0, 1), (0, 4), (0, 5), (0, 8), (0, 10)] +
    [(1, 6), (1, 7), (1, 8), (1, 10), (2, 3)] +
    [(2, 4), (2, 5), (2, 9), (2, 11), (3, 6)] +
    [(3, 7), (3, 9), (3, 11), (4, 5), (4, 8)] +
    [(4, 9), (5, 10), (5, 11), (6, 7), (6, 8)] +
    [(6, 9), (7, 10), (7, 11), (8, 9), (10, 11)]
  }

  /** The 20 faces: corners and the edges between consecutive corners, in table order. */
  function Faces(): seq<Face>
  {
    [ Face(Vec3(0, 8, 1), Vec3(3, 7, 0)),
      Face(Vec3(0, 5, 4), Vec3(2, 18, 1)),
      Face(Vec3(0, 10, 5), Vec3(4, 21, 2)),
      Face(Vec3(0, 4, 8), Vec3(1, 19, 3)),
      Face(Vec3(0, 1, 10), Vec3(0, 8, 4)) ] +
    [ Face(Vec3(1, 8, 6), Vec3(7, 24, 5)),
      Face(Vec3(1, 6, 7), Vec3(5, 23, 6)),
      Face(Vec3(1, 7, 10), Vec3(6, 26, 8)),
      Face(Vec3(2, 11, 3), Vec3(13, 17, 9)),
      Face(Vec3(2, 9, 4), Vec3(12, 20, 10)) ] +
    [ Face(Vec3(2, 4, 5), Vec3(10, 18, 11)),
      Face(Vec3(2, 3, 9), Vec3(9, 16, 12)),
      Face(Vec3(2, 5, 11), Vec3(11, 22, 13)),
      Face(Vec3(3, 7, 6), Vec3(15, 23, 14)),
      Face(Vec3(3, 11, 7), Vec3(17, 27, 15)) ] +
    [ Face(Vec3(3, 6, 9), Vec3(14, 25, 16)),
      Face(Vec3(4, 9, 8), Vec3(20, 28, 19)),
      Face(Vec3(5, 10, 11), Vec3(21, 29, 22)),
      Face(Vec3(6, 8, 9), Vec3(24, 28, 25)),
      Face(Vec3(7, 11, 10), Vec3(27, 29, 26)) ]
  }

  // ---------------------------------------------------------------------------
  // The same table as short lists

  datatype List<T> = Nil | Cons(head: T, tail: List<T>)

  function ToSeq<T>(l: List<T>): seq<T>
  {
    match l
    case Nil => []
    case Cons(h, t) => [h] + ToSeq(t)
  }

  function PairsAt0(): List<Pair>
  {
    Cons((0, 1), Cons((0, 4), Cons((0, 5), Cons((0, 8), Cons((0, 10), Nil)))))
  }

  function PairsAt5(): List<Pair>
  {
    Cons((1, 6), Cons((1, 7), Cons((1, 8), Cons((1, 10), Cons((2, 3), Nil)))))
  }

  function PairsAt10(): List<Pair>
  {
    Cons((2, 4), Cons((2, 5), Cons((2, 9), Cons((2, 11), Cons((3, 6), Nil)))))
  }

  function PairsAt15(): List<Pair>
  {
    Cons((3, 7), Cons((3, 9), Cons((3, 11), Cons((4, 5), Cons((4, 8), Nil)))))
  }

  function PairsAt20(): List<Pair>
  {
    Cons((4, 9), Cons((5, 10), Cons((5, 11), Cons((6, 7), Cons((6, 8), Nil)))))
  }

  function PairsAt25(): List<Pair>
  {
    Cons((6, 9), Cons((7, 10), Cons((7, 11), Cons((8, 9), Cons((10, 11), Nil)))))
  }

  function FacesAt0(): List<Face>
  {
    Cons(Face(Vec3(0, 8, 1), Vec3(3, 7, 0)), Cons(Face(Vec3(0, 5, 4), Vec3(2, 18, 1)), Cons(Face(Vec3(0, 10, 5), Vec3(4, 21, 2)), Cons(Face(Vec3(0, 4, 8), Vec3(1, 19, 3)), Cons(Face(Vec3(0, 1, 10), Vec3(0, 8, 4)), Nil)))))
  }

  function FacesAt5(): List<Face>
  {
    Cons(Face(Vec3(1, 8, 6), Vec3(7, 24, 5)), Cons(Face(Vec3(1, 6, 7), Vec3(5, 23, 6)), Cons(Face(Vec3(1, 7, 10), Vec3(6, 26, 8)), Cons(Face(Vec3(2, 11, 3), Vec3(13, 17, 9)), Cons(Face(Vec3(2, 9, 4), Vec3(12, 20, 10)), Nil)))))
  }

  function FacesAt10(): List<Face>
  {
    Cons(Face(Vec3(2, 4, 5), Vec3(10, 18, 11)), Cons(Face(Vec3(2, 3, 9), Vec3(9, 16, 12)), Cons(Face(Vec3(2, 5, 11), Vec3(11, 22, 13)), Cons(Face(Vec3(3, 7, 6), Vec3(15, 23, 14)), Cons(Face(Vec3(3, 11, 7), Vec3(17, 27, 15)), Nil)))))
  }

  function FacesAt15(): List<Face>
  {
    Cons(Face(Vec3(3, 6, 9), Vec3(14, 25, 16)), Cons(Face(Vec3(4, 9, 8), Vec3(20, 28, 19)), Cons(Face(Vec3(5, 10, 11), Vec3(21, 29, 22)), Cons(Face(Vec3(6, 8, 9), Vec3(24, 28, 25)), Cons(Face(Vec3(7, 11, 10), Vec3(27, 29, 26)), Nil)))))
  }

  function ListEdgeDegree(l: List<Pair>, n: nat): nat
  {
    match l
    case Nil => 0
    case Cons(p, t) => (if p.0 == n then 1 else 0) + (if p.1 == n then 1 else 0) + ListEdgeDegree(t, n)
  }

  function ListFaceDegree(l: List<Face>, n: nat): nat
  {
    match l
    case Nil => 0
    case Cons(f, t) =>
      (if f.points.x == n then 1 else 0) + (if f.points.y == n then 1 else 0) + (if f.points.z == n then 1 else 0)
        + ListFaceDegree(t, n)
  }

  function ListNamingCount(l: List<Face>, e: nat): nat
  {
    match l
    case Nil => 0
    case Cons(f, t) =>
      (if f.edges.x == e then 1 else 0) + (if f.edges.y == e then 1 else 0) + (if f.edges.z == e then 1 else 0)
        + ListNamingCount(t, e)
  }

  predicate ListProper(l: List<Pair>, numNodes: nat)
  {
    match l
    case Nil => true
    case Cons(p, t) => p.0 < p.1 < numNodes && ListProper(t, numNodes)
  }

  predicate ListAligned(pairs: seq<Pair>, l: List<Face>)
  {
    match l
    case Nil => true
    case Cons(f, t) =>
      && f.edges.x < |pairs| && f.edges.y < |pairs| && f.edges.z < |pairs|
      && pairs[f.edges.x] == (if f.points.x <= f.points.y then (f.points.x, f.points.y) else (f.points.y, f.points.x))
      && pairs[f.edges.y] == (if f.points.y <= f.points.z then (f.points.y, f.points.z) else (f.points.z, f.points.y))
      && pairs[f.edges.z] == (if f.points.z <= f.points.x then (f.points.z, f.points.x) else (f.points.x, f.points.z))
      && ListAligned(pairs, t)
  }

  lemma {:induction false} ListEdgeDegreeIsEdgeDegree(l: List<Pair>, n: nat)
    ensures EdgeDegree(ToSeq(l), n) == ListEdgeDegree(l, n)
  {
    match l
    case Nil =>
    case Cons(p, t) =>
      ListEdgeDegreeIsEdgeDegree(t, n);
      EdgeDegreeAppend([p], ToSeq(t), n);
      assert [p][..0] == [];
  }

  lemma {:induction false} ListFaceDegreeIsFaceDegree(l: List<Face>, n: nat)
    ensures FaceDegree(ToSeq(l), n) == ListFaceDegree(l, n)
  {
    match l
    case Nil =>
    case Cons(f, t) =>
      ListFaceDegreeIsFaceDegree(t, n);
      FaceDegreeAppend([f], ToSeq(t), n);
      assert [f][..0] == [];
  }

  lemma {:induction false} ListNamingCountIsNamingCount(l: List<Face>, e: nat)
    ensures NamingCount(ToSeq(l), e) == ListNamingCount(l, e)
  {
    match l
    case Nil =>
    case Cons(f, t) =>
      ListNamingCountIsNamingCount(t, e);
      NamingCountAppend([f], ToSeq(t), e);
      assert [f][..0] == [];
  }

  lemma {:induction false} ListProperIsProper(l: List<Pair>, numNodes: nat)
    requires ListProper(l, numNodes)
    ensures ProperEdges(numNodes, ToSeq(l))
  {
    match l
    case Nil =>
    case Cons(p, t) =>
      ListProperIsProper(t, numNodes);
  }

  lemma {:induction false} ListAlignedIsAligned(pairs: seq<Pair>, l: List<Face>)
    requires ListAligned(pairs, l)
    ensures Aligned(pairs, ToSeq(l))
  {
    match l
    case Nil =>
    case Cons(f, t) =>
      ListAlignedIsAligned(pairs, t);
      assert FaceAligned(pairs, f);
      forall k | 0 <= k < |ToSeq(l)|
        ensures FaceAligned(pairs, ToSeq(l)[k])
      {
        if k > 0 {
          assert ToSeq(l)[k] == ToSeq(t)[k - 1];
        }
      }
  }

  lemma PairsAt0Spelled()
    ensures ToSeq(PairsAt0()) == EdgePairs()[0..5]
  {
  }

  lemma PairsAt5Spelled()
    ensures ToSeq(PairsAt5()) == EdgePairs()[5..10]
  {
  }

  lemma PairsAt10Spelled()
    ensures ToSeq(PairsAt10()) == EdgePairs()[10..15]
  {
  }

  lemma PairsAt15Spelled()
    ensures ToSeq(PairsAt15()) == EdgePairs()[15..20]
  {
  }

  lemma PairsAt20Spelled()
    ensures ToSeq(PairsAt20()) == EdgePairs()[20..25]
  {
  }

  lemma PairsAt25Spelled()
    ensures ToSeq(PairsAt25()) == EdgePairs()[25..30]
  {
  }

  lemma PairListsSpellTable()
    ensures EdgePairs() == ToSeq(PairsAt0()) + ToSeq(PairsAt5()) + ToSeq(PairsAt10()) + ToSeq(PairsAt15()) + ToSeq(PairsAt20()) + ToSeq(PairsAt25())
  {
    PairsAt0Spelled();
    PairsAt5Spelled();
    PairsAt10Spelled();
    PairsAt15Spelled();
    PairsAt20Spelled();
    PairsAt25Spelled();
  }

  lemma FaceListsSpellTable()
    ensures Faces() == ToSeq(FacesAt0()) + ToSeq(FacesAt5()) + ToSeq(FacesAt10()) + ToSeq(FacesAt15())
  {
    assert ToSeq(FacesAt0()) == Faces()[0..5];
    assert ToSeq(FacesAt5()) == Faces()[5..10];
    assert ToSeq(FacesAt10()) == Faces()[10..15];
    assert ToSeq(FacesAt15()) == Faces()[15..20];
  }

  lemma EdgeDegreeOfNode0(n: nat)
    requires n == 0
    ensures EdgeDegree(EdgePairs(), n) == 5
  {
    EdgeDegreeByLists(n);
    assert ListEdgeDegree(PairsAt0(), 0) == 5;
    assert ListEdgeDegree(PairsAt5(), 0) == 0;
    assert ListEdgeDegree(PairsAt10(), 0) == 0;
    assert ListEdgeDegree(PairsAt15(), 0) == 0;
    assert ListEdgeDegree(PairsAt20(), 0) == 0;
    assert ListEdgeDegree(PairsAt25(), 0) == 0;
  }

  lemma EdgeDegreeOfNode1(n: nat)
    requires n == 1
    ensures EdgeDegree(EdgePairs(), n) == 5
  {
    EdgeDegreeByLists(n);
    assert ListEdgeDegree(PairsAt0(), 1) == 1;
    assert ListEdgeDegree(PairsAt5(), 1) == 4;
    assert ListEdgeDegree(PairsAt10(), 1) == 0;
    assert ListEdgeDegree(PairsAt15(), 1) == 0;
    assert ListEdgeDegree(PairsAt20(), 1) == 0;
    assert ListEdgeDegree(PairsAt25(), 1) == 0;
  }

  lemma EdgeDegreeOfNode2(n: nat)
    requires n == 2
    ensures EdgeDegree(EdgePairs(), n) == 5
  {
    EdgeDegreeByLists(n);
    assert ListEdgeDegree(PairsAt0(), 2) == 0;
    assert ListEdgeDegree(PairsAt5(), 2) == 1;
    assert ListEdgeDegree(PairsAt10(), 2) == 4;
    assert ListEdgeDegree(PairsAt15(), 2) == 0;
    assert ListEdgeDegree(PairsAt20(), 2) == 0;
    assert ListEdgeDegree(PairsAt25(), 2) == 0;
  }

  lemma EdgeDegreeOfNode3(n: nat)
    requires n == 3
    ensures EdgeDegree(EdgePairs(), n) == 5
  {
    EdgeDegreeByLists(n);
    assert ListEdgeDegree(PairsAt0(), 3) == 0;
    assert ListEdgeDegree(PairsAt5(), 3) == 1;
    assert ListEdgeDegree(PairsAt10(), 3) == 1;
    assert ListEdgeDegree(PairsAt15(), 3) == 3;
    assert ListEdgeDegree(PairsAt20(), 3) == 0;
    assert ListEdgeDegree(PairsAt25(), 3) == 0;
  }

  lemma EdgeDegreeOfNode4(n: nat)
    requires n == 4
    ensures EdgeDegree(EdgePairs(), n) == 5
  {
    EdgeDegreeByLists(n);
    assert ListEdgeDegree(PairsAt0(), 4) == 1;
    assert ListEdgeDegree(PairsAt5(), 4) == 0;
    assert ListEdgeDegree(PairsAt10(), 4) == 1;
    assert ListEdgeDegree(PairsAt15(), 4) == 2;
    assert ListEdgeDegree(PairsAt20(), 4) == 1;
    assert ListEdgeDegree(PairsAt25(), 4) == 0;
  }

  lemma EdgeDegreeOfNode5(n: nat)
    requires n == 5
    ensures EdgeDegree(EdgePairs(), n) == 5
  {
    EdgeDegreeByLists(n);
    assert ListEdgeDegree(PairsAt0(), 5) == 1;
    assert ListEdgeDegree(PairsAt5(), 5) == 0;
    assert ListEdgeDegree(PairsAt10(), 5) == 1;
    assert ListEdgeDegree(PairsAt15(), 5) == 1;
    assert ListEdgeDegree(PairsAt20(), 5) == 2;
    assert ListEdgeDegree(PairsAt25(), 5) == 0;
  }

  lemma EdgeDegreeOfNode6(n: nat)
    requires n == 6
    ensures EdgeDegree(EdgePairs(), n) == 5
  {
    EdgeDegreeByLists(n);
    assert ListEdgeDegree(PairsAt0(), 6) == 0;
    assert ListEdgeDegree(PairsAt5(), 6) == 1;
    assert ListEdgeDegree(PairsAt10(), 6) == 1;
    assert ListEdgeDegree(PairsAt15(), 6) == 0;
    assert ListEdgeDegree(PairsAt20(), 6) == 2;
    assert ListEdgeDegree(PairsAt25(), 6) == 1;
  }

  lemma EdgeDegreeOfNode7(n: nat)
    requires n == 7
    ensures EdgeDegree(EdgePairs(), n) == 5
  {
    EdgeDegreeByLists(n);
    assert ListEdgeDegree(PairsAt0(), 7) == 0;
    assert ListEdgeDegree(PairsAt5(), 7) == 1;
    assert ListEdgeDegree(PairsAt10(), 7) == 0;
    assert ListEdgeDegree(PairsAt15(), 7) == 1;
    assert ListEdgeDegree(PairsAt20(), 7) == 1;
    assert ListEdgeDegree(PairsAt25(), 7) == 2;
  }

  lemma EdgeDegreeOfNode8(n: nat)
    requires n == 8
    ensures EdgeDegree(EdgePairs(), n) == 5
  {
    EdgeDegreeByLists(n);
    assert ListEdgeDegree(PairsAt0(), 8) == 1;
    assert ListEdgeDegree(PairsAt5(), 8) == 1;
    assert ListEdgeDegree(PairsAt10(), 8) == 0;
    assert ListEdgeDegree(PairsAt15(), 8) == 1;
    assert ListEdgeDegree(PairsAt20(), 8) == 1;
    assert ListEdgeDegree(PairsAt25(), 8) == 1;
  }

  lemma EdgeDegreeOfNode9(n: nat)
    requires n == 9
    ensures EdgeDegree(EdgePairs(), n) == 5
  {
    EdgeDegreeByLists(n);
    assert ListEdgeDegree(PairsAt0(), 9) == 0;
    assert ListEdgeDegree(PairsAt5(), 9) == 0;
    assert ListEdgeDegree(PairsAt10(), 9) == 1;
    assert ListEdgeDegree(PairsAt15(), 9) == 1;
    assert ListEdgeDegree(PairsAt20(), 9) == 1;
    assert ListEdgeDegree(PairsAt25(), 9) == 2;
  }

  lemma EdgeDegreeOfNode10(n: nat)
    requires n == 10
    ensures EdgeDegree(EdgePairs(), n) == 5
  {
    EdgeDegreeByLists(n);
    assert ListEdgeDegree(PairsAt0(), 10) == 1;
    assert ListEdgeDegree(PairsAt5(), 10) == 1;
    assert ListEdgeDegree(PairsAt10(), 10) == 0;
    assert ListEdgeDegree(PairsAt15(), 10) == 0;
    assert ListEdgeDegree(PairsAt20(), 10) == 1;
    assert ListEdgeDegree(PairsAt25(), 10) == 2;
  }

  lemma EdgeDegreeOfNode11(n: nat)
    requires n == 11
    ensures EdgeDegree(EdgePairs(), n) == 5
  {
    EdgeDegreeByLists(n);
    assert ListEdgeDegree(PairsAt0(), 11) == 0;
    assert ListEdgeDegree(PairsAt5(), 11) == 0;
    assert ListEdgeDegree(PairsAt10(), 11) == 1;
    assert ListEdgeDegree(PairsAt15(), 11) == 1;
    assert ListEdgeDegree(PairsAt20(), 11) == 1;
    assert ListEdgeDegree(PairsAt25(), 11) == 2;
  }

  lemma FaceDegreeOfNode0(n: nat)
    requires n == 0
    ensures FaceDegree(Faces(), n) == 5
  {
    FaceDegreeByLists(n);
    assert ListFaceDegree(FacesAt0(), 0) == 5;
    assert ListFaceDegree(FacesAt5(), 0) == 0;
    assert ListFaceDegree(FacesAt10(), 0) == 0;
    assert ListFaceDegree(FacesAt15(), 0) == 0;
  }

  lemma FaceDegreeOfNode1(n: nat)
    requires n == 1
    ensures FaceDegree(Faces(), n) == 5
  {
    FaceDegreeByLists(n);
    assert ListFaceDegree(FacesAt0(), 1) == 2;
    assert ListFaceDegree(FacesAt5(), 1) == 3;
    assert ListFaceDegree(FacesAt10(), 1) == 0;
    assert ListFaceDegree(FacesAt15(), 1) == 0;
  }

  lemma FaceDegreeOfNode2(n: nat)
    requires n == 2
    ensures FaceDegree(Faces(), n) == 5
  {
    FaceDegreeByLists(n);
    assert ListFaceDegree(FacesAt0(), 2) == 0;
    assert ListFaceDegree(FacesAt5(), 2) == 2;
    assert ListFaceDegree(FacesAt10(), 2) == 3;
    assert ListFaceDegree(FacesAt15(), 2) == 0;
  }

  lemma FaceDegreeOfNode3(n: nat)
    requires n == 3
    ensures FaceDegree(Faces(), n) == 5
  {
    FaceDegreeByLists(n);
    assert ListFaceDegree(FacesAt0(), 3) == 0;
    assert ListFaceDegree(FacesAt5(), 3) == 1;
    assert ListFaceDegree(FacesAt10(), 3) == 3;
    assert ListFaceDegree(FacesAt15(), 3) == 1;
  }

  lemma FaceDegreeOfNode4(n: nat)
    requires n == 4
    ensures FaceDegree(Faces(), n) == 5
  {
    FaceDegreeByLists(n);
    assert ListFaceDegree(FacesAt0(), 4) == 2;
    assert ListFaceDegree(FacesAt5(), 4) == 1;
    assert ListFaceDegree(FacesAt10(), 4) == 1;
    assert ListFaceDegree(FacesAt15(), 4) == 1;
  }

  lemma FaceDegreeOfNode5(n: nat)
    requires n == 5
    ensures FaceDegree(Faces(), n) == 5
  {
    FaceDegreeByLists(n);
    assert ListFaceDegree(FacesAt0(), 5) == 2;
    assert ListFaceDegree(FacesAt5(), 5) == 0;
    assert ListFaceDegree(FacesAt10(), 5) == 2;
    assert ListFaceDegree(FacesAt15(), 5) == 1;
  }

  lemma FaceDegreeOfNode6(n: nat)
    requires n == 6
    ensures FaceDegree(Faces(), n) == 5
  {
    FaceDegreeByLists(n);
    assert ListFaceDegree(FacesAt0(), 6) == 0;
    assert ListFaceDegree(FacesAt5(), 6) == 2;
    assert ListFaceDegree(FacesAt10(), 6) == 1;
    assert ListFaceDegree(FacesAt15(), 6) == 2;
  }

  lemma FaceDegreeOfNode7(n: nat)
    requires n == 7
    ensures FaceDegree(Faces(), n) == 5
  {
    FaceDegreeByLists(n);
    assert ListFaceDegree(FacesAt0(), 7) == 0;
    assert ListFaceDegree(FacesAt5(), 7) == 2;
    assert ListFaceDegree(FacesAt10(), 7) == 2;
    assert ListFaceDegree(FacesAt15(), 7) == 1;
  }

  lemma FaceDegreeOfNode8(n: nat)
    requires n == 8
    ensures FaceDegree(Faces(), n) == 5
  {
    FaceDegreeByLists(n);
    assert ListFaceDegree(FacesAt0(), 8) == 2;
    assert ListFaceDegree(FacesAt5(), 8) == 1;
    assert ListFaceDegree(FacesAt10(), 8) == 0;
    assert ListFaceDegree(FacesAt15(), 8) == 2;
  }

  lemma FaceDegreeOfNode9(n: nat)
    requires n == 9
    ensures FaceDegree(Faces(), n) == 5
  {
    FaceDegreeByLists(n);
    assert ListFaceDegree(FacesAt0(), 9) == 0;
    assert ListFaceDegree(FacesAt5(), 9) == 1;
    assert ListFaceDegree(FacesAt10(), 9) == 1;
    assert ListFaceDegree(FacesAt15(), 9) == 3;
  }

  lemma FaceDegreeOfNode10(n: nat)
    requires n == 10
    ensures FaceDegree(Faces(), n) == 5
  {
    FaceDegreeByLists(n);
    assert ListFaceDegree(FacesAt0(), 10) == 2;
    assert ListFaceDegree(FacesAt5(), 10) == 1;
    assert ListFaceDegree(FacesAt10(), 10) == 0;
    assert ListFaceDegree(FacesAt15(), 10) == 2;
  }

  lemma FaceDegreeOfNode11(n: nat)
    requires n == 11
    ensures FaceDegree(Faces(), n) == 5
  {
    FaceDegreeByLists(n);
    assert ListFaceDegree(FacesAt0(), 11) == 0;
    assert ListFaceDegree(FacesAt5(), 11) == 1;
    assert ListFaceDegree(FacesAt10(), 11) == 2;
    assert ListFaceDegree(FacesAt15(), 11) == 2;
  }

  lemma NamingCountOfEdge0(e: nat)
    requires e == 0
    ensures NamingCount(Faces(), e) == 2
  {
    NamingCountByLists(e);
    assert ListNamingCount(FacesAt0(), 0) == 2;
    assert ListNamingCount(FacesAt5(), 0) == 0;
    assert ListNamingCount(FacesAt10(), 0) == 0;
    assert ListNamingCount(FacesAt15(), 0) == 0;
  }

  lemma NamingCountOfEdge1(e: nat)
    requires e == 1
    ensures NamingCount(Faces(), e) == 2
  {
    NamingCountByLists(e);
    assert ListNamingCount(FacesAt0(), 1) == 2;
    assert ListNamingCount(FacesAt5(), 1) == 0;
    assert ListNamingCount(FacesAt10(), 1) == 0;
    assert ListNamingCount(FacesAt15(), 1) == 0;
  }

  lemma NamingCountOfEdge2(e: nat)
    requires e == 2
    ensures NamingCount(Faces(), e) == 2
  {
    NamingCountByLists(e);
    assert ListNamingCount(FacesAt0(), 2) == 2;
    assert ListNamingCount(FacesAt5(), 2) == 0;
    assert ListNamingCount(FacesAt10(), 2) == 0;
    assert ListNamingCount(FacesAt15(), 2) == 0;
  }

  lemma NamingCountOfEdge3(e: nat)
    requires e == 3
    ensures NamingCount(Faces(), e) == 2
  {
    NamingCountByLists(e);
    assert ListNamingCount(FacesAt0(), 3) == 2;
    assert ListNamingCount(FacesAt5(), 3) == 0;
    assert ListNamingCount(FacesAt10(), 3) == 0;
    assert ListNamingCount(FacesAt15(), 3) == 0;
  }

  lemma NamingCountOfEdge4(e: nat)
    requires e == 4
    ensures NamingCount(Faces(), e) == 2
  {
    NamingCountByLists(e);
    assert ListNamingCount(FacesAt0(), 4) == 2;
    assert ListNamingCount(FacesAt5(), 4) == 0;
    assert ListNamingCount(FacesAt10(), 4) == 0;
    assert ListNamingCount(FacesAt15(), 4) == 0;
  }

  lemma NamingCountOfEdge5(e: nat)
    requires e == 5
    ensures NamingCount(Faces(), e) == 2
  {
    NamingCountByLists(e);
    assert ListNamingCount(FacesAt0(), 5) == 0;
    assert ListNamingCount(FacesAt5(), 5) == 2;
    assert ListNamingCount(FacesAt10(), 5) == 0;
    assert ListNamingCount(FacesAt15(), 5) == 0;
  }

  lemma NamingCountOfEdge6(e: nat)
    requires e == 6
    ensures NamingCount(Faces(), e) == 2
  {
    NamingCountByLists(e);
    assert ListNamingCount(FacesAt0(), 6) == 0;
    assert ListNamingCount(FacesAt5(), 6) == 2;
    assert ListNamingCount(FacesAt10(), 6) == 0;
    assert ListNamingCount(FacesAt15(), 6) == 0;
  }

  lemma NamingCountOfEdge7(e: nat)
    requires e == 7
    ensures NamingCount(Faces(), e) == 2
  {
    NamingCountByLists(e);
    assert ListNamingCount(FacesAt0(), 7) == 1;
    assert ListNamingCount(FacesAt5(), 7) == 1;
    assert ListNamingCount(FacesAt10(), 7) == 0;
    assert ListNamingCount(FacesAt15(), 7) == 0;
  }

  lemma NamingCountOfEdge8(e: nat)
    requires e == 8
    ensures NamingCount(Faces(), e) == 2
  {
    NamingCountByLists(e);
    assert ListNamingCount(FacesAt0(), 8) == 1;
    assert ListNamingCount(FacesAt5(), 8) == 1;
    assert ListNamingCount(FacesAt10(), 8) == 0;
    assert ListNamingCount(FacesAt15(), 8) == 0;
  }

  lemma NamingCountOfEdge9(e: nat)
    requires e == 9
    ensures NamingCount(Faces(), e) == 2
  {
    NamingCountByLists(e);
    assert ListNamingCount(FacesAt0(), 9) == 0;
    assert ListNamingCount(FacesAt5(), 9) == 1;
    assert ListNamingCount(FacesAt10(), 9) == 1;
    assert ListNamingCount(FacesAt15(), 9) == 0;
  }

  lemma NamingCountOfEdge10(e: nat)
    requires e == 10
    ensures NamingCount(Faces(), e) == 2
  {
    NamingCountByLists(e);
    assert ListNamingCount(FacesAt0(), 10) == 0;
    assert ListNamingCount(FacesAt5(), 10) == 1;
    assert ListNamingCount(FacesAt10(), 10) == 1;
    assert ListNamingCount(FacesAt15(), 10) == 0;
  }

  lemma NamingCountOfEdge11(e: nat)
    requires e == 11
    ensures NamingCount(Faces(), e) == 2
  {
    NamingCountByLists(e);
    assert ListNamingCount(FacesAt0(), 11) == 0;
    assert ListNamingCount(FacesAt5(), 11) == 0;
    assert ListNamingCount(FacesAt10(), 11) == 2;
    assert ListNamingCount(FacesAt15(), 11) == 0;
  }

  lemma NamingCountOfEdge12(e: nat)
    requires e == 12
    ensures NamingCount(Faces(), e) == 2
  {
    NamingCountByLists(e);
    assert ListNamingCount(FacesAt0(), 12) == 0;
    assert ListNamingCount(FacesAt5(), 12) == 1;
    assert ListNamingCount(FacesAt10(), 12) == 1;
    assert ListNamingCount(FacesAt15(), 12) == 0;
  }

  lemma NamingCountOfEdge13(e: nat)
    requires e == 13
    ensures NamingCount(Faces(), e) == 2
  {
    NamingCountByLists(e);
    assert ListNamingCount(FacesAt0(), 13) == 0;
    assert ListNamingCount(FacesAt5(), 13) == 1;
    assert ListNamingCount(FacesAt10(), 13) == 1;
    assert ListNamingCount(FacesAt15(), 13) == 0;
  }

  lemma NamingCountOfEdge14(e: nat)
    requires e == 14
    ensures NamingCount(Faces(), e) == 2
  {
    NamingCountByLists(e);
    assert ListNamingCount(FacesAt0(), 14) == 0;
    assert ListNamingCount(FacesAt5(), 14) == 0;
    assert ListNamingCount(FacesAt10(), 14) == 1;
    assert ListNamingCount(FacesAt15(), 14) == 1;
  }

  lemma NamingCountOfEdge15(e: nat)
    requires e == 15
    ensures NamingCount(Faces(), e) == 2
  {
    NamingCountByLists(e);
    assert ListNamingCount(FacesAt0(), 15) == 0;
    assert ListNamingCount(FacesAt5(), 15) == 0;
    assert ListNamingCount(FacesAt10(), 15) == 2;
    assert ListNamingCount(FacesAt15(), 15) == 0;
  }

  lemma NamingCountOfEdge16(e: nat)
    requires e == 16
    ensures NamingCount(Faces(), e) == 2
  {
    NamingCountByLists(e);
    assert ListNamingCount(FacesAt0(), 16) == 0;
    assert ListNamingCount(FacesAt5(), 16) == 0;
    assert ListNamingCount(FacesAt10(), 16) == 1;
    assert ListNamingCount(FacesAt15(), 16) == 1;
  }

  lemma NamingCountOfEdge17(e: nat)
    requires e == 17
    ensures NamingCount(Faces(), e) == 2
  {
    NamingCountByLists(e);
    assert ListNamingCount(FacesAt0(), 17) == 0;
    assert ListNamingCount(FacesAt5(), 17) == 1;
    assert ListNamingCount(FacesAt10(), 17) == 1;
    assert ListNamingCount(FacesAt15(), 17) == 0;
  }

  lemma NamingCountOfEdge18(e: nat)
    requires e == 18
    ensures NamingCount(Faces(), e) == 2
  {
    NamingCountByLists(e);
    assert ListNamingCount(FacesAt0(), 18) == 1;
    assert ListNamingCount(FacesAt5(), 18) == 0;
    assert ListNamingCount(FacesAt10(), 18) == 1;
    assert ListNamingCount(FacesAt15(), 18) == 0;
  }

  lemma NamingCountOfEdge19(e: nat)
    requires e == 19
    ensures NamingCount(Faces(), e) == 2
  {
    NamingCountByLists(e);
    assert ListNamingCount(FacesAt0(), 19) == 1;
    assert ListNamingCount(FacesAt5(), 19) == 0;
    assert ListNamingCount(FacesAt10(), 19) == 0;
    assert ListNamingCount(FacesAt15(), 19) == 1;
  }

  lemma NamingCountOfEdge20(e: nat)
    requires e == 20
    ensures NamingCount(Faces(), e) == 2
  {
    NamingCountByLists(e);
    assert ListNamingCount(FacesAt0(), 20) == 0;
    assert ListNamingCount(FacesAt5(), 20) == 1;
    assert ListNamingCount(FacesAt10(), 20) == 0;
    assert ListNamingCount(FacesAt15(), 20) == 1;
  }

  lemma NamingCountOfEdge21(e: nat)
    requires e == 21
    ensures NamingCount(Faces(), e) == 2
  {
    NamingCountByLists(e);
    assert ListNamingCount(FacesAt0(), 21) == 1;
    assert ListNamingCount(FacesAt5(), 21) == 0;
    assert ListNamingCount(FacesAt10(), 21) == 0;
    assert ListNamingCount(FacesAt15(), 21) == 1;
  }

  lemma NamingCountOfEdge22(e: nat)
    requires e == 22
    ensures NamingCount(Faces(), e) == 2
  {
    NamingCountByLists(e);
    assert ListNamingCount(FacesAt0(), 22) == 0;
    assert ListNamingCount(FacesAt5(), 22) == 0;
    assert ListNamingCount(FacesAt10(), 22) == 1;
    assert ListNamingCount(FacesAt15(), 22) == 1;
  }

  lemma NamingCountOfEdge23(e: nat)
    requires e == 23
    ensures NamingCount(Faces(), e) == 2
  {
    NamingCountByLists(e);
    assert ListNamingCount(FacesAt0(), 23) == 0;
    assert ListNamingCount(FacesAt5(), 23) == 1;
    assert ListNamingCount(FacesAt10(), 23) == 1;
    assert ListNamingCount(FacesAt15(), 23) == 0;
  }

  lemma NamingCountOfEdge24(e: nat)
    requires e == 24
    ensures NamingCount(Faces(), e) == 2
  {
    NamingCountByLists(e);
    assert ListNamingCount(FacesAt0(), 24) == 0;
    assert ListNamingCount(FacesAt5(), 24) == 1;
    assert ListNamingCount(FacesAt10(), 24) == 0;
    assert ListNamingCount(FacesAt15(), 24) == 1;
  }

  lemma NamingCountOfEdge25(e: nat)
    requires e == 25
    ensures NamingCount(Faces(), e) == 2
  {
    NamingCountByLists(e);
    assert ListNamingCount(FacesAt0(), 25) == 0;
    assert ListNamingCount(FacesAt5(), 25) == 0;
    assert ListNamingCount(FacesAt10(), 25) == 0;
    assert ListNamingCount(FacesAt15(), 25) == 2;
  }

  lemma NamingCountOfEdge26(e: nat)
    requires e == 26
    ensures NamingCount(Faces(), e) == 2
  {
    NamingCountByLists(e);
    assert ListNamingCount(FacesAt0(), 26) == 0;
    assert ListNamingCount(FacesAt5(), 26) == 1;
    assert ListNamingCount(FacesAt10(), 26) == 0;
    assert ListNamingCount(FacesAt15(), 26) == 1;
  }

  lemma NamingCountOfEdge27(e: nat)
    requires e == 27
    ensures NamingCount(Faces(), e) == 2
  {
    NamingCountByLists(e);
    assert ListNamingCount(FacesAt0(), 27) == 0;
    assert ListNamingCount(FacesAt5(), 27) == 0;
    assert ListNamingCount(FacesAt10(), 27) == 1;
    assert ListNamingCount(FacesAt15(), 27) == 1;
  }

  lemma NamingCountOfEdge28(e: nat)
    requires e == 28
    ensures NamingCount(Faces(), e) == 2
  {
    NamingCountByLists(e);
    assert ListNamingCount(FacesAt0(), 28) == 0;
    assert ListNamingCount(FacesAt5(), 28) == 0;
    assert ListNamingCount(FacesAt10(), 28) == 0;
    assert ListNamingCount(FacesAt15(), 28) == 2;
  }

  lemma NamingCountOfEdge29(e: nat)
    requires e == 29
    ensures NamingCount(Faces(), e) == 2
  {
    NamingCountByLists(e);
    assert ListNamingCount(FacesAt0(), 29) == 0;
    assert ListNamingCount(FacesAt5(), 29) == 0;
    assert ListNamingCount(FacesAt10(), 29) == 0;
    assert ListNamingCount(FacesAt15(), 29) == 2;
  }

  lemma PairsAt0Proper()
    ensures ListProper(PairsAt0(), 12)
  {
  }

  lemma PairsAt5Proper()
    ensures ListProper(PairsAt5(), 12)
  {
  }

  lemma PairsAt10Proper()
    ensures ListProper(PairsAt10(), 12)
  {
  }

  lemma PairsAt15Proper()
    ensures ListProper(PairsAt15(), 12)
  {
  }

  lemma PairsAt20Proper()
    ensures ListProper(PairsAt20(), 12)
  {
  }

  lemma PairsAt25Proper()
    ensures ListProper(PairsAt25(), 12)
  {
  }

  lemma FacesAt0Aligned()
    ensures ListAligned(EdgePairs(), FacesAt0())
  {
  }

  lemma FacesAt5Aligned()
    ensures ListAligned(EdgePairs(), FacesAt5())
  {
  }

  lemma FacesAt10Aligned()
    ensures ListAligned(EdgePairs(), FacesAt10())
  {
  }

  lemma FacesAt15Aligned()
    ensures ListAligned(EdgePairs(), FacesAt15())
  {
  }

  lemma TableProper()
    ensures ProperEdges(12, EdgePairs())
  {
    PairListsSpellTable();
    PairsAt0Proper();
    ListProperIsProper(PairsAt0(), 12);
    PairsAt5Proper();
    ListProperIsProper(PairsAt5(), 12);
    PairsAt10Proper();
    ListProperIsProper(PairsAt10(), 12);
    PairsAt15Proper();
    ListProperIsProper(PairsAt15(), 12);
    PairsAt20Proper();
    ListProperIsProper(PairsAt20(), 12);
    PairsAt25Proper();
    ListProperIsProper(PairsAt25(), 12);
    ProperEdgesAppend(12, ToSeq(PairsAt0()), ToSeq(PairsAt5()));
    ProperEdgesAppend(12, ToSeq(PairsAt0()) + ToSeq(PairsAt5()), ToSeq(PairsAt10()));
    ProperEdgesAppend(12, ToSeq(PairsAt0()) + ToSeq(PairsAt5()) + ToSeq(PairsAt10()), ToSeq(PairsAt15()));
    ProperEdgesAppend(12, ToSeq(PairsAt0()) + ToSeq(PairsAt5()) + ToSeq(PairsAt10()) + ToSeq(PairsAt15()), ToSeq(PairsAt20()));
    ProperEdgesAppend(12, ToSeq(PairsAt0()) + ToSeq(PairsAt5()) + ToSeq(PairsAt10()) + ToSeq(PairsAt15()) + ToSeq(PairsAt20()), ToSeq(PairsAt25()));
  }

  lemma TableAligned()
    ensures Aligned(EdgePairs(), Faces())
  {
    FaceListsSpellTable();
    FacesAt0Aligned();
    ListAlignedIsAligned(EdgePairs(), FacesAt0());
    FacesAt5Aligned();
    ListAlignedIsAligned(EdgePairs(), FacesAt5());
    FacesAt10Aligned();
    ListAlignedIsAligned(EdgePairs(), FacesAt10());
    FacesAt15Aligned();
    ListAlignedIsAligned(EdgePairs(), FacesAt15());
    AlignedAppend(EdgePairs(), ToSeq(FacesAt0()), ToSeq(FacesAt5()));
    AlignedAppend(EdgePairs(), ToSeq(FacesAt0()) + ToSeq(FacesAt5()), ToSeq(FacesAt10()));
    AlignedAppend(EdgePairs(), ToSeq(FacesAt0()) + ToSeq(FacesAt5()) + ToSeq(FacesAt10()), ToSeq(FacesAt15()));
  }

  lemma NamingCountByLists(e: nat)
    ensures NamingCount(Faces(), e) == ListNamingCount(FacesAt0(), e) + ListNamingCount(FacesAt5(), e) + ListNamingCount(FacesAt10(), e) + ListNamingCount(FacesAt15(), e)
  {
    FaceListsSpellTable();
    NamingCountAppend(ToSeq(FacesAt0()), ToSeq(FacesAt5()), e);
    NamingCountAppend(ToSeq(FacesAt0()) + ToSeq(FacesAt5()), ToSeq(FacesAt10()), e);
    NamingCountAppend(ToSeq(FacesAt0()) + ToSeq(FacesAt5()) + ToSeq(FacesAt10()), ToSeq(FacesAt15()), e);
    ListNamingCountIsNamingCount(FacesAt0(), e);
    ListNamingCountIsNamingCount(FacesAt5(), e);
    ListNamingCountIsNamingCount(FacesAt10(), e);
    ListNamingCountIsNamingCount(FacesAt15(), e);
  }

  lemma EdgeDegreeByLists(n: nat)
    ensures EdgeDegree(EdgePairs(), n) == ListEdgeDegree(PairsAt0(), n) + ListEdgeDegree(PairsAt5(), n) + ListEdgeDegree(PairsAt10(), n) + ListEdgeDegree(PairsAt15(), n) + ListEdgeDegree(PairsAt20(), n) + ListEdgeDegree(PairsAt25(), n)
  {
    PairListsSpellTable();
    EdgeDegreeAppend(ToSeq(PairsAt0()), ToSeq(PairsAt5()), n);
    EdgeDegreeAppend(ToSeq(PairsAt0()) + ToSeq(PairsAt5()), ToSeq(PairsAt10()), n);
    EdgeDegreeAppend(ToSeq(PairsAt0()) + ToSeq(PairsAt5()) + ToSeq(PairsAt10()), ToSeq(PairsAt15()), n);
    EdgeDegreeAppend(ToSeq(PairsAt0()) + ToSeq(PairsAt5()) + ToSeq(PairsAt10()) + ToSeq(PairsAt15()), ToSeq(PairsAt20()), n);
    EdgeDegreeAppend(ToSeq(PairsAt0()) + ToSeq(PairsAt5()) + ToSeq(PairsAt10()) + ToSeq(PairsAt15()) + ToSeq(PairsAt20()), ToSeq(PairsAt25()), n);
    ListEdgeDegreeIsEdgeDegree(PairsAt0(), n);
    ListEdgeDegreeIsEdgeDegree(PairsAt5(), n);
    ListEdgeDegreeIsEdgeDegree(PairsAt10(), n);
    ListEdgeDegreeIsEdgeDegree(PairsAt15(), n);
    ListEdgeDegreeIsEdgeDegree(PairsAt20(), n);
    ListEdgeDegreeIsEdgeDegree(PairsAt25(), n);
  }

  lemma FaceDegreeByLists(n: nat)
    ensures FaceDegree(Faces(), n) == ListFaceDegree(FacesAt0(), n) + ListFaceDegree(FacesAt5(), n) + ListFaceDegree(FacesAt10(), n) + ListFaceDegree(FacesAt15(), n)
  {
    FaceListsSpellTable();
    FaceDegreeAppend(ToSeq(FacesAt0()), ToSeq(FacesAt5()), n);
    FaceDegreeAppend(ToSeq(FacesAt0()) + ToSeq(FacesAt5()), ToSeq(FacesAt10()), n);
    FaceDegreeAppend(ToSeq(FacesAt0()) + ToSeq(FacesAt5()) + ToSeq(FacesAt10()), ToSeq(FacesAt15()), n);
    ListFaceDegreeIsFaceDegree(FacesAt0(), n);
    ListFaceDegreeIsFaceDegree(FacesAt5(), n);
    ListFaceDegreeIsFaceDegree(FacesAt10(), n);
    ListFaceDegreeIsFaceDegree(FacesAt15(), n);
  }

  lemma TableClosed()
    ensures Closed(EdgePairs(), Faces())
  {
    forall e | 0 <= e < 30
      ensures NamingCount(Faces(), e) == 2
    {
      if e == 0 { NamingCountOfEdge0(e); }
      else if e == 1 { NamingCountOfEdge1(e); }
      else if e == 2 { NamingCountOfEdge2(e); }
      else if e == 3 { NamingCountOfEdge3(e); }
      else if e == 4 { NamingCountOfEdge4(e); }
      else if e == 5 { NamingCountOfEdge5(e); }
      else if e == 6 { NamingCountOfEdge6(e); }
      else if e == 7 { NamingCountOfEdge7(e); }
      else if e == 8 { NamingCountOfEdge8(e); }
      else if e == 9 { NamingCountOfEdge9(e); }
      else if e == 10 { NamingCountOfEdge10(e); }
      else if e == 11 { NamingCountOfEdge11(e); }
      else if e == 12 { NamingCountOfEdge12(e); }
      else if e == 13 { NamingCountOfEdge13(e); }
      else if e == 14 { NamingCountOfEdge14(e); }
      else if e == 15 { NamingCountOfEdge15(e); }
      else if e == 16 { NamingCountOfEdge16(e); }
      else if e == 17 { NamingCountOfEdge17(e); }
      else if e == 18 { NamingCountOfEdge18(e); }
      else if e == 19 { NamingCountOfEdge19(e); }
      else if e == 20 { NamingCountOfEdge20(e); }
      else if e == 21 { NamingCountOfEdge21(e); }
      else if e == 22 { NamingCountOfEdge22(e); }
      else if e == 23 { NamingCountOfEdge23(e); }
      else if e == 24 { NamingCountOfEdge24(e); }
      else if e == 25 { NamingCountOfEdge25(e); }
      else if e == 26 { NamingCountOfEdge26(e); }
      else if e == 27 { NamingCountOfEdge27(e); }
      else if e == 28 { NamingCountOfEdge28(e); }
      else { NamingCountOfEdge29(e); }
    }
  }

  lemma TableDegrees()
    ensures forall n :: 0 <= n < 12 ==> EdgeDegree(EdgePairs(), n) == 5 && FaceDegree(Faces(), n) == 5
  {
    forall n | 0 <= n < 12
      ensures EdgeDegree(EdgePairs(), n) == 5 && FaceDegree(Faces(), n) == 5
    {
      if n == 0 { EdgeDegreeOfNode0(n); FaceDegreeOfNode0(n); }
      else if n == 1 { EdgeDegreeOfNode1(n); FaceDegreeOfNode1(n); }
      else if n == 2 { EdgeDegreeOfNode2(n); FaceDegreeOfNode2(n); }
      else if n == 3 { EdgeDegreeOfNode3(n); FaceDegreeOfNode3(n); }
      else if n == 4 { EdgeDegreeOfNode4(n); FaceDegreeOfNode4(n); }
      else if n == 5 { EdgeDegreeOfNode5(n); FaceDegreeOfNode5(n); }
      else if n == 6 { EdgeDegreeOfNode6(n); FaceDegreeOfNode6(n); }
      else if n == 7 { EdgeDegreeOfNode7(n); FaceDegreeOfNode7(n); }
      else if n == 8 { EdgeDegreeOfNode8(n); FaceDegreeOfNode8(n); }
      else if n == 9 { EdgeDegreeOfNode9(n); FaceDegreeOfNode9(n); }
      else if n == 10 { EdgeDegreeOfNode10(n); FaceDegreeOfNode10(n); }
      else { EdgeDegreeOfNode11(n); FaceDegreeOfNode11(n); }
    }
  }

  /**
   * The level-0 mesh: 12 nodes, 30 proper edges, 20 aligned faces, every edge
   * on exactly two faces and every node with exactly five edges and five faces.
   */
  lemma TableShape()
    ensures |EdgePairs()| == 30 && |Faces()| == 20
    ensures MeshShape(12, EdgePairs(), Faces())
    ensures forall n :: 0 <= n < 12 ==> EdgeDegree(EdgePairs(), n) == 5 && FaceDegree(Faces(), n) == 5
  {
    TableProper();
    TableAligned();
    TableClosed();
    TableDegrees();
  }
}
