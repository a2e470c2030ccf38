/**
 * The edge record of the generator mesh (src/terrain/generator/edge.rs): two
 * node indices in ascending order and the indices of the faces that use it.
 */
module GeneratorEdge {
  import opened Pairs

  datatype Edge = Edge(a: nat, b: nat, faces: seq<nat>)
  {
    /** The endpoints as a pair, the form in which mesh topology is stated. */
    function Ends(): Pair
    {
      (a, b)
    }

    /** `add_face`: appends one face index and leaves everything else as it was. */
    function AddFace(f: nat): (e: Edge)
      ensures e.a == a && e.b == b
      ensures |e.faces| == |faces| + 1
      ensures e.faces[..|faces|] == faces && e.faces[|faces|] == f
    {
      Edge(a, b, faces + [f])
    }
  }

  /** `Edge::new`: the sorted endpoints and no faces yet. */
  function New(a: nat, b: nat): (e: Edge)
    ensures e.a <= e.b
    ensures multiset{e.a, e.b} == multiset{a, b}
    ensures e.faces == []
  {
    var p := SortedPair(a, b);
    Edge(p.0, p.1, [])
  }

  /** Swapping the arguments gives the same edge. */
  lemma NewSymmetric(a: nat, b: nat)
    ensures New(a, b) == New(b, a)
  {
    SortedPairSymmetric(a, b);
  }
}
