/** The edge record of the earlier `Terrain` mesh (src/terrain/edge.rs): two node indices, stored smaller first. */
module TerrainEdge {

  datatype Edge = Edge(a: nat, b: nat)

  /** `Edge::new`: the endpoints in ascending order; equal endpoints are accepted. */
  function New(a: nat, b: nat): (e: Edge)
    ensures e.a <= e.b
    ensures multiset{e.a, e.b} == multiset{a, b}
  {
    if a <= b then Edge(a, b) else Edge(b, a)
  }

  /** The argument order does not matter: both orders build the same record. */
  lemma NewSymmetric(a: nat, b: nat)
    ensures New(a, b) == New(b, a)
  {
  }

  /** A self-loop is not rejected. */
  lemma NewSelfLoop(a: nat)
    ensures New(a, a) == Edge(a, a)
  {
  }
}
