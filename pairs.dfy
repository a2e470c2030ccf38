/**
 * Canonical ordering of an unordered pair of indices.  The source orders pairs
 * in four places with the same rule (`sorted_pair`, the inline edge-map key of
 * the generator's `subdivide`, `make_edge` and the terrain `Edge::new`); the
 * rule is stated once here.
 */
module Pairs {

  type Pair = (nat, nat)

  /** The pair `(min, max)` of `a` and `b`. */
  function SortedPair(a: nat, b: nat): (p: Pair)
    ensures p.0 <= p.1
    ensures p == (a, b) || p == (b, a)
  {
    if a <= b then (a, b) else (b, a)
  }

  /** Ordering forgets which argument came first. */
  lemma SortedPairSymmetric(a: nat, b: nat)
    ensures SortedPair(a, b) == SortedPair(b, a)
  {
  }

  /** The sorted pair of `a` and `b` is the only ordered pair with their endpoints. */
  lemma SortedPairUnique(a: nat, b: nat, p: Pair)
    requires p.0 <= p.1
    requires multiset{p.0, p.1} == multiset{a, b}
    ensures p == SortedPair(a, b)
  {
    assert p.0 in multiset{a, b} && p.1 in multiset{a, b};
    assert a in multiset{p.0, p.1} && b in multiset{p.0, p.1};
  }
}
