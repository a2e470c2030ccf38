/**
 * A border between two tiles (`Border`, src/terrain/planet/border.rs): the
 * two corners it joins and the two tiles it separates, each pair stored
 * smaller first.
 */
module PlanetBorder {
  import opened Outcomes
  import opened Pairs

  datatype Border = Border(vertices: Pair, tiles: Pair)
  {
    /** `other_tile`: the tile on the other side from `t`, or nothing when `t` is on neither side. */
    function OtherTile(t: nat): (r: Option<nat>)
      ensures r.Some? <==> t == tiles.0 || t == tiles.1
      ensures r.Some? ==> multiset{t, r.value} == multiset{tiles.0, tiles.1}
    {
      if tiles.0 == t then Some(tiles.1)
      else if tiles.1 == t then Some(tiles.0)
      else None
    }
  }

  /** `Border::new`: both pairs put in order with `sorted_pair`. */
  function New(va: nat, vb: nat, ta: nat, tb: nat): (b: Border)
    ensures b.vertices.0 <= b.vertices.1 && multiset{b.vertices.0, b.vertices.1} == multiset{va, vb}
    ensures b.tiles.0 <= b.tiles.1 && multiset{b.tiles.0, b.tiles.1} == multiset{ta, tb}
  {
    Border(SortedPair(va, vb), SortedPair(ta, tb))
  }

  /** Naming the corners and the tiles the other way round builds the same border. */
  lemma NewSymmetric(va: nat, vb: nat, ta: nat, tb: nat)
    ensures New(va, vb, ta, tb) == New(vb, va, tb, ta)
  {
    SortedPairSymmetric(va, vb);
    SortedPairSymmetric(ta, tb);
  }

  /** Crossing a border between two different tiles twice comes back to the start. */
  lemma OtherTileTwice(b: Border, t: nat)
    requires b.tiles.0 != b.tiles.1
    requires t == b.tiles.0 || t == b.tiles.1
    ensures b.OtherTile(t).Some? && b.OtherTile(b.OtherTile(t).value) == Some(t)
  {
  }
}
