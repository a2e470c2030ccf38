/**
 * A tile of the dual mesh (`Tile`, src/terrain/planet/mod.rs:22-56; the same
 * record is also written out in src/terrain/planet/tile.rs, a file no module
 * declares): a ring of corner indices, the index of its centre vertex, the
 * borders it lies on and the plate it belongs to (0 for none yet).
 */
module PlanetTile {
  import opened Outcomes

  datatype Tile = Tile(vertices: seq<nat>, midpoint: nat, borders: seq<nat>, plateId: nat)
  {
    /** `index_of`: the position of the first corner equal to `a`. */
    function IndexOf(a: nat): (r: Option<nat>)
      ensures r.None? <==> a !in vertices
      ensures r.Some? ==> r.value < |vertices| && vertices[r.value] == a
      ensures r.Some? ==> forall j :: 0 <= j < r.value ==> vertices[j] != a
    {
      FirstIndex(vertices, a)
    }

    /**
     * `has_edge`: whether `b` is the corner just before or just after the
     * first occurrence of `a`, the ring wrapping around at both ends.
     */
    function HasEdge(a: nat, b: nat): (r: bool)
      ensures a !in vertices ==> !r
      ensures r ==> b in vertices
    {
      match IndexOf(a)
      case None => false
      case Some(idx) =>
        vertices[Before(idx, |vertices|)] == b || vertices[After(idx, |vertices|)] == b
    }
  }

  /** `Tile::new`: the ring and the centre, no borders, no plate. */
  function New(vertices: seq<nat>, midpoint: nat): (t: Tile)
    ensures t.vertices == vertices && t.midpoint == midpoint
    ensures t.borders == [] && t.plateId == 0
  {
    Tile(vertices, midpoint, [], 0)
  }

  /** The position of the first element of `s` equal to `a`, searching from the front. */
  function FirstIndex(s: seq<nat>, a: nat): (r: Option<nat>)
    ensures r.None? <==> a !in s
    ensures r.Some? ==> r.value < |s| && s[r.value] == a
    ensures r.Some? ==> forall j :: 0 <= j < r.value ==> s[j] != a
  {
    if s == [] then None
    else if s[0] == a then Some(0)
    else
      match FirstIndex(s[1..], a)
      case None => None
      case Some(i) => Some(i + 1)
  }

  /** The ring's corners are pairwise distinct. */
  ghost predicate Distinct(s: seq<nat>)
  {
    forall i, j :: 0 <= i < j < |s| ==> s[i] != s[j]
  }

  /** The place after `idx` on a ring of `n` places, wrapping from the last to the first. */
  function After(idx: nat, n: nat): (r: nat)
    requires idx < n
    ensures r == if idx + 1 < n then idx + 1 else 0
  {
    (idx + 1) % n
  }

  /** The place before `idx` on a ring of `n` places, wrapping from the first to the last. */
  function Before(idx: nat, n: nat): (r: nat)
    requires idx < n
    ensures r == if idx == 0 then n - 1 else idx - 1
  {
    if idx == 0 then
      assert idx + n - 1 == n - 1;
      (idx + n - 1) % n
    else
      assert idx + n - 1 == (idx - 1) + n;
      (idx + n - 1) % n
  }

  /** Corners `i` and the one after it on ring `s` are `a` and `b`, in either order. */
  ghost predicate StepAt(s: seq<nat>, i: nat, a: nat, b: nat)
  {
    i < |s| && ((s[i] == a && s[After(i, |s|)] == b) || (s[i] == b && s[After(i, |s|)] == a))
  }

  /** `a` and `b` are neighbours somewhere on the ring `s`, the last corner being followed by the first. */
  ghost predicate RingEdge(s: seq<nat>, a: nat, b: nat)
  {
    exists i :: StepAt(s, i, a, b)
  }

  /** On a ring of distinct corners, `has_edge` holds exactly for the pairs of neighbours on the ring. */
  lemma HasEdgeIsRingEdge(t: Tile, a: nat, b: nat)
    requires Distinct(t.vertices)
    ensures t.HasEdge(a, b) <==> RingEdge(t.vertices, a, b)
  {
    var s, n := t.vertices, |t.vertices|;
    if t.HasEdge(a, b) {
      var idx := t.IndexOf(a).value;
      if s[After(idx, n)] == b {
        assert StepAt(s, idx, a, b);
      } else {
        var i := if idx > 0 then idx - 1 else n - 1;
        assert StepAt(s, i, a, b);
      }
    }
    if RingEdge(s, a, b) {
      var i: nat :| StepAt(s, i, a, b);
      if s[i] == a && s[After(i, n)] == b {
        FirstOfDistinct(s, a, i);
      } else {
        FirstOfDistinct(s, a, After(i, n));
      }
    }
  }

  /** In a sequence of distinct elements, the first occurrence is the only one. */
  lemma FirstOfDistinct(s: seq<nat>, a: nat, i: nat)
    requires Distinct(s) && i < |s| && s[i] == a
    ensures FirstIndex(s, a) == Some(i)
  {
    var j := FirstIndex(s, a).value;
    assert s[j] == s[i];
  }

  /** On a ring of distinct corners, `has_edge` does not depend on the order of its arguments. */
  lemma HasEdgeSymmetric(t: Tile, a: nat, b: nat)
    requires Distinct(t.vertices)
    ensures t.HasEdge(a, b) == t.HasEdge(b, a)
  {
    HasEdgeIsRingEdge(t, a, b);
    HasEdgeIsRingEdge(t, b, a);
    if RingEdge(t.vertices, a, b) {
      var i: nat :| StepAt(t.vertices, i, a, b);
      assert StepAt(t.vertices, i, b, a);
    }
    if RingEdge(t.vertices, b, a) {
      var i: nat :| StepAt(t.vertices, i, b, a);
      assert StepAt(t.vertices, i, a, b);
    }
  }

  /** On the ring 2, 3, 5, 8, 13 the edge test wraps around and rejects corners two steps apart. */
  lemma HasEdgeExample()
    ensures var t := New([2, 3, 5, 8, 13], 0);
      t.HasEdge(2, 3) && t.HasEdge(13, 2) && t.HasEdge(2, 13) && !t.HasEdge(2, 8)
  {
    var t := New([2, 3, 5, 8, 13], 0);
    assert Distinct(t.vertices);
    FirstOfDistinct(t.vertices, 2, 0);
  }

  /**
   * When a corner repeats, only its first occurrence is looked at, so the
   * test is not symmetric: on the ring 1, 2, 3, 1, 4 the corners 3 and 1
   * are neighbours one way round only.
   */
  lemma HasEdgeFirstOccurrenceOnly()
    ensures var t := New([1, 2, 3, 1, 4], 0);
      t.HasEdge(3, 1) && !t.HasEdge(1, 3)
  {
    var s := [1, 2, 3, 1, 4];
    assert FirstIndex(s, 1) == Some(0);
    assert s[1..] == [2, 3, 1, 4] && [2, 3, 1, 4][1..] == [3, 1, 4];
    assert FirstIndex([3, 1, 4], 3) == Some(0);
    assert FirstIndex(s, 3) == Some(2);
  }
}
