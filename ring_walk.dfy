/**
 * The walk around a node that `to_planet` performs to build one dual tile
 * (src/terrain/generator/mod.rs:499-539): from the node's first face, leave
 * each face by the edge slot that follows the node, cross that edge to its
 * other face, and stop on coming back to the first face.
 *
 * `NextFace` is one step (or `None` where the source panics), `Walk` iterates
 * it, and `WalkRing` runs the loop.  The source loop has no bound; the model
 * stops after as many steps as there are faces and then proves, by the
 * pigeonhole principle, that the source would never have stopped.
 */
module RingWalk {
  import opened Outcomes
  import opened MeshFace
  import GeneratorEdge

  type Edge = GeneratorEdge.Edge

  /**
   * The edge by which a face is left when walking around `n`: for the corner
   * in slot `i`, edge slot `i - 1` (wrapping), the edge from the previous
   * corner to `n`.
   */
  function LeavingEdge(f: Face, n: nat): (r: Option<nat>)
    ensures r.None? <==> Occurrences(f.points, n) == 0
  {
    if f.points.x == n then Some(f.edges.z)
    else if f.points.y == n then Some(f.edges.x)
    else if f.points.z == n then Some(f.edges.y)
    else None
  }

  /**
   * One step of the walk from face `f`: the other face of its leaving edge,
   * or `None` where the source panics (face or edge index out of range, a
   * face without the node, an edge with fewer than two faces or without `f`).
   */
  function NextFace(edges: seq<Edge>, faces: seq<Face>, n: nat, f: nat): (r: Option<nat>)
    ensures r.Some? ==> f < |faces| && Occurrences(faces[f].points, n) > 0
  {
    if f >= |faces| then None
    else
      match LeavingEdge(faces[f], n)
      case None => None
      case Some(e) =>
        if e >= |edges| || |edges[e].faces| < 2 then None
        else if edges[e].faces[0] == f then Some(edges[e].faces[1])
        else if edges[e].faces[1] == f then Some(edges[e].faces[0])
        else None
  }

  /** The face reached after `k` steps from `f`, or `None` once a step panics. */
  function Walk(edges: seq<Edge>, faces: seq<Face>, n: nat, f: nat, k: nat): Option<nat>
  {
    if k == 0 then Some(f)
    else
      match Walk(edges, faces, n, f, k - 1)
      case None => None
      case Some(g) => NextFace(edges, faces, n, g)
  }

  /** `ring` is the closed walk from `start`: step `k` reaches `ring[k]`, step `|ring|` is back at `start`, and no earlier step is. */
  ghost predicate IsRing(edges: seq<Edge>, faces: seq<Face>, n: nat, start: nat, ring: seq<nat>)
  {
    && |ring| >= 1
    && (forall k :: 0 <= k < |ring| ==> Walk(edges, faces, n, start, k) == Some(ring[k]))
    && Walk(edges, faces, n, start, |ring|) == Some(start)
    && (forall k :: 0 < k < |ring| ==> ring[k] != start)
  }

  /** Some step within the first `|faces| + 1` panics. */
  ghost predicate Breaks(edges: seq<Edge>, faces: seq<Face>, n: nat, start: nat)
  {
    exists k :: 0 < k <= |faces| + 1 && Walk(edges, faces, n, start, k).None?
  }

  /** Every step succeeds and none comes back to the start: the source loop never ends. */
  ghost predicate Spins(edges: seq<Edge>, faces: seq<Face>, n: nat, start: nat)
  {
    forall m :: m > 0 ==> Walk(edges, faces, n, start, m).Some? && Walk(edges, faces, n, start, m) != Some(start)
  }

  /** How a walk ends: closed into a ring, at a panic, or never. */
  datatype Ring = Closed(faces: seq<nat>) | Broken | Endless

  /** `ring` holds the faces met in the first `|ring|` steps, `f` is reached next, and no step so far came back to `start`. */
  ghost predicate Walked(edges: seq<Edge>, faces: seq<Face>, n: nat, start: nat, ring: seq<nat>, f: nat)
  {
    && Walk(edges, faces, n, start, |ring|) == Some(f)
    && (forall k :: 0 <= k < |ring| ==> Walk(edges, faces, n, start, k) == Some(ring[k]))
    && (forall k :: 0 < k <= |ring| ==> Walk(edges, faces, n, start, k) != Some(start))
  }

  /** A step that lands elsewhere than the start extends the walk by one face. */
  lemma WalkedStep(edges: seq<Edge>, faces: seq<Face>, n: nat, start: nat, ring: seq<nat>, f: nat, g: nat)
    requires Walked(edges, faces, n, start, ring, f)
    requires NextFace(edges, faces, n, f) == Some(g) && g != start
    ensures Walked(edges, faces, n, start, ring + [f], g)
  {
    assert Walk(edges, faces, n, start, |ring| + 1) == Some(g);
    forall k | 0 <= k < |ring| + 1
      ensures Walk(edges, faces, n, start, k) == Some((ring + [f])[k])
    {
    }
  }

  /** A step that lands on the start closes the ring. */
  lemma WalkedCloses(edges: seq<Edge>, faces: seq<Face>, n: nat, start: nat, ring: seq<nat>, f: nat)
    requires Walked(edges, faces, n, start, ring, f)
    requires NextFace(edges, faces, n, f) == Some(start)
    ensures IsRing(edges, faces, n, start, ring + [f])
  {
    assert Walk(edges, faces, n, start, |ring| + 1) == Some(start);
    forall k | 0 <= k < |ring| + 1
      ensures Walk(edges, faces, n, start, k) == Some((ring + [f])[k])
    {
    }
    assert Walk(edges, faces, n, start, 0) == Some(start);
    forall k | 0 < k < |ring| + 1
      ensures (ring + [f])[k] != start
    {
      assert Walk(edges, faces, n, start, k) != Some(start);
    }
  }

  /**
   * The `loop` of lines 502-539: push the current face, step, and stop when
   * the step lands on the start.  A step that panics ends in `Broken`; after
   * `|faces| + 1` steps without returning, `Endless`.
   */
  method WalkRing(edges: seq<Edge>, faces: seq<Face>, n: nat, start: nat) returns (r: Ring)
    ensures r.Closed? ==> IsRing(edges, faces, n, start, r.faces)
    ensures r.Broken? ==> Breaks(edges, faces, n, start)
    ensures r.Endless? ==> Spins(edges, faces, n, start)
  {
    var ring: seq<nat> := [];
    var f := start;
    while |ring| <= |faces|
      invariant |ring| <= |faces| + 1
      invariant Walked(edges, faces, n, start, ring, f)
      decreases |faces| + 1 - |ring|
    {
      var next := NextFace(edges, faces, n, f);
      if next.None? {
        assert Walk(edges, faces, n, start, |ring| + 1).None?;
        return Broken;
      }
      if next.value == start {
        WalkedCloses(edges, faces, n, start, ring, f);
        return Closed(ring + [f]);
      }
      WalkedStep(edges, faces, n, start, ring, f, next.value);
      ring, f := ring + [f], next.value;
    }
    NeverReturns(edges, faces, n, start);
    return Endless;
  }

  // ---------------------------------------------------------------------------
  // Properties of a ring

  /** Every face of a ring exists and has the node as a corner. */
  lemma RingFacesHaveNode(edges: seq<Edge>, faces: seq<Face>, n: nat, start: nat, ring: seq<nat>)
    requires IsRing(edges, faces, n, start, ring)
    ensures ring[0] == start
    ensures forall k :: 0 <= k < |ring| ==> ring[k] < |faces| && Occurrences(faces[ring[k]].points, n) > 0
  {
    assert Walk(edges, faces, n, start, 0) == Some(ring[0]);
    forall k | 0 <= k < |ring|
      ensures ring[k] < |faces| && Occurrences(faces[ring[k]].points, n) > 0
    {
      assert Walk(edges, faces, n, start, k + 1).Some?;
    }
  }

  // ---------------------------------------------------------------------------
  // A walk that has not returned after |faces| + 1 steps never returns

  /** Walking `a + b` steps is walking `a` steps and then `b` more. */
  lemma {:induction false} WalkSplits(edges: seq<Edge>, faces: seq<Face>, n: nat, f: nat, a: nat, b: nat)
    requires Walk(edges, faces, n, f, a).Some?
    ensures Walk(edges, faces, n, f, a + b) == Walk(edges, faces, n, Walk(edges, faces, n, f, a).value, b)
    decreases b
  {
    if b > 0 {
      WalkSplits(edges, faces, n, f, a, b - 1);
    }
  }

  /** Every face reached before the last step of a successful walk is a face index. */
  lemma WalkInRange(edges: seq<Edge>, faces: seq<Face>, n: nat, f: nat, k: nat)
    requires Walk(edges, faces, n, f, k + 1).Some?
    ensures Walk(edges, faces, n, f, k).Some? && Walk(edges, faces, n, f, k).value < |faces|
  {
  }

  /**
   * A walk that survives `|faces| + 1` steps without meeting the start
   * repeats some face, and from then on cycles without ever meeting it.
   */
  lemma NeverReturns(edges: seq<Edge>, faces: seq<Face>, n: nat, start: nat)
    requires Walk(edges, faces, n, start, |faces| + 1).Some?
    requires forall k :: 0 < k <= |faces| + 1 ==> Walk(edges, faces, n, start, k) != Some(start)
    ensures Spins(edges, faces, n, start)
  {
    var F := |faces|;
    var s := seq(F + 1, k requires 0 <= k <= F => WalkValue(edges, faces, n, start, k));
    forall k | 0 <= k <= F
      ensures s[k] < F
    {
      WalkPrefixInRange(edges, faces, n, start, k + 1, F + 1);
      WalkInRange(edges, faces, n, start, k);
    }
    var i, j := Pigeonhole(s, F);
    assert Walk(edges, faces, n, start, i) == Walk(edges, faces, n, start, j) by {
      WalkPrefixInRange(edges, faces, n, start, i, F + 1);
      WalkPrefixInRange(edges, faces, n, start, j, F + 1);
    }
    assert i > 0;
    forall m | m > 0
      ensures Walk(edges, faces, n, start, m).Some? && Walk(edges, faces, n, start, m) != Some(start)
    {
      WalkPrefixInRange(edges, faces, n, start, j, F + 1);
      Periodic(edges, faces, n, start, i, j, m);
    }
  }

  /** The value of a walk known to succeed (`start` otherwise; only used where it succeeds). */
  function WalkValue(edges: seq<Edge>, faces: seq<Face>, n: nat, start: nat, k: nat): nat
  {
    var w := Walk(edges, faces, n, start, k);
    if w.Some? then w.value else start
  }

  /** A walk that succeeds for `b` steps succeeds for every fewer number of steps. */
  lemma {:induction false} WalkPrefixInRange(edges: seq<Edge>, faces: seq<Face>, n: nat, f: nat, a: nat, b: nat)
    requires a <= b && Walk(edges, faces, n, f, b).Some?
    ensures Walk(edges, faces, n, f, a).Some?
    decreases b - a
  {
    if a < b {
      WalkPrefixInRange(edges, faces, n, f, a + 1, b);
    }
  }

  /**
   * Once step `j` repeats step `i` (with `0 < i < j`), the walk cycles with
   * period `j - i`, so it never panics and never meets the start, given
   * that steps 1 to `j` did not.
   */
  lemma {:induction false} Periodic(edges: seq<Edge>, faces: seq<Face>, n: nat, start: nat, i: nat, j: nat, m: nat)
    requires 0 < i < j
    requires Walk(edges, faces, n, start, j).Some?
    requires Walk(edges, faces, n, start, i) == Walk(edges, faces, n, start, j)
    requires forall k :: 0 < k <= j ==> Walk(edges, faces, n, start, k) != Some(start)
    requires m > 0
    ensures Walk(edges, faces, n, start, m).Some? && Walk(edges, faces, n, start, m) != Some(start)
    decreases m
  {
    if m <= j {
      WalkPrefixInRange(edges, faces, n, start, m, j);
    } else {
      var p := j - i;
      Periodic(edges, faces, n, start, i, j, m - p);
      WalkSplits(edges, faces, n, start, j, m - j);
      WalkPrefixInRange(edges, faces, n, start, i, j);
      WalkSplits(edges, faces, n, start, i, m - j);
      assert i + (m - j) == m - p;
      assert j + (m - j) == m;
    }
  }

  /** More than `bound` values below `bound` contain a repetition. */
  lemma {:induction false} Pigeonhole(s: seq<nat>, bound: nat) returns (i: nat, j: nat)
    requires |s| > bound
    requires forall k :: 0 <= k < |s| ==> s[k] < bound
    ensures i < j < |s| && s[i] == s[j]
    decreases bound
  {
    var last := |s| - 1;
    var v := s[last];
    if k :| 0 <= k < last && s[k] == v {
      return k, last;
    }
    // `v` does not occur before the end: squeeze the other values below `bound - 1`.
    var t := seq(last, k requires 0 <= k < last => if s[k] > v then s[k] - 1 else s[k]);
    forall k | 0 <= k < last
      ensures t[k] < bound - 1
    {
      assert s[k] != v;
    }
    i, j := Pigeonhole(t, bound - 1);
    assert s[i] != v && s[j] != v;
  }
}
