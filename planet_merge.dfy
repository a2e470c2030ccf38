/**
 * Merging small plates and writing plate ids back (`merge_plates` and
 * `assign_plates`, src/terrain/planet/mod.rs:299-382).  Each round sorts
 * the plates by size, stops when the smallest has at least a thirtieth of
 * the tiles, and otherwise appends the smallest plate's tiles to the first
 * later plate that touches it and drops the smallest with `swap_remove`.
 */
module PlanetMerge {
  import opened Outcomes
  import opened PlanetTile
  import PlanetPlate

  type Plate = PlanetPlate.Plate

  // ---------------------------------------------------------------------------
  // Bags over a list of plates

  /** The sum over the plates of `f`. */
  ghost function Total(s: seq<Plate>, f: Plate -> multiset<nat>): multiset<nat>
  {
    if s == [] then multiset{} else Total(s[..|s| - 1], f) + f(s[|s| - 1])
  }

  /** A plate's tiles, with repetitions. */
  function TileBag(p: Plate): multiset<nat>
  {
    multiset(p.tiles)
  }

  /** A plate's id. */
  function IdBag(p: Plate): multiset<nat>
  {
    multiset{p.id}
  }

  /** The first plates of a list and the rest add up to the whole. */
  lemma {:induction false} TotalAppend(a: seq<Plate>, b: seq<Plate>, f: Plate -> multiset<nat>)
    ensures Total(a + b, f) == Total(a, f) + Total(b, f)
    decreases |b|
  {
    if b == [] {
      assert a + b == a;
    } else {
      var n := |b| - 1;
      var ab := a + b;
      assert ab[..|ab| - 1] == a + b[..n] && ab[|ab| - 1] == b[n];
      TotalAppend(a, b[..n], f);
      assert Total(ab, f) == Total(a + b[..n], f) + f(b[n]);
      assert Total(b, f) == Total(b[..n], f) + f(b[n]);
    }
  }

  /** A single plate adds its own share. */
  lemma TotalSingle(p: Plate, f: Plate -> multiset<nat>)
    ensures Total([p], f) == f(p)
  {
    assert [p][..0] == [];
  }

  /** Taking plate `i` out takes its share out of the sum. */
  lemma TotalRemove(s: seq<Plate>, i: nat, f: Plate -> multiset<nat>)
    requires i < |s|
    ensures Total(s, f) == Total(s[..i] + s[i + 1..], f) + f(s[i])
  {
    var front, back := s[..i], s[i + 1..];
    assert s == (front + [s[i]]) + back;
    TotalAppend(front + [s[i]], back, f);
    TotalAppend(front, [s[i]], f);
    TotalAppend(front, back, f);
    TotalSingle(s[i], f);
  }

  /** The sum does not depend on the order of the plates. */
  lemma {:induction false} TotalPermutation(a: seq<Plate>, b: seq<Plate>, f: Plate -> multiset<nat>)
    requires multiset(a) == multiset(b)
    ensures Total(a, f) == Total(b, f)
    decreases |a|
  {
    if a == [] {
      assert |b| == |multiset(b)| == 0;
    } else {
      var n := |a| - 1;
      var x := a[n];
      assert a == a[..n] + [x];
      assert x in multiset(b);
      var j :| 0 <= j < |b| && b[j] == x;
      var rest := b[..j] + b[j + 1..];
      assert b == b[..j] + [x] + b[j + 1..];
      assert multiset(b) == multiset(rest) + multiset{x};
      assert multiset(a) == multiset(a[..n]) + multiset{x};
      assert multiset(rest) == multiset(b) - multiset{x};
      assert multiset(a[..n]) == multiset(a) - multiset{x};
      TotalPermutation(a[..n], rest, f);
      TotalRemove(b, j, f);
    }
  }

  // ---------------------------------------------------------------------------
  // The stable sort by size (`sort_by` on the tile count, line 339)

  /** Sizes never decrease along the list. */
  ghost predicate BySize(s: seq<Plate>)
  {
    forall i, j :: 0 <= i < j < |s| ==> |s[i].tiles| <= |s[j].tiles|
  }

  /** `x` placed after every plate no larger than it, in a list sorted by size. */
  function Insert(s: seq<Plate>, x: Plate): (r: seq<Plate>)
    ensures |r| == |s| + 1 && multiset(r) == multiset(s) + multiset{x}
    decreases |s|
  {
    if s == [] then [x]
    else
      var n := |s| - 1;
      assert s == s[..n] + [s[n]];
      if |s[n].tiles| <= |x.tiles| then s + [x] else Insert(s[..n], x) + [s[n]]
  }

  /** No plate has more than `m` tiles. */
  ghost predicate AtMost(s: seq<Plate>, m: nat)
  {
    forall i :: 0 <= i < |s| ==> |s[i].tiles| <= m
  }

  /** Inserting a plate of at most `m` tiles among such plates keeps them at most `m`. */
  lemma {:induction false} InsertAtMost(s: seq<Plate>, x: Plate, m: nat)
    requires AtMost(s, m) && |x.tiles| <= m
    ensures AtMost(Insert(s, x), m)
    decreases |s|
  {
    if s != [] {
      var n := |s| - 1;
      if |s[n].tiles| > |x.tiles| {
        InsertAtMost(s[..n], x, m);
      }
    }
  }

  /** Inserting into a list sorted by size keeps it sorted. */
  lemma {:induction false} InsertSorted(s: seq<Plate>, x: Plate)
    requires BySize(s)
    ensures BySize(Insert(s, x))
    decreases |s|
  {
    if s != [] {
      var n := |s| - 1;
      if |s[n].tiles| > |x.tiles| {
        InsertSorted(s[..n], x);
        InsertAtMost(s[..n], x, |s[n].tiles|);
      }
    }
  }

  /** The plates sorted by size, equal sizes kept in their order: Rust's stable `sort_by`. */
  function SortBySize(s: seq<Plate>): (r: seq<Plate>)
    ensures |r| == |s| && multiset(r) == multiset(s) && BySize(r)
    decreases |s|
  {
    if s == [] then []
    else
      var n := |s| - 1;
      assert s == s[..n] + [s[n]];
      InsertSorted(SortBySize(s[..n]), s[n]);
      Insert(SortBySize(s[..n]), s[n])
  }

  /** Sorting a list is inserting its last plate into its sorted front. */
  lemma SortLast(s: seq<Plate>)
    requires s != []
    ensures SortBySize(s) == Insert(SortBySize(s[..|s| - 1]), s[|s| - 1])
  {
  }

  /** A plate no smaller than the last of a list goes at its end. */
  lemma InsertAfter(s: seq<Plate>, x: Plate)
    requires s == [] || |s[|s| - 1].tiles| <= |x.tiles|
    ensures Insert(s, x) == s + [x]
  {
  }

  /** Sorting a list already sorted by size leaves it as it is. */
  lemma {:induction false} SortSorted(s: seq<Plate>)
    requires BySize(s)
    ensures SortBySize(s) == s
    decreases |s|
  {
    if s != [] {
      var n := |s| - 1;
      var front := s[..n];
      assert BySize(front);
      assert front == [] || |front[n - 1].tiles| <= |s[n].tiles|;
      SortSorted(front);
      SortLast(s);
      InsertAfter(front, s[n]);
      assert s == front + [s[n]];
    }
  }

  // ---------------------------------------------------------------------------
  // One round of merging

  /** `swap_remove(0)`: the last plate takes the first plate's place. */
  function SwapRemoveFirst(s: seq<Plate>): (r: seq<Plate>)
    requires |s| > 0
    ensures |r| == |s| - 1 && multiset(r) == multiset(s[1..])
  {
    var n := |s| - 1;
    if n == 0 then []
    else
      assert s[1..] == s[1..n] + [s[n]];
      [s[n]] + s[1..n]
  }

  /** Lines 372-375: plate `i` takes the first plate's tiles at its end, and the first plate goes. */
  function Merge(s: seq<Plate>, i: nat): (r: seq<Plate>)
    requires 1 <= i < |s|
    ensures |r| == |s| - 1
  {
    SwapRemoveFirst(s[i := s[i].(tiles := s[i].tiles + s[0].tiles)])
  }

  /** `swap_remove(0)` takes the first plate's share out of the sum. */
  lemma SwapRemoveTotal(s: seq<Plate>, f: Plate -> multiset<nat>)
    requires |s| > 0
    ensures Total(SwapRemoveFirst(s), f) + f(s[0]) == Total(s, f)
  {
    var r := SwapRemoveFirst(s);
    TotalRemove(s, 0, f);
    assert s[..0] + s[1..] == s[1..];
    TotalPermutation(r, s[1..], f);
  }

  /** Replacing plate `i` replaces its share of the sum. */
  lemma UpdateTotal(s: seq<Plate>, i: nat, x: Plate, f: Plate -> multiset<nat>)
    requires i < |s|
    ensures Total(s[i := x], f) + f(s[i]) == Total(s, f) + f(x)
  {
    var u := s[i := x];
    TotalRemove(u, i, f);
    TotalRemove(s, i, f);
    assert u[..i] + u[i + 1..] == s[..i] + s[i + 1..];
  }

  /** A bag added to both sides cancels. */
  lemma Cancel(a: multiset<nat>, b: multiset<nat>, c: multiset<nat>)
    requires a + c == b + c
    ensures a == b
  {
    assert forall k :: a[k] == (a + c)[k] - c[k];
  }

  /** `a` is `ts` when `a + b` makes `tu` and `tu + c` makes `ts + (c + b)`. */
  lemma Shift(a: multiset<nat>, b: multiset<nat>, c: multiset<nat>, tu: multiset<nat>, ts: multiset<nat>)
    requires a + b == tu && tu + c == ts + (c + b)
    ensures a == ts
  {
    Cancel(a, ts, c + b);
  }

  /** A merge keeps every tile. */
  lemma MergeTiles(s: seq<Plate>, i: nat)
    requires 1 <= i < |s|
    ensures Total(Merge(s, i), TileBag) == Total(s, TileBag)
  {
    var x := s[i].(tiles := s[i].tiles + s[0].tiles);
    var u := s[i := x];
    var m := Merge(s, i);
    assert m == SwapRemoveFirst(u);
    UpdateTotal(s, i, x, TileBag);
    SwapRemoveTotal(u, TileBag);
    assert u[0] == s[0] && TileBag(x) == TileBag(s[i]) + TileBag(s[0]);
    Shift(Total(m, TileBag), TileBag(s[0]), TileBag(s[i]), Total(u, TileBag), Total(s, TileBag));
  }

  /** A merge keeps every id but the first plate's. */
  lemma MergeIds(s: seq<Plate>, i: nat)
    requires 1 <= i < |s|
    ensures Total(Merge(s, i), IdBag) + multiset{s[0].id} == Total(s, IdBag)
  {
    var x := s[i].(tiles := s[i].tiles + s[0].tiles);
    var u := s[i := x];
    var m := Merge(s, i);
    assert m == SwapRemoveFirst(u);
    UpdateTotal(s, i, x, IdBag);
    SwapRemoveTotal(u, IdBag);
    assert IdBag(x) == IdBag(s[i]);
    Cancel(Total(u, IdBag), Total(s, IdBag), IdBag(s[i]));
  }

  /** Each plate's share is part of the sum. */
  lemma {:induction false} TotalHas(s: seq<Plate>, p: Plate, f: Plate -> multiset<nat>)
    requires p in s
    ensures f(p) <= Total(s, f)
    decreases |s|
  {
    var n := |s| - 1;
    if s[n] != p {
      assert p in s[..n] by {
        var k :| 0 <= k < |s| && s[k] == p;
        assert s[..n][k] == p;
      }
      TotalHas(s[..n], p, f);
    }
  }

  // ---------------------------------------------------------------------------
  // Finding a neighbouring plate (lines 347-363)

  /** A tile of `own` has a neighbour listed in `other`. */
  ghost predicate Touching(own: Plate, other: Plate, tn: seq<seq<nat>>)
  {
    exists t, u :: t in own.tiles && t < |tn| && u in tn[t] && u in other.tiles
  }

  /** The inner two loops of lines 352-360: whether some tile of `own` has a neighbour in `other`. */
  method PlatesTouch(own: Plate, other: Plate, tn: seq<seq<nat>>) returns (b: bool)
    requires forall i :: 0 <= i < |own.tiles| ==> own.tiles[i] < |tn|
    ensures b <==> Touching(own, other, tn)
  {
    var j := 0;
    while j < |own.tiles|
      invariant 0 <= j <= |own.tiles|
      invariant forall j', u :: 0 <= j' < j && u in tn[own.tiles[j']] ==> u !in other.tiles
    {
      var near := tn[own.tiles[j]];
      var k := 0;
      while k < |near|
        invariant 0 <= k <= |near|
        invariant forall k' :: 0 <= k' < k ==> near[k'] !in other.tiles
      {
        if near[k] in other.tiles {
          return true;
        }
        k := k + 1;
      }
      j := j + 1;
    }
    return false;
  }

  /** Lines 349-363: the first plate after the first that touches it, if any. */
  method FindNeighbourPlate(plates: seq<Plate>, tn: seq<seq<nat>>) returns (r: Option<nat>)
    requires |plates| > 0
    requires forall i :: 0 <= i < |plates[0].tiles| ==> plates[0].tiles[i] < |tn|
    ensures r.Some? ==> 1 <= r.value < |plates| && Touching(plates[0], plates[r.value], tn)
    ensures r.Some? ==> forall j :: 1 <= j < r.value ==> !Touching(plates[0], plates[j], tn)
    ensures r.None? ==> forall j :: 1 <= j < |plates| ==> !Touching(plates[0], plates[j], tn)
  {
    var i := 1;
    while i < |plates|
      invariant 1 <= i <= |plates|
      invariant forall j :: 1 <= j < i ==> !Touching(plates[0], plates[j], tn)
    {
      var touch := PlatesTouch(plates[0], plates[i], tn);
      if touch {
        return Some(i);
      }
      i := i + 1;
    }
    return None;
  }

  // ---------------------------------------------------------------------------
  // The merge loop

  /** Every listed tile has a neighbour list. */
  ghost predicate Listed(plates: seq<Plate>, tn: seq<seq<nat>>)
  {
    forall k, i :: 0 <= k < |plates| && 0 <= i < |plates[k].tiles| ==> plates[k].tiles[i] < |tn|
  }

  /** Where `merge_plates` panics: sorted, the smallest too small, and no later plate touching it. */
  ghost predicate Stuck(plates: seq<Plate>, tn: seq<seq<nat>>, minSize: nat)
  {
    && |plates| > 0 && BySize(plates) && |plates[0].tiles| < minSize
    && forall j :: 1 <= j < |plates| ==> !Touching(plates[0], plates[j], tn)
  }

  /** Sorting keeps the tiles, the ids and the neighbour lists to hand. */
  lemma SortKeeps(s: seq<Plate>, tn: seq<seq<nat>>)
    requires Listed(s, tn)
    ensures Total(SortBySize(s), TileBag) == Total(s, TileBag)
    ensures Total(SortBySize(s), IdBag) == Total(s, IdBag)
    ensures Listed(SortBySize(s), tn)
  {
    var r := SortBySize(s);
    TotalPermutation(r, s, TileBag);
    TotalPermutation(r, s, IdBag);
    forall k | 0 <= k < |r|
      ensures exists m :: 0 <= m < |s| && s[m] == r[k]
    {
      assert r[k] in multiset(s);
    }
  }

  /** A merge keeps the neighbour lists to hand. */
  lemma MergeListed(s: seq<Plate>, i: nat, tn: seq<seq<nat>>)
    requires 1 <= i < |s| && Listed(s, tn)
    ensures Listed(Merge(s, i), tn)
  {
    var u := s[i := s[i].(tiles := s[i].tiles + s[0].tiles)];
    assert Listed(u, tn) by {
      forall k, j | 0 <= k < |u| && 0 <= j < |u[k].tiles|
        ensures u[k].tiles[j] < |tn|
      {
        if k == i && j >= |s[i].tiles| {
          assert u[k].tiles[j] == s[0].tiles[j - |s[i].tiles|];
        }
      }
    }
  }

  /** A merge round keeps the tiles, takes ids only away, and keeps the neighbour lists to hand. */
  lemma MergeRound(plates: seq<Plate>, ps: seq<Plate>, i: nat, tn: seq<seq<nat>>)
    requires 1 <= i < |ps| && Listed(ps, tn)
    requires Total(ps, TileBag) == Total(plates, TileBag) && Total(ps, IdBag) <= Total(plates, IdBag)
    ensures Listed(Merge(ps, i), tn)
    ensures Total(Merge(ps, i), TileBag) == Total(plates, TileBag)
    ensures Total(Merge(ps, i), IdBag) <= Total(plates, IdBag)
  {
    MergeTiles(ps, i);
    MergeIds(ps, i);
    MergeListed(ps, i, tn);
  }

  /**
   * `merge_plates` (lines 333-382, without the final `assign_plates`):
   * `Panic` where the source panics, on an empty plate list (line 340) or
   * when the smallest plate touches no other (line 367); `stuck` is then
   * the round at which it was stuck.  Otherwise every tile is kept, no id
   * is made up, and every plate has at least `numTiles / 30` tiles.
   */
  method MergePlates(plates: seq<Plate>, tn: seq<seq<nat>>, numTiles: nat)
    returns (r: Outcome<seq<Plate>>, ghost stuck: seq<Plate>)
    requires Listed(plates, tn)
    ensures r.Done? ==> plates != [] && 0 < |r.value| <= |plates| && BySize(r.value) && Listed(r.value, tn)
    ensures r.Done? ==> Total(r.value, TileBag) == Total(plates, TileBag)
    ensures r.Done? ==> Total(r.value, IdBag) <= Total(plates, IdBag)
    ensures r.Done? ==> forall k :: 0 <= k < |r.value| ==> |r.value[k].tiles| >= numTiles / 30
    ensures r.Panic? ==>
      plates == [] ||
      (Stuck(stuck, tn, numTiles / 30) && Total(stuck, TileBag) == Total(plates, TileBag) && |stuck| <= |plates|)
  {
    var minSize := numTiles / 30;
    var ps := plates;
    stuck := [];
    while true
      invariant Listed(ps, tn) && |ps| <= |plates| && (plates != [] ==> ps != [])
      invariant Total(ps, TileBag) == Total(plates, TileBag)
      invariant Total(ps, IdBag) <= Total(plates, IdBag)
      decreases |ps|
    {
      SortKeeps(ps, tn);
      ps := SortBySize(ps);
      if ps == [] {
        return Panic, stuck;
      }
      if |ps[0].tiles| >= minSize {
        assert forall k :: 0 <= k < |ps| ==> |ps[k].tiles| >= minSize by {
          assert BySize(ps);
        }
        return Done(ps), stuck;
      }
      var other := FindNeighbourPlate(ps, tn);
      if other.None? {
        return Panic, ps;
      }
      MergeRound(plates, ps, other.value, tn);
      ps := Merge(ps, other.value);
    }
  }

  // ---------------------------------------------------------------------------
  // Writing the plate ids back (lines 299-308)

  /** The id `assign_plates` leaves on tile `t`: that of the last plate listing it, or `d` if none does. */
  function Owner(plates: seq<Plate>, t: nat, d: nat): (id: nat)
    ensures id == d || exists k :: 0 <= k < |plates| && t in plates[k].tiles && plates[k].id == id
  {
    if plates == [] then d
    else
      var n := |plates| - 1;
      if t in plates[n].tiles then plates[n].id else Owner(plates[..n], t, d)
  }

  /** The inner loop of lines 302-305: every tile of one plate takes its id. */
  method AssignPlate(tiles: seq<Tile>, p: Plate) returns (tiles': seq<Tile>)
    requires forall i :: 0 <= i < |p.tiles| ==> p.tiles[i] < |tiles|
    ensures |tiles'| == |tiles|
    ensures forall t :: 0 <= t < |tiles| ==> tiles'[t] == if t in p.tiles then tiles[t].(plateId := p.id) else tiles[t]
  {
    tiles' := tiles;
    var i := 0;
    while i < |p.tiles|
      invariant 0 <= i <= |p.tiles| && |tiles'| == |tiles|
      invariant forall t :: 0 <= t < |tiles| ==>
        tiles'[t] == if t in p.tiles[..i] then tiles[t].(plateId := p.id) else tiles[t]
    {
      var t := p.tiles[i];
      tiles' := tiles'[t := tiles'[t].(plateId := p.id)];
      assert p.tiles[..i + 1] == p.tiles[..i] + [t];
      i := i + 1;
    }
    assert p.tiles[..i] == p.tiles;
  }

  /** `assign_plates` (lines 299-308): plate by plate, every listed tile takes the plate's id. */
  method AssignPlates(tiles: seq<Tile>, plates: seq<Plate>) returns (tiles': seq<Tile>)
    requires forall k, i :: 0 <= k < |plates| && 0 <= i < |plates[k].tiles| ==> plates[k].tiles[i] < |tiles|
    ensures |tiles'| == |tiles|
    ensures forall t :: 0 <= t < |tiles| ==> tiles'[t] == tiles[t].(plateId := Owner(plates, t, tiles[t].plateId))
  {
    tiles' := tiles;
    var k := 0;
    while k < |plates|
      invariant 0 <= k <= |plates| && |tiles'| == |tiles|
      invariant forall t :: 0 <= t < |tiles| ==> tiles'[t] == tiles[t].(plateId := Owner(plates[..k], t, tiles[t].plateId))
    {
      tiles' := AssignPlate(tiles', plates[k]);
      assert plates[..k + 1][..k] == plates[..k];
      k := k + 1;
    }
    assert plates[..k] == plates;
  }

  /** A tile listed once over all the plates takes the id of the plate listing it. */
  lemma {:induction false} OwnerOfListed(plates: seq<Plate>, t: nat, d: nat, k: nat)
    requires k < |plates| && t in plates[k].tiles && Total(plates, TileBag)[t] <= 1
    ensures Owner(plates, t, d) == plates[k].id
    decreases |plates|
  {
    var n := |plates| - 1;
    if k < n {
      assert plates[..n][k] == plates[k];
      TotalHas(plates[..n], plates[k], TileBag);
      assert t !in plates[n].tiles;
      OwnerOfListed(plates[..n], t, d, k);
    }
  }
}
