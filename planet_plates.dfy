/**
 * Plate seeding and growth (`initialize_plates` and `grow_plates`,
 * src/terrain/planet/mod.rs:219-331).  Plate `k` (counting from 0) has id
 * `k + 1`; a tile's `plateId` is 0 until a plate claims it.  Seeding claims
 * the tiles at randomly drawn corners none of whose tiles is claimed yet;
 * growth then takes entries from a work queue of (tile, plate id) at random
 * places, claiming each tile still free and queueing its free neighbours.
 *
 * The random draws are parameters: `draw(i)` is the corner drawn the
 * `i`-th time, and `pick(i)` the `i`-th number in [0, 1) from which a
 * queue position is computed.
 */
module PlanetPlates {
  import opened PlanetTile
  import PlanetPlate

  type Plate = PlanetPlate.Plate

  /** A queue entry: a tile and the id of the plate that would claim it. */
  type Entry = (nat, nat)

  /** The most consecutive refused corner draws before seeding gives up (line 233). */
  const MaxFailures: nat := 10000

  /** Every neighbour list is a list of tile indices, one list per tile. */
  ghost predicate NeighboursIn(tn: seq<seq<nat>>, n: nat)
  {
    |tn| == n && forall t, i :: 0 <= t < n && 0 <= i < |tn[t]| ==> tn[t][i] < n
  }

  /** Plate `k` has id `k + 1`, and lists exactly the tiles whose `plateId` is `k + 1`. */
  ghost predicate Consistent(tiles: seq<Tile>, plates: seq<Plate>)
  {
    && (forall k :: 0 <= k < |plates| ==> plates[k].id == k + 1)
    && (forall k, i :: 0 <= k < |plates| && 0 <= i < |plates[k].tiles| ==> plates[k].tiles[i] < |tiles|)
    && (forall t :: 0 <= t < |tiles| ==> tiles[t].plateId <= |plates|)
    && (forall t, k :: 0 <= t < |tiles| && 0 <= k < |plates| ==> (t in plates[k].tiles <==> tiles[t].plateId == k + 1))
  }

  /** Only the plate ids differ between the two tile lists. */
  ghost predicate SameTiles(tiles: seq<Tile>, tiles': seq<Tile>)
  {
    |tiles'| == |tiles| && forall t :: 0 <= t < |tiles| ==> tiles'[t] == tiles[t].(plateId := tiles'[t].plateId)
  }

  /** Only the plate ids differ, and no claimed tile changed plate. */
  ghost predicate Kept(tiles: seq<Tile>, tiles': seq<Tile>)
  {
    && SameTiles(tiles, tiles')
    && forall t :: 0 <= t < |tiles| && tiles[t].plateId != 0 ==> tiles'[t].plateId == tiles[t].plateId
  }

  /** The tiles of the queue's entries, in queue order. */
  function Firsts(queue: seq<Entry>): (r: seq<nat>)
    ensures |r| == |queue| && forall i :: 0 <= i < |queue| ==> r[i] == queue[i].0
  {
    seq(|queue|, i requires 0 <= i < |queue| => queue[i].0)
  }

  /** Every plate's tiles are the tile list of one corner. */
  ghost predicate FromCorners(plates: seq<Plate>, vt: seq<seq<nat>>)
  {
    forall k :: 0 <= k < |plates| ==> exists v :: 0 <= v < |vt| && plates[k].tiles == vt[v]
  }

  /** Every neighbour of tile `t` is claimed or waiting in the queue. */
  ghost predicate Covered(tiles: seq<Tile>, tn: seq<seq<nat>>, queue: seq<Entry>, t: nat)
  {
    t < |tn| && forall u :: u in tn[t] && u < |tiles| ==> tiles[u].plateId != 0 || u in Firsts(queue)
  }

  /** Every neighbour of a claimed tile is claimed or waiting in the queue. */
  ghost predicate Frontier(tiles: seq<Tile>, tn: seq<seq<nat>>, queue: seq<Entry>)
  {
    forall t :: 0 <= t < |tiles| && tiles[t].plateId != 0 ==> Covered(tiles, tn, queue, t)
  }

  /** Tile `u` is a neighbour of one of the plate's tiles. */
  ghost predicate NextTo(p: Plate, tn: seq<seq<nat>>, u: nat)
  {
    exists t :: 0 <= t < |tn| && t in p.tiles && u in tn[t]
  }

  /** Every entry names a tile and an existing plate, and the tile is a neighbour of that plate. */
  ghost predicate QueueValid(queue: seq<Entry>, tiles: seq<Tile>, plates: seq<Plate>, tn: seq<seq<nat>>)
  {
    forall i :: 0 <= i < |queue| ==>
      queue[i].0 < |tiles| && 1 <= queue[i].1 <= |plates| && NextTo(plates[queue[i].1 - 1], tn, queue[i].0)
  }

  /** One of the tiles at a corner is claimed, so the corner is refused. */
  ghost predicate Touched(tiles: seq<Tile>, corner: seq<nat>)
  {
    exists i :: 0 <= i < |corner| && corner[i] < |tiles| && tiles[corner[i]].plateId > 0
  }

  /** No corner lists a tile twice. */
  ghost predicate CornersUnrepeated(vt: seq<seq<nat>>)
  {
    forall v, i, j :: 0 <= v < |vt| && 0 <= i < j < |vt[v]| ==> vt[v][i] != vt[v][j]
  }

  /** No plate lists a tile twice. */
  ghost predicate Unrepeated(plates: seq<Plate>)
  {
    forall k, i, j :: 0 <= k < |plates| && 0 <= i < j < |plates[k].tiles| ==> plates[k].tiles[i] != plates[k].tiles[j]
  }

  /** No claimed tile has a free neighbour. */
  ghost predicate Closed(tiles: seq<Tile>, tn: seq<seq<nat>>)
  {
    forall t, u :: 0 <= t < |tiles| && 0 <= t < |tn| && u in tn[t] && u < |tiles| && tiles[t].plateId != 0 ==>
      tiles[u].plateId != 0
  }

  // ---------------------------------------------------------------------------
  // Seeding

  /** Lines 220-223: every tile's plate id back to 0. */
  method ResetPlateIds(tiles: seq<Tile>) returns (tiles': seq<Tile>)
    ensures |tiles'| == |tiles| && forall t :: 0 <= t < |tiles| ==> tiles'[t] == tiles[t].(plateId := 0)
  {
    tiles' := tiles;
    var t := 0;
    while t < |tiles|
      invariant 0 <= t <= |tiles| && |tiles'| == |tiles|
      invariant forall s :: 0 <= s < |tiles| ==> tiles'[s] == if s < t then tiles[s].(plateId := 0) else tiles[s]
    {
      tiles' := tiles'[t := tiles'[t].(plateId := 0)];
      t := t + 1;
    }
  }

  /** Lines 235-242: whether one of the corner's tiles is already claimed. */
  method AnyClaimed(tiles: seq<Tile>, corner: seq<nat>) returns (b: bool)
    requires forall i :: 0 <= i < |corner| ==> corner[i] < |tiles|
    ensures b <==> Touched(tiles, corner)
  {
    b := false;
    var i := 0;
    while i < |corner|
      invariant 0 <= i <= |corner|
      invariant forall j :: 0 <= j < i ==> tiles[corner[j]].plateId == 0
    {
      if tiles[corner[i]].plateId > 0 {
        return true;
      }
      i := i + 1;
    }
  }

  /**
   * Lines 249-256: a new plate with the next id, claiming every tile at the
   * corner, in the corner's order.
   */
  method ClaimCorner(tiles: seq<Tile>, plates: seq<Plate>, corner: seq<nat>) returns (tiles': seq<Tile>, plate: Plate)
    requires forall i :: 0 <= i < |corner| ==> corner[i] < |tiles|
    requires Consistent(tiles, plates) && !Touched(tiles, corner)
    ensures plate.id == |plates| + 1 && plate.tiles == corner
    ensures SameTiles(tiles, tiles')
    ensures forall t :: 0 <= t < |tiles| ==> tiles'[t].plateId == if t in corner then |plates| + 1 else tiles[t].plateId
    ensures Consistent(tiles', plates + [plate])
  {
    var id := |plates| + 1;
    plate := PlanetPlate.New(id);
    tiles' := tiles;
    var i := 0;
    while i < |corner|
      invariant 0 <= i <= |corner|
      invariant plate.id == id && plate.tiles == corner[..i]
      invariant SameTiles(tiles, tiles')
      invariant forall t :: 0 <= t < |tiles| ==> tiles'[t].plateId == if t in corner[..i] then id else tiles[t].plateId
    {
      var c := corner[i];
      plate := plate.AddTile(c);
      tiles' := tiles'[c := tiles'[c].(plateId := id)];
      assert corner[..i + 1] == corner[..i] + [c];
      i := i + 1;
    }
    assert corner[..i] == corner;
    forall t | 0 <= t < |tiles| && t in corner
      ensures tiles[t].plateId == 0
    {
      var j :| 0 <= j < |corner| && corner[j] == t;
    }
  }

  /** Lines 259-264 for one claimed tile: queue each of its neighbours still free, with the plate's id. */
  method QueueFree(tiles: seq<Tile>, tn: seq<seq<nat>>, queue: seq<Entry>, c: nat, id: nat) returns (queue': seq<Entry>)
    requires NeighboursIn(tn, |tiles|) && c < |tiles|
    ensures |queue'| >= |queue| && queue'[..|queue|] == queue
    ensures forall i :: |queue| <= i < |queue'| ==>
      queue'[i].1 == id && queue'[i].0 in tn[c] && queue'[i].0 < |tiles| && tiles[queue'[i].0].plateId == 0
    ensures forall u :: u in tn[c] ==> tiles[u].plateId != 0 || u in Firsts(queue')
    ensures forall u :: u in Firsts(queue) ==> u in Firsts(queue')
  {
    queue' := queue;
    var k := 0;
    while k < |tn[c]|
      invariant 0 <= k <= |tn[c]|
      invariant |queue'| >= |queue| && queue'[..|queue|] == queue
      invariant forall i :: |queue| <= i < |queue'| ==>
        queue'[i].1 == id && queue'[i].0 in tn[c] && queue'[i].0 < |tiles| && tiles[queue'[i].0].plateId == 0
      invariant forall j :: 0 <= j < k ==> tiles[tn[c][j]].plateId != 0 || tn[c][j] in Firsts(queue')
      invariant forall u :: u in Firsts(queue) ==> u in Firsts(queue')
    {
      var other := tn[c][k];
      if tiles[other].plateId == 0 {
        ghost var before := queue';
        queue' := queue' + [(other, id)];
        assert Firsts(queue') == Firsts(before) + [other];
      }
      k := k + 1;
    }
  }

  /** Lines 258-265: for each corner tile in order, `QueueFree`. */
  method QueueCorner(tiles: seq<Tile>, tn: seq<seq<nat>>, queue: seq<Entry>, corner: seq<nat>, id: nat)
    returns (queue': seq<Entry>)
    requires NeighboursIn(tn, |tiles|)
    requires forall i :: 0 <= i < |corner| ==> corner[i] < |tiles|
    ensures |queue'| >= |queue| && queue'[..|queue|] == queue
    ensures forall i :: |queue| <= i < |queue'| ==>
      queue'[i].1 == id && queue'[i].0 < |tiles| && tiles[queue'[i].0].plateId == 0 &&
      exists j :: 0 <= j < |corner| && queue'[i].0 in tn[corner[j]]
    ensures forall j, u :: 0 <= j < |corner| && u in tn[corner[j]] ==> tiles[u].plateId != 0 || u in Firsts(queue')
    ensures forall u :: u in Firsts(queue) ==> u in Firsts(queue')
  {
    queue' := queue;
    var j := 0;
    while j < |corner|
      invariant 0 <= j <= |corner|
      invariant |queue'| >= |queue| && queue'[..|queue|] == queue
      invariant forall i :: |queue| <= i < |queue'| ==>
        queue'[i].1 == id && queue'[i].0 < |tiles| && tiles[queue'[i].0].plateId == 0 &&
        exists j' :: 0 <= j' < j && queue'[i].0 in tn[corner[j']]
      invariant forall j', u :: 0 <= j' < j && u in tn[corner[j']] ==> tiles[u].plateId != 0 || u in Firsts(queue')
      invariant forall u :: u in Firsts(queue) ==> u in Firsts(queue')
    {
      ghost var before := queue';
      queue' := QueueFree(tiles, tn, queue', corner[j], id);
      assert queue'[..|queue|] == before[..|before|][..|queue|];
      j := j + 1;
    }
  }

  /**
   * Lines 249-267: claim a corner none of whose tiles is claimed, as a new
   * plate, and queue the free neighbours of its tiles.
   */
  method SeedPlate(tiles: seq<Tile>, plates: seq<Plate>, tn: seq<seq<nat>>, queue: seq<Entry>, corner: seq<nat>)
    returns (tiles': seq<Tile>, plates': seq<Plate>, queue': seq<Entry>)
    requires NeighboursIn(tn, |tiles|)
    requires forall i :: 0 <= i < |corner| ==> corner[i] < |tiles|
    requires Consistent(tiles, plates) && !Touched(tiles, corner)
    requires QueueValid(queue, tiles, plates, tn) && Frontier(tiles, tn, queue)
    ensures plates' == plates + [PlanetPlate.Plate(|plates| + 1, corner)]
    ensures SameTiles(tiles, tiles') && Kept(tiles, tiles')
    ensures Consistent(tiles', plates')
    ensures QueueValid(queue', tiles', plates', tn) && Frontier(tiles', tn, queue')
  {
    var plate;
    tiles', plate := ClaimCorner(tiles, plates, corner);
    plates' := plates + [plate];
    queue' := QueueCorner(tiles', tn, queue, corner, plate.id);
    forall i | 0 <= i < |queue'|
      ensures queue'[i].0 < |tiles'| && 1 <= queue'[i].1 <= |plates'| && NextTo(plates'[queue'[i].1 - 1], tn, queue'[i].0)
    {
      if i < |queue| {
        assert queue'[i] == queue[i];
        var k := queue[i].1 - 1;
        assert plates'[k] == plates[k];
      } else {
        var j :| 0 <= j < |corner| && queue'[i].0 in tn[corner[j]];
        assert corner[j] in plate.tiles;
      }
    }
    forall t | 0 <= t < |tiles'| && tiles'[t].plateId != 0
      ensures Covered(tiles', tn, queue', t)
    {
      if t in corner {
        var j :| 0 <= j < |corner| && corner[j] == t;
      } else {
        assert Covered(tiles, tn, queue, t);
      }
    }
  }

  /**
   * `initialize_plates` (lines 219-274): clear every plate id, then draw
   * corners until there are `numPlates` plates or `MaxFailures` draws in a
   * row were refused.  A drawn corner with a claimed tile is refused;
   * otherwise it becomes the next plate.  `draw(i)` is the `i`-th corner
   * drawn; `calls` is how many were drawn.  The source's `Range::new(0, 0)`
   * panics, hence `|vt| > 0`.
   */
  method InitializePlates(tiles: seq<Tile>, vt: seq<seq<nat>>, tn: seq<seq<nat>>, numPlates: nat, draw: nat -> nat)
    returns (tiles': seq<Tile>, plates: seq<Plate>, queue: seq<Entry>, calls: nat)
    requires NeighboursIn(tn, |tiles|) && |vt| > 0
    requires forall v, i :: 0 <= v < |vt| && 0 <= i < |vt[v]| ==> vt[v][i] < |tiles|
    requires forall i :: draw(i) < |vt|
    ensures SameTiles(tiles, tiles') && Consistent(tiles', plates) && |plates| <= numPlates
    ensures FromCorners(plates, vt) && (CornersUnrepeated(vt) ==> Unrepeated(plates))
    ensures QueueValid(queue, tiles', plates, tn) && Frontier(tiles', tn, queue)
    ensures |plates| < numPlates ==>
      calls >= MaxFailures && forall i :: calls - MaxFailures <= i < calls ==> Touched(tiles', vt[draw(i)])
  {
    tiles' := ResetPlateIds(tiles);
    plates := [];
    queue := [];
    calls := 0;
    var failed := 0;
    while |plates| < numPlates && failed < MaxFailures
      invariant SameTiles(tiles, tiles') && Consistent(tiles', plates) && |plates| <= numPlates
      invariant FromCorners(plates, vt) && (CornersUnrepeated(vt) ==> Unrepeated(plates))
      invariant QueueValid(queue, tiles', plates, tn) && Frontier(tiles', tn, queue)
      invariant failed <= MaxFailures && failed <= calls
      invariant forall i :: calls - failed <= i < calls ==> Touched(tiles', vt[draw(i)])
      decreases numPlates - |plates|, MaxFailures - failed
    {
      var v := draw(calls);
      var corner := vt[v];
      calls := calls + 1;
      var refused := AnyClaimed(tiles', corner);
      if refused {
        failed := failed + 1;
      } else {
        ghost var tiles0, plates0 := tiles', plates;
        tiles', plates, queue := SeedPlate(tiles', plates, tn, queue, corner);
        failed := 0;
        assert plates[|plates0|].tiles == vt[v];
        assert forall k :: 0 <= k < |plates0| ==> plates[k] == plates0[k];
      }
    }
  }

  // ---------------------------------------------------------------------------
  // Growth

  /** `0 <= s * n < n` for `0 <= s < 1` and positive `n`. */
  lemma ScaleBelow(s: real, n: real)
    requires 0.0 <= s < 1.0 && n > 0.0
    ensures 0.0 <= s * n < n
  {
    assert n - s * n == (1.0 - s) * n;
  }

  /**
   * Line 315: the queue position from a draw `r` in [0, 1), the floor of
   * `r * r * len`, which favours the front of the queue.
   */
  function QueueIndex(r: real, len: nat): (idx: nat)
    requires 0.0 <= r < 1.0 && len > 0
    ensures idx < len
    ensures idx as real <= r * r * (len as real) < idx as real + 1.0
  {
    var s := r * r;
    assert 0.0 <= s < 1.0 by {
      if r > 0.0 {
        ScaleBelow(r, r);
      }
    }
    ScaleBelow(s, len as real);
    (s * (len as real)).Floor
  }

  /** The number of tiles no plate has claimed. */
  function Unclaimed(tiles: seq<Tile>): (n: nat)
    ensures n <= |tiles|
  {
    if tiles == [] then 0
    else Unclaimed(tiles[..|tiles| - 1]) + (if tiles[|tiles| - 1].plateId == 0 then 1 else 0)
  }

  /** Claiming a free tile leaves one fewer free tile. */
  lemma {:induction false} UnclaimedClaim(tiles: seq<Tile>, t: nat, id: nat)
    requires t < |tiles| && tiles[t].plateId == 0 && id != 0
    ensures Unclaimed(tiles[t := tiles[t].(plateId := id)]) == Unclaimed(tiles) - 1
    decreases |tiles|
  {
    var tiles' := tiles[t := tiles[t].(plateId := id)];
    var n := |tiles| - 1;
    if t < n {
      assert tiles'[..n] == tiles[..n][t := tiles[t].(plateId := id)];
      assert tiles'[n] == tiles[n];
      UnclaimedClaim(tiles[..n], t, id);
    } else {
      assert tiles'[..n] == tiles[..n];
    }
  }

  /** Removing one entry keeps every other entry's tile in the queue. */
  lemma RemoveKeepsFirsts(queue: seq<Entry>, idx: nat, u: nat)
    requires idx < |queue| && u in Firsts(queue) && u != queue[idx].0
    ensures u in Firsts(queue[..idx] + queue[idx + 1..])
  {
    var rest := queue[..idx] + queue[idx + 1..];
    var i :| 0 <= i < |queue| && queue[i].0 == u;
    if i < idx {
      assert rest[i] == queue[i];
    } else {
      assert rest[i - 1] == queue[i];
    }
  }

  /** Lines 316-326 once an entry `(u, id)` is taken out: claim `u` for plate `id` if free, and queue its free neighbours. */
  method GrowStep(tiles: seq<Tile>, plates: seq<Plate>, tn: seq<seq<nat>>, queue: seq<Entry>, u: nat, id: nat)
    returns (tiles': seq<Tile>, plates': seq<Plate>, queue': seq<Entry>)
    requires NeighboursIn(tn, |tiles|) && Consistent(tiles, plates)
    requires u < |tiles| && 1 <= id <= |plates|
    requires QueueValid(queue, tiles, plates, tn) && NextTo(plates[id - 1], tn, u)
    requires forall t :: 0 <= t < |tiles| && tiles[t].plateId != 0 ==>
      Covered(tiles, tn, queue + [(u, id)], t)
    ensures Kept(tiles, tiles') && Consistent(tiles', plates') && |plates'| == |plates|
    ensures forall k :: 0 <= k < |plates| ==> plates'[k].id == plates[k].id
    ensures Unrepeated(plates) ==> Unrepeated(plates')
    ensures QueueValid(queue', tiles', plates', tn) && Frontier(tiles', tn, queue')
    ensures tiles[u].plateId != 0 ==> tiles' == tiles && plates' == plates && queue' == queue
    ensures tiles[u].plateId == 0 ==>
      tiles'[u].plateId == id && Unclaimed(tiles') == Unclaimed(tiles) - 1 &&
      plates' == plates[id - 1 := plates[id - 1].AddTile(u)]
  {
    if tiles[u].plateId != 0 {
      tiles', plates', queue' := tiles, plates, queue;
      forall t | 0 <= t < |tiles| && tiles[t].plateId != 0
        ensures Covered(tiles, tn, queue, t)
      {
        assert Covered(tiles, tn, queue + [(u, id)], t);
        forall w | w in tn[t] && w < |tiles| && tiles[w].plateId == 0
          ensures w in Firsts(queue)
        {
          assert w in Firsts(queue + [(u, id)]);
          var i :| 0 <= i <= |queue| && (queue + [(u, id)])[i].0 == w;
          assert i < |queue|;
        }
      }
      return;
    }
    tiles' := tiles[u := tiles[u].(plateId := id)];
    UnclaimedClaim(tiles, u, id);
    plates' := plates[id - 1 := plates[id - 1].AddTile(u)];
    ClaimConsistent(tiles, plates, u, id);
    ClaimUnrepeated(tiles, plates, u, id);
    queue' := QueueFree(tiles', tn, queue, u, id);
    GrowValid(tiles, plates, tn, queue, u, id, tiles', plates', queue');
  }

  /** Claiming a free tile for a plate, on both sides, keeps the tiles and plates consistent. */
  lemma ClaimConsistent(tiles: seq<Tile>, plates: seq<Plate>, u: nat, id: nat)
    requires Consistent(tiles, plates) && u < |tiles| && tiles[u].plateId == 0 && 1 <= id <= |plates|
    ensures Consistent(tiles[u := tiles[u].(plateId := id)], plates[id - 1 := plates[id - 1].AddTile(u)])
  {
    var tiles' := tiles[u := tiles[u].(plateId := id)];
    var plates' := plates[id - 1 := plates[id - 1].AddTile(u)];
    forall t, k | 0 <= t < |tiles'| && 0 <= k < |plates'|
      ensures t in plates'[k].tiles <==> tiles'[t].plateId == k + 1
    {
      if k == id - 1 {
        assert plates'[k].tiles == plates[k].tiles + [u];
      }
    }
  }

  /** A free tile is listed by no plate, so adding it to one repeats nothing. */
  lemma ClaimUnrepeated(tiles: seq<Tile>, plates: seq<Plate>, u: nat, id: nat)
    requires Consistent(tiles, plates) && u < |tiles| && tiles[u].plateId == 0 && 1 <= id <= |plates|
    ensures Unrepeated(plates) ==> Unrepeated(plates[id - 1 := plates[id - 1].AddTile(u)])
  {
    var plates' := plates[id - 1 := plates[id - 1].AddTile(u)];
    assert u !in plates[id - 1].tiles;
    assert plates'[id - 1].tiles == plates[id - 1].tiles + [u];
  }

  /** The queue after a claim in `GrowStep` is valid and covers the claimed tiles. */
  lemma GrowValid(tiles: seq<Tile>, plates: seq<Plate>, tn: seq<seq<nat>>, queue: seq<Entry>, u: nat, id: nat,
                  tiles': seq<Tile>, plates': seq<Plate>, queue': seq<Entry>)
    requires NeighboursIn(tn, |tiles|) && u < |tiles| && tiles[u].plateId == 0 && 1 <= id <= |plates|
    requires QueueValid(queue, tiles, plates, tn) && NextTo(plates[id - 1], tn, u)
    requires forall t :: 0 <= t < |tiles| && tiles[t].plateId != 0 ==>
      Covered(tiles, tn, queue + [(u, id)], t)
    requires tiles' == tiles[u := tiles[u].(plateId := id)]
    requires plates' == plates[id - 1 := plates[id - 1].AddTile(u)]
    requires |queue'| >= |queue| && queue'[..|queue|] == queue
    requires forall i :: |queue| <= i < |queue'| ==> queue'[i].1 == id && queue'[i].0 in tn[u] && queue'[i].0 < |tiles|
    requires forall w :: w in tn[u] ==> tiles'[w].plateId != 0 || w in Firsts(queue')
    requires forall w :: w in Firsts(queue) ==> w in Firsts(queue')
    ensures QueueValid(queue', tiles', plates', tn) && Frontier(tiles', tn, queue')
  {
    forall i | 0 <= i < |queue'|
      ensures NextTo(plates'[queue'[i].1 - 1], tn, queue'[i].0)
    {
      var k := queue'[i].1 - 1;
      if i < |queue| {
        assert queue'[i] == queue[i];
        var t :| 0 <= t < |tn| && t in plates[k].tiles && queue[i].0 in tn[t];
        assert t in plates'[k].tiles;
      } else {
        assert u in plates'[k].tiles;
      }
    }
    forall t | 0 <= t < |tiles'| && tiles'[t].plateId != 0
      ensures Covered(tiles', tn, queue', t)
    {
      if t != u {
        assert Covered(tiles, tn, queue + [(u, id)], t);
        forall w | w in tn[t] && w < |tiles| && tiles'[w].plateId == 0
          ensures w in Firsts(queue')
        {
          assert w in Firsts(queue + [(u, id)]);
          var i :| 0 <= i <= |queue| && (queue + [(u, id)])[i].0 == w;
          assert i < |queue|;
        }
      }
    }
  }

  /**
   * `grow_plates` (lines 310-331): seed `numPlates` plates (27 in the
   * source), then, until the queue is empty, take out the entry at
   * `QueueIndex(pick(i), |queue|)` for the `i`-th draw; a free tile joins
   * the entry's plate and queues its free neighbours.  When it ends every
   * neighbour of a claimed tile is claimed, and, when no corner lists a
   * tile twice, no plate does either.
   */
  method GrowPlates(tiles: seq<Tile>, vt: seq<seq<nat>>, tn: seq<seq<nat>>, numPlates: nat,
                    draw: nat -> nat, pick: nat -> real)
    returns (tiles': seq<Tile>, plates: seq<Plate>)
    requires NeighboursIn(tn, |tiles|) && |vt| > 0
    requires forall v, i :: 0 <= v < |vt| && 0 <= i < |vt[v]| ==> vt[v][i] < |tiles|
    requires forall i :: draw(i) < |vt|
    requires forall i :: 0.0 <= pick(i) < 1.0
    ensures SameTiles(tiles, tiles') && Consistent(tiles', plates) && |plates| <= numPlates
    ensures CornersUnrepeated(vt) ==> Unrepeated(plates)
    ensures Closed(tiles', tn)
  {
    var queue, calls;
    tiles', plates, queue, calls := InitializePlates(tiles, vt, tn, numPlates, draw);
    var steps := 0;
    while queue != []
      invariant SameTiles(tiles, tiles') && Consistent(tiles', plates) && |plates| <= numPlates
      invariant QueueValid(queue, tiles', plates, tn) && Frontier(tiles', tn, queue)
      invariant CornersUnrepeated(vt) ==> Unrepeated(plates)
      decreases Unclaimed(tiles'), |queue|
    {
      tiles', plates, queue := TakeAndGrow(tiles, tiles', plates, tn, queue, pick(steps));
      steps := steps + 1;
    }
    forall t, u | 0 <= t < |tiles'| && 0 <= t < |tn| && u in tn[t] && u < |tiles'| && tiles'[t].plateId != 0
      ensures tiles'[u].plateId != 0
    {
      assert Covered(tiles', tn, [], t);
    }
  }

  /** One turn of the loop of lines 313-329: take out the entry at the drawn position and grow by it. */
  method TakeAndGrow(ghost tiles0: seq<Tile>, tiles: seq<Tile>, plates: seq<Plate>, tn: seq<seq<nat>>,
                     queue: seq<Entry>, r: real)
    returns (tiles': seq<Tile>, plates': seq<Plate>, queue': seq<Entry>)
    requires NeighboursIn(tn, |tiles|) && 0.0 <= r < 1.0 && queue != []
    requires SameTiles(tiles0, tiles) && Consistent(tiles, plates)
    requires QueueValid(queue, tiles, plates, tn) && Frontier(tiles, tn, queue)
    ensures SameTiles(tiles0, tiles') && Consistent(tiles', plates') && |plates'| == |plates|
    ensures Unrepeated(plates) ==> Unrepeated(plates')
    ensures QueueValid(queue', tiles', plates', tn) && Frontier(tiles', tn, queue')
    ensures Unclaimed(tiles') < Unclaimed(tiles) || (Unclaimed(tiles') == Unclaimed(tiles) && |queue'| < |queue|)
  {
    var idx := QueueIndex(r, |queue|);
    var entry := queue[idx];
    var rest := queue[..idx] + queue[idx + 1..];
    TakeOut(tiles, plates, tn, queue, idx);
    tiles', plates', queue' := GrowStep(tiles, plates, tn, rest, entry.0, entry.1);
  }

  /** Taking entry `idx` out of a valid queue leaves a valid queue that, with the entry put back at the end, still covers the claimed tiles. */
  lemma TakeOut(tiles: seq<Tile>, plates: seq<Plate>, tn: seq<seq<nat>>, queue: seq<Entry>, idx: nat)
    requires idx < |queue| && QueueValid(queue, tiles, plates, tn) && Frontier(tiles, tn, queue)
    ensures QueueValid(queue[..idx] + queue[idx + 1..], tiles, plates, tn)
    ensures forall t :: 0 <= t < |tiles| && tiles[t].plateId != 0 ==>
      Covered(tiles, tn, queue[..idx] + queue[idx + 1..] + [queue[idx]], t)
  {
    var rest := queue[..idx] + queue[idx + 1..];
    forall i | 0 <= i < |rest|
      ensures rest[i] == queue[if i < idx then i else i + 1]
    {
    }
    forall t | 0 <= t < |tiles| && tiles[t].plateId != 0
      ensures Covered(tiles, tn, rest + [queue[idx]], t)
    {
      forall w | w in tn[t] && w < |tiles| && tiles[w].plateId == 0
        ensures w in Firsts(rest + [queue[idx]])
      {
        assert w in Firsts(queue);
        if w == queue[idx].0 {
          assert (rest + [queue[idx]])[|rest|].0 == w;
        } else {
          RemoveKeepsFirsts(queue, idx, w);
          var i :| 0 <= i < |rest| && rest[i].0 == w;
          assert (rest + [queue[idx]])[i].0 == w;
        }
      }
    }
  }
}
