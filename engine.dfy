/**
 The sliding-and-merging engine of `move_tiles`, on values. Every tile that
 exists when a move begins gets an identity (its index in `tiles`); the
 dictionary maps cells to identities, so a tile that has been merged away
 keeps its state and can still be found under its old key until the
 dictionary is rebuilt at the end of the pass.
 */
module Engine {
  import opened Geometry
  import opened Dicts
  import opened Sorting

  /** The state a move carries from pass to pass: tile states, the `tiles` dictionary, `blocks`. */
  datatype MoveState = MoveState(tiles: seq<TileState>, grid: Dict<nat>, blocks: set<nat>)

  /** The state inside one pass of the `for` loop: tile states, `sorted_tiles`, `blocks`, `updated`. */
  datatype Pass = Pass(tiles: seq<TileState>, live: seq<nat>, blocks: set<nat>, updated: bool)

  predicate IdsIn(ids: seq<nat>, n: nat)
  {
    forall j :: 0 <= j < |ids| ==> ids[j] < n
  }

  predicate GridIn(grid: map<Cell, nat>, n: nat)
  {
    forall k :: k in grid ==> grid[k] < n
  }

  predicate AllOnBoard(tiles: seq<TileState>)
  {
    forall id :: 0 <= id < |tiles| ==> OnBoard(tiles[id])
  }

  /** The identities `sorted_tiles` holds, as a set. */
  function LiveSet(live: seq<nat>): set<nat>
  {
    set id | id in live
  }

  // ---------------------------------------------------------------- value totals

  /** What a tile adds to the board's total: its value while it is live, nothing once merged away. */
  function Share(tiles: seq<TileState>, alive: set<nat>, id: nat): int
    requires id < |tiles|
  {
    if id in alive then tiles[id].value else 0
  }

  function SumUpTo(tiles: seq<TileState>, alive: set<nat>, n: nat): int
    requires n <= |tiles|
  {
    if n == 0 then 0 else SumUpTo(tiles, alive, n - 1) + Share(tiles, alive, n - 1)
  }

  /** The sum of the values of the live tiles. */
  function Total(tiles: seq<TileState>, alive: set<nat>): int
  {
    SumUpTo(tiles, alive, |tiles|)
  }

  lemma {:induction false} SumNoMore(t0: seq<TileState>, a0: set<nat>, t1: seq<TileState>, a1: set<nat>, n: nat)
    requires n <= |t0| && n <= |t1|
    requires forall id :: 0 <= id < n ==> Share(t1, a1, id) <= Share(t0, a0, id)
    ensures SumUpTo(t1, a1, n) <= SumUpTo(t0, a0, n)
  {
    if n > 0 {
      SumNoMore(t0, a0, t1, a1, n - 1);
    }
  }

  /** Changing one tile's share changes the sum by exactly that much. */
  lemma {:induction false} SumExcept(t0: seq<TileState>, a0: set<nat>, t1: seq<TileState>, a1: set<nat>, n: nat, k: nat)
    requires n <= |t0| && n <= |t1| && k < n
    requires forall id :: 0 <= id < n && id != k ==> Share(t1, a1, id) == Share(t0, a0, id)
    ensures SumUpTo(t1, a1, n) == SumUpTo(t0, a0, n) - Share(t0, a0, k) + Share(t1, a1, k)
  {
    if k < n - 1 {
      SumExcept(t0, a0, t1, a1, n - 1, k);
    } else {
      SumNoMore(t0, a0, t1, a1, n - 1);
      SumNoMore(t1, a1, t0, a0, n - 1);
    }
  }

  // ---------------------------------------------------------------- sorting

  function Keyed(d: Dir, tiles: seq<TileState>, ids: seq<nat>): (r: seq<(int, nat)>)
    requires IdsIn(ids, |tiles|)
    ensures |r| == |ids| && forall j :: 0 <= j < |ids| ==> r[j] == (SortKey(d, tiles[ids[j]]), ids[j])
  {
    seq(|ids|, j requires 0 <= j < |ids| => (SortKey(d, tiles[ids[j]]), ids[j]))
  }

  /** `sorted(tiles.values(), key=sort_func, reverse=reverse)`. */
  function SortTiles(d: Dir, tiles: seq<TileState>, ids: seq<nat>): seq<nat>
    requires IdsIn(ids, |tiles|)
  {
    Payloads<nat>(SortBy<nat>(Descending(d), Keyed(d, tiles, ids)))
  }

  /** Sorting keeps every identity a tile. */
  lemma SortedIdsIn(d: Dir, tiles: seq<TileState>, ids: seq<nat>)
    requires IdsIn(ids, |tiles|)
    ensures IdsIn(SortTiles(d, tiles, ids), |tiles|) && |SortTiles(d, tiles, ids)| == |ids|
  {
    SortTilesSpec(d, tiles, ids);
    assert |multiset(SortTiles(d, tiles, ids))| == |multiset(ids)|;
  }

  /**
   The tiles come out as a rearrangement of the dictionary's values, ordered
   by the direction's sort key (descending for right and down), with tiles
   of equal key in the dictionary's order.
   */
  lemma SortTilesSpec(d: Dir, tiles: seq<TileState>, ids: seq<nat>)
    requires IdsIn(ids, |tiles|)
    ensures multiset(SortTiles(d, tiles, ids)) == multiset(ids)
    ensures var r := SortTiles(d, tiles, ids);
      IdsIn(r, |tiles|) &&
      forall i, j :: 0 <= i < j < |r| ==> !Precedes(Descending(d), SortKey(d, tiles[r[j]]), SortKey(d, tiles[r[i]]))
    ensures forall k :: WithKey(SortBy<nat>(Descending(d), Keyed(d, tiles, ids)), k) == WithKey(Keyed(d, tiles, ids), k)
  {
    SortTilesPerm(d, tiles, ids);
    SortTilesOrdered(d, tiles, ids);
    SortByOrderedStable(Descending(d), Keyed(d, tiles, ids));
  }

  lemma SortTilesPerm(d: Dir, tiles: seq<TileState>, ids: seq<nat>)
    requires IdsIn(ids, |tiles|)
    ensures multiset(SortTiles(d, tiles, ids)) == multiset(ids) && IdsIn(SortTiles(d, tiles, ids), |tiles|)
  {
    var s := Keyed(d, tiles, ids);
    assert Payloads<nat>(s) == ids;
    SortByPayloads(Descending(d), s);
    PermutationIdsIn(ids, SortTiles(d, tiles, ids), |tiles|);
  }

  lemma SortTilesOrdered(d: Dir, tiles: seq<TileState>, ids: seq<nat>)
    requires IdsIn(ids, |tiles|)
    ensures var r := SortTiles(d, tiles, ids);
      IdsIn(r, |tiles|) &&
      forall i, j :: 0 <= i < j < |r| ==> !Precedes(Descending(d), SortKey(d, tiles[r[j]]), SortKey(d, tiles[r[i]]))
  {
    SortTilesPerm(d, tiles, ids);
    var s := Keyed(d, tiles, ids);
    SortByOrderedStable(Descending(d), s);
    var sorted := SortBy<nat>(Descending(d), s);
    forall j | 0 <= j < |sorted| ensures sorted[j].1 < |tiles| && sorted[j].0 == SortKey(d, tiles[sorted[j].1]) {
      assert sorted[j] in multiset(s);
      var k :| 0 <= k < |s| && s[k] == sorted[j];
    }
    var r := SortTiles(d, tiles, ids);
    forall i, j | 0 <= i < j < |r| ensures !Precedes(Descending(d), SortKey(d, tiles[r[j]]), SortKey(d, tiles[r[i]])) {
      assert r[i] == sorted[i].1 && r[j] == sorted[j].1;
    }
  }

  lemma PermutationIdsIn(ids: seq<nat>, r: seq<nat>, n: nat)
    requires IdsIn(ids, n) && multiset(r) == multiset(ids)
    ensures IdsIn(r, n)
  {
    forall j | 0 <= j < |r| ensures r[j] < n {
      assert r[j] in multiset(ids);
    }
  }

  lemma {:induction false} DistinctMultiplicity<T>(s: seq<T>, x: T)
    requires Distinct(s)
    ensures multiset(s)[x] <= 1
    decreases |s|
  {
    if s != [] {
      var init := s[..|s| - 1];
      assert s == init + [s[|s| - 1]];
      DistinctMultiplicity(init, x);
      if s[|s| - 1] == x {
        assert x !in init;
      }
    }
  }

  /** A rearrangement of a sequence without repeats has no repeats. */
  lemma PermutationDistinct<T>(s: seq<T>, r: seq<T>)
    requires Distinct(s) && multiset(r) == multiset(s)
    ensures Distinct(r)
  {
    forall i, j | 0 <= i < j < |r| ensures r[i] != r[j] {
      if r[i] == r[j] {
        var x := r[i];
        assert r == r[..i] + [x] + r[i + 1..j] + [x] + r[j + 1..];
        assert multiset(r)[x] >= 2;
        DistinctMultiplicity(s, x);
      }
    }
  }

  // ---------------------------------------------------------------- one tile

  /** `tile.move(delta)` followed by `tile.set_pos(ceil)` and `updated = True`. */
  function Advance(d: Dir, p: Pass, id: nat): Pass
    requires id < |p.tiles|
  {
    p.(tiles := p.tiles[id := SetPos(Moved(p.tiles[id], Delta(d)), UsesCeil(d))], updated := true)
  }

  /**
   The merge branch: `next_tile.value *= 2`, `sorted_tiles.pop(i)`,
   `blocks.add(next_tile)`, then the `set_pos` and `updated = True` the
   branch falls through to.
   */
  function Merge(d: Dir, p: Pass, i: nat, n: nat): Pass
    requires i < |p.live| && p.live[i] < |p.tiles| && n < |p.tiles|
  {
    var id := p.live[i];
    var doubled := p.tiles[n := p.tiles[n].(value := p.tiles[n].value * 2)];
    Pass(doubled[id := SetPos(doubled[id], UsesCeil(d))], p.live[..i] + p.live[i + 1..], p.blocks + {n}, true)
  }

  /** The body of `for i, tile in enumerate(sorted_tiles)` for index `i`. */
  function Step(d: Dir, grid: map<Cell, nat>, p: Pass, i: nat): Pass
    requires i < |p.live| && IdsIn(p.live, |p.tiles|) && GridIn(grid, |p.tiles|)
  {
    var id := p.live[i];
    var t := p.tiles[id];
    if AtBoundary(d, t) then p
    else if NextCell(d, t) !in grid then Advance(d, p, id)
    else
      var n := grid[NextCell(d, t)];
      var next := p.tiles[n];
      if t.value == next.value && id !in p.blocks && n !in p.blocks then
        if MergeCheck(d, t, next) then Advance(d, p, id) else Merge(d, p, i, n)
      else if MoveCheck(d, t, next) then Advance(d, p, id)
      else p
  }

  /** Some tile of the pass has left `sorted_tiles` or come strictly closer to the edge. */
  ghost predicate Progress(d: Dir, p0: Pass, p: Pass)
  {
    exists id :: id in p0.live && id < |p0.tiles| && id < |p.tiles| &&
      (id !in p.live || Dist(d, p.tiles[id]) < Dist(d, p0.tiles[id]))
  }

  /**
   What a pass may do to its state: it drops tiles from `sorted_tiles` and
   adds as many to `blocks`, never moves a tile away from the target edge,
   keeps every tile on the board, never raises the total of the live
   values, and sets `updated` only with progress.
   */
  ghost predicate Follows(d: Dir, p0: Pass, p: Pass)
  {
    && |p.tiles| == |p0.tiles|
    && (forall id :: id in p.live ==> id in p0.live)
    && (Distinct(p0.live) ==> Distinct(p.live))
    && |p.live| <= |p0.live|
    && p0.blocks <= p.blocks
    && |p.live| + |p.blocks| == |p0.live| + |p0.blocks|
    && (forall id :: 0 <= id < |p.tiles| && id < |p0.tiles| ==> Dist(d, p.tiles[id]) <= Dist(d, p0.tiles[id]))
    && (AllOnBoard(p0.tiles) ==> AllOnBoard(p.tiles))
    && (AllOnBoard(p0.tiles) ==> Total(p.tiles, LiveSet(p.live)) <= Total(p0.tiles, LiveSet(p0.live)))
    && (p0.updated ==> p.updated)
    && (p.updated && !p0.updated ==> Progress(d, p0, p))
  }

  lemma FollowsTrans(d: Dir, p0: Pass, p1: Pass, p2: Pass)
    requires Follows(d, p0, p1) && Follows(d, p1, p2)
    ensures Follows(d, p0, p2)
  {
    if p2.updated && !p0.updated {
      ProgressTrans(d, p0, p1, p2);
    }
  }

  /** Progress over two stretches of a pass is progress over the whole. */
  lemma ProgressTrans(d: Dir, p0: Pass, p1: Pass, p2: Pass)
    requires Follows(d, p0, p1) && Follows(d, p1, p2) && p2.updated && !p0.updated
    ensures Progress(d, p0, p2)
  {
    if p1.updated {
      var w :| w in p0.live && w < |p0.tiles| && w < |p1.tiles| &&
        (w !in p1.live || Dist(d, p1.tiles[w]) < Dist(d, p0.tiles[w]));
      assert w !in p2.live || Dist(d, p2.tiles[w]) < Dist(d, p0.tiles[w]);
    } else {
      var w :| w in p1.live && w < |p1.tiles| && w < |p2.tiles| &&
        (w !in p2.live || Dist(d, p2.tiles[w]) < Dist(d, p1.tiles[w]));
      assert w in p0.live;
    }
  }

  lemma AdvanceFollows(d: Dir, p: Pass, i: nat)
    requires i < |p.live| && IdsIn(p.live, |p.tiles|)
    requires !AtBoundary(d, p.tiles[p.live[i]])
    ensures Follows(d, p, Advance(d, p, p.live[i]))
  {
    var id := p.live[i];
    var r := Advance(d, p, id);
    var t := p.tiles[id];
    StepTowardEdge(d, t);
    if AllOnBoard(p.tiles) {
      AdvanceOnBoard(d, t);
    }
    assert Dist(d, r.tiles[id]) < Dist(d, p.tiles[id]);
    AdvanceTotal(d, p, i);
  }

  lemma StepFollows(d: Dir, grid: map<Cell, nat>, p: Pass, i: nat)
    requires i < |p.live| && IdsIn(p.live, |p.tiles|) && GridIn(grid, |p.tiles|) && Distinct(p.live)
    ensures Follows(d, p, Step(d, grid, p, i))
  {
    var id := p.live[i];
    var t := p.tiles[id];
    if !AtBoundary(d, t) {
      if NextCell(d, t) !in grid {
        AdvanceFollows(d, p, i);
      } else {
        var n := grid[NextCell(d, t)];
        var next := p.tiles[n];
        if t.value == next.value && id !in p.blocks && n !in p.blocks {
          if MergeCheck(d, t, next) {
            AdvanceFollows(d, p, i);
          } else {
            MergeFollows(d, p, i, n);
          }
        } else if MoveCheck(d, t, next) {
          AdvanceFollows(d, p, i);
        }
      }
    }
  }

  lemma MergeFollows(d: Dir, p: Pass, i: nat, n: nat)
    requires i < |p.live| && IdsIn(p.live, |p.tiles|) && n < |p.tiles| && Distinct(p.live)
    requires n !in p.blocks && p.tiles[p.live[i]].value == p.tiles[n].value
    ensures Follows(d, p, Merge(d, p, i, n))
  {
    MergeCounts(d, p, i, n);
    if AllOnBoard(p.tiles) {
      MergeOnBoard(d, p, i, n);
    }
    MergeTotal(d, p, i, n);
  }

  /** A merge pops one tile from `sorted_tiles`, adds one to `blocks` and moves no tile. */
  lemma MergeCounts(d: Dir, p: Pass, i: nat, n: nat)
    requires i < |p.live| && IdsIn(p.live, |p.tiles|) && n < |p.tiles| && Distinct(p.live) && n !in p.blocks
    ensures var r := Merge(d, p, i, n);
      && |r.tiles| == |p.tiles|
      && (forall id :: id in r.live ==> id in p.live)
      && p.live[i] !in r.live && Distinct(r.live)
      && |r.live| + 1 == |p.live| && p.blocks <= r.blocks && |r.blocks| == |p.blocks| + 1
      && (forall id :: 0 <= id < |p.tiles| ==> r.tiles[id].x == p.tiles[id].x && r.tiles[id].y == p.tiles[id].y)
  {
    var id := p.live[i];
    var r := Merge(d, p, i, n);
    assert p.live == p.live[..i] + [id] + p.live[i + 1..];
    assert id !in r.live;
  }

  /** A merge keeps every tile on the board. */
  lemma MergeOnBoard(d: Dir, p: Pass, i: nat, n: nat)
    requires i < |p.live| && IdsIn(p.live, |p.tiles|) && n < |p.tiles| && AllOnBoard(p.tiles)
    ensures AllOnBoard(Merge(d, p, i, n).tiles)
  {
    var id := p.live[i];
    var doubled := p.tiles[n := p.tiles[n].(value := p.tiles[n].value * 2)];
    DoubleOnBoard(p.tiles[n]);
    assert AllOnBoard(doubled);
    SetPosOnBoard(doubled[id], UsesCeil(d));
  }

  /** Moving a tile and recomputing its cell leaves every value where it was. */
  lemma AdvanceTotal(d: Dir, p: Pass, i: nat)
    requires i < |p.live| && IdsIn(p.live, |p.tiles|)
    ensures var r := Advance(d, p, p.live[i]);
      Total(r.tiles, LiveSet(r.live)) == Total(p.tiles, LiveSet(p.live))
  {
    var r := Advance(d, p, p.live[i]);
    SumExcept(p.tiles, LiveSet(p.live), r.tiles, LiveSet(r.live), |p.tiles|, p.live[i]);
  }

  /** `sorted_tiles.pop(i)` removes exactly the tile at `i` when no tile appears twice. */
  lemma PopLive(live: seq<nat>, i: nat)
    requires i < |live| && Distinct(live)
    ensures LiveSet(live[..i] + live[i + 1..]) == LiveSet(live) - {live[i]}
  {
    assert live == live[..i] + [live[i]] + live[i + 1..];
  }

  /**
   A merge moves the popped tile's value into the tile it merged with, so
   the total is kept when that tile is still live; when it has already left
   `sorted_tiles` in this pass, the popped tile's value is lost.
   */
  lemma MergeTotal(d: Dir, p: Pass, i: nat, n: nat)
    requires i < |p.live| && IdsIn(p.live, |p.tiles|) && n < |p.tiles| && Distinct(p.live)
    requires p.tiles[p.live[i]].value == p.tiles[n].value
    ensures var r := Merge(d, p, i, n);
      var before, after := Total(p.tiles, LiveSet(p.live)), Total(r.tiles, LiveSet(r.live));
      && (n in p.live && n != p.live[i] ==> after == before)
      && (n !in p.live || n == p.live[i] ==> after == before - p.tiles[p.live[i]].value)
  {
    var id := p.live[i];
    var r := Merge(d, p, i, n);
    PopLive(p.live, i);
    var a0, a1 := LiveSet(p.live), LiveSet(r.live);
    if n == id {
      SumExcept(p.tiles, a0, r.tiles, a1, |p.tiles|, id);
    } else {
      SumExcept(p.tiles, a0, r.tiles, a0, |p.tiles|, n);
      SumExcept(r.tiles, a0, r.tiles, a1, |p.tiles|, id);
    }
  }

  // ---------------------------------------------------------------- one pass

  /** The `for` loop from index `i` on; popping at `i` makes the loop skip the next tile. */
  function PassFrom(d: Dir, grid: map<Cell, nat>, p: Pass, i: nat): (r: Pass)
    requires IdsIn(p.live, |p.tiles|) && GridIn(grid, |p.tiles|) && Distinct(p.live)
    ensures Follows(d, p, r) && IdsIn(r.live, |r.tiles|)
    decreases |p.live| - i
  {
    if i >= |p.live| then p
    else
      var q := Step(d, grid, p, i);
      StepFollows(d, grid, p, i);
      assert IdsIn(q.live, |q.tiles|) by {
        forall j | 0 <= j < |q.live| ensures q.live[j] < |q.tiles| {
          assert q.live[j] in p.live;
        }
      }
      var r := PassFrom(d, grid, q, i + 1);
      FollowsTrans(d, p, q, r);
      r
  }
  /**
   One iteration of the `for` loop: the pass from `i` on is the pass from
   `i + 1` on after the step at `i`, and the step keeps every identity of
   `sorted_tiles` a tile, once.
   */
  lemma PassStep(d: Dir, grid: map<Cell, nat>, p: Pass, i: nat)
    requires i < |p.live| && IdsIn(p.live, |p.tiles|) && GridIn(grid, |p.tiles|) && Distinct(p.live)
    ensures var q := Step(d, grid, p, i);
      && IdsIn(q.live, |q.tiles|) && Distinct(q.live) && |q.tiles| == |p.tiles| && |q.live| <= |p.live|
      && PassFrom(d, grid, q, i + 1) == PassFrom(d, grid, p, i)
  {
    var q := Step(d, grid, p, i);
    StepFollows(d, grid, p, i);
    forall j | 0 <= j < |q.live| ensures q.live[j] < |q.tiles| {
      assert q.live[j] in p.live;
    }
  }


  /**
   Where one visit leaves the tiles: a tile at the boundary is skipped; the
   visited tile either stays where it is or moves by exactly the direction's
   delta; no other tile moves.
   */
  lemma StepMoves(d: Dir, grid: map<Cell, nat>, p: Pass, i: nat)
    requires i < |p.live| && IdsIn(p.live, |p.tiles|) && GridIn(grid, |p.tiles|)
    ensures var id, r := p.live[i], Step(d, grid, p, i);
      && |r.tiles| == |p.tiles|
      && (AtBoundary(d, p.tiles[id]) ==> r == p)
      && ((r.tiles[id].x, r.tiles[id].y) == (p.tiles[id].x, p.tiles[id].y) ||
          (r.tiles[id].x, r.tiles[id].y) == (p.tiles[id].x + Delta(d).0, p.tiles[id].y + Delta(d).1))
      && (forall j :: 0 <= j < |p.tiles| && j != id ==> r.tiles[j].x == p.tiles[j].x && r.tiles[j].y == p.tiles[j].y)
  {
  }

  /**
   What one visit does to the values: a value changes only by doubling, in
   a merge of two equal tiles neither of which is in `blocks`; the doubled
   tile joins `blocks` and the visited tile leaves `sorted_tiles`.
   */
  lemma StepValues(d: Dir, grid: map<Cell, nat>, p: Pass, i: nat)
    requires i < |p.live| && IdsIn(p.live, |p.tiles|) && GridIn(grid, |p.tiles|) && Distinct(p.live)
    ensures var id, r := p.live[i], Step(d, grid, p, i);
      && |r.tiles| == |p.tiles| && p.blocks <= r.blocks
      && (forall j :: 0 <= j < |p.tiles| && r.tiles[j].value != p.tiles[j].value ==>
            && r.tiles[j].value == 2 * p.tiles[j].value && p.tiles[j].value == p.tiles[id].value
            && id !in p.blocks && j !in p.blocks && r.blocks == p.blocks + {j} && id !in r.live)
  {
    var id := p.live[i];
    var t := p.tiles[id];
    if !AtBoundary(d, t) && NextCell(d, t) in grid {
      var n := grid[NextCell(d, t)];
      var next := p.tiles[n];
      if t.value == next.value && id !in p.blocks && n !in p.blocks && !MergeCheck(d, t, next) {
        MergeCounts(d, p, i, n);
        MergeValues(d, p, i, n);
      }
    }
  }

  /** A merge doubles the neighbour's value and leaves every other value alone. */
  lemma MergeValues(d: Dir, p: Pass, i: nat, n: nat)
    requires i < |p.live| && p.live[i] < |p.tiles| && n < |p.tiles|
    ensures var r := Merge(d, p, i, n);
      && r.tiles[n].value == 2 * p.tiles[n].value
      && forall j :: 0 <= j < |p.tiles| && j != n ==> r.tiles[j].value == p.tiles[j].value
  {
  }

  /** A tile in `blocks` keeps its value for the rest of the pass: it takes part in no further merge. */
  lemma {:induction false} PassKeepsBlocked(d: Dir, grid: map<Cell, nat>, p: Pass, i: nat)
    requires IdsIn(p.live, |p.tiles|) && GridIn(grid, |p.tiles|) && Distinct(p.live)
    ensures forall j :: j in p.blocks && j < |p.tiles| ==> PassFrom(d, grid, p, i).tiles[j].value == p.tiles[j].value
    decreases |p.live| - i
  {
    if i < |p.live| {
      var q := Step(d, grid, p, i);
      StepValues(d, grid, p, i);
      PassStep(d, grid, p, i);
      PassKeepsBlocked(d, grid, q, i + 1);
      forall j | j in p.blocks && j < |p.tiles|
        ensures PassFrom(d, grid, p, i).tiles[j].value == p.tiles[j].value
      {
        assert j in q.blocks && q.tiles[j].value == p.tiles[j].value;
      }
    }
  }

  /** The visit at `i` merges the tile into its neighbour. */
  predicate Merges(d: Dir, grid: map<Cell, nat>, p: Pass, i: nat)
    requires i < |p.live| && IdsIn(p.live, |p.tiles|) && GridIn(grid, |p.tiles|)
  {
    var id := p.live[i];
    var t := p.tiles[id];
    && !AtBoundary(d, t) && NextCell(d, t) in grid
    && (var n := grid[NextCell(d, t)];
        t.value == p.tiles[n].value && id !in p.blocks && n !in p.blocks && !MergeCheck(d, t, p.tiles[n]))
  }

  /**
   The visit at `i` loses no value: if it merges, the tile it merges into is
   another tile still in `sorted_tiles`, not one the stale lookup finds after
   it was popped.
   */
  predicate KeepsValue(d: Dir, grid: map<Cell, nat>, p: Pass, i: nat)
    requires i < |p.live| && IdsIn(p.live, |p.tiles|) && GridIn(grid, |p.tiles|)
  {
    Merges(d, grid, p, i) ==>
      var n := grid[NextCell(d, p.tiles[p.live[i]])];
      n in p.live && n != p.live[i]
  }

  /** The sum of the values of the tiles in `sorted_tiles`. */
  function LiveTotal(p: Pass): int
  {
    Total(p.tiles, LiveSet(p.live))
  }

  /** A visit that loses no value keeps the sum of the live values. */
  lemma StepTotal(d: Dir, grid: map<Cell, nat>, p: Pass, i: nat)
    requires i < |p.live| && IdsIn(p.live, |p.tiles|) && GridIn(grid, |p.tiles|) && Distinct(p.live)
    requires KeepsValue(d, grid, p, i)
    ensures LiveTotal(Step(d, grid, p, i)) == LiveTotal(p)
  {
    var id := p.live[i];
    var t := p.tiles[id];
    if !AtBoundary(d, t) {
      AdvanceTotal(d, p, i);
      if Merges(d, grid, p, i) {
        MergeTotal(d, p, i, grid[NextCell(d, t)]);
      }
    }
  }

  /** No visit of the pass from `i` on loses a value. */
  ghost predicate KeepsFrom(d: Dir, grid: map<Cell, nat>, p: Pass, i: nat)
    requires IdsIn(p.live, |p.tiles|) && GridIn(grid, |p.tiles|) && Distinct(p.live)
    decreases |p.live| - i
  {
    if i < |p.live| then
      PassStep(d, grid, p, i);
      KeepsValue(d, grid, p, i) && KeepsFrom(d, grid, Step(d, grid, p, i), i + 1)
    else true
  }

  /** A pass none of whose visits loses a value keeps the sum of the live values. */
  lemma {:induction false} PassTotal(d: Dir, grid: map<Cell, nat>, p: Pass, i: nat)
    requires IdsIn(p.live, |p.tiles|) && GridIn(grid, |p.tiles|) && Distinct(p.live)
    requires KeepsFrom(d, grid, p, i)
    ensures LiveTotal(PassFrom(d, grid, p, i)) == LiveTotal(p)
    decreases |p.live| - i
  {
    if i < |p.live| {
      var q := Step(d, grid, p, i);
      PassStep(d, grid, p, i);
      StepTotal(d, grid, p, i);
      PassTotal(d, grid, q, i + 1);
      assert PassFrom(d, grid, q, i + 1) == PassFrom(d, grid, p, i);
    }
  }

  function CellsOf(tiles: seq<TileState>, live: seq<nat>): (r: seq<(Cell, nat)>)
    requires IdsIn(live, |tiles|)
    ensures |r| == |live| && forall j :: 0 <= j < |live| ==> r[j] == (CellOf(tiles[live[j]]), live[j])
  {
    seq(|live|, j requires 0 <= j < |live| => (CellOf(tiles[live[j]]), live[j]))
  }

  /** `update_tiles`: clear the dictionary and store each tile of `sorted_tiles` under its own cell. */
  function Rekey(tiles: seq<TileState>, live: seq<nat>): Dict<nat>
    requires IdsIn(live, |tiles|)
  {
    Build(CellsOf(tiles, live))
  }

  /**
   After `update_tiles` every entry is a tile of `sorted_tiles` stored under
   the cell its own `row` and `col` name, and every tile of `sorted_tiles`
   has its cell as a key, under which the last tile naming that cell is
   stored; when no two of them share a cell, the dictionary holds exactly
   those tiles, in that order.
   */
  lemma RekeySpec(tiles: seq<TileState>, live: seq<nat>)
    requires IdsIn(live, |tiles|)
    ensures var g := Rekey(tiles, live);
      && (forall k :: k in g.entries ==> g.entries[k] in live && CellOf(tiles[g.entries[k]]) == k)
      && (forall j :: 0 <= j < |live| ==> CellOf(tiles[live[j]]) in g.entries)
      && (forall j :: 0 <= j < |live| && LastAt(tiles, live, j) ==> g.entries[CellOf(tiles[live[j]])] == live[j])
      && Size(g) <= |live|
      && (DistinctCells(tiles, live) ==> Values(g) == live)
  {
    RekeyCells(tiles, live);
    RekeyLast(tiles, live);
    if DistinctCells(tiles, live) {
      RekeyDistinct(tiles, live);
    }
  }

  /** No later tile of `sorted_tiles` names the cell tile `j` names. */
  predicate LastAt(tiles: seq<TileState>, live: seq<nat>, j: nat)
    requires IdsIn(live, |tiles|) && j < |live|
  {
    forall i :: j < i < |live| ==> CellOf(tiles[live[i]]) != CellOf(tiles[live[j]])
  }

  /** Of the tiles of `sorted_tiles` naming one cell, `update_tiles` keeps the last. */
  lemma RekeyLast(tiles: seq<TileState>, live: seq<nat>)
    requires IdsIn(live, |tiles|)
    ensures forall j :: 0 <= j < |live| && LastAt(tiles, live, j) ==>
      CellOf(tiles[live[j]]) in Rekey(tiles, live).entries && Rekey(tiles, live).entries[CellOf(tiles[live[j]])] == live[j]
  {
    var s := CellsOf(tiles, live);
    forall j | 0 <= j < |live| && LastAt(tiles, live, j)
      ensures CellOf(tiles[live[j]]) in Build(s).entries && Build(s).entries[CellOf(tiles[live[j]])] == live[j]
    {
      LastWins(s, j);
    }
  }

  lemma RekeyCells(tiles: seq<TileState>, live: seq<nat>)
    requires IdsIn(live, |tiles|)
    ensures var g := Rekey(tiles, live);
      && (forall k :: k in g.entries ==> g.entries[k] in live && CellOf(tiles[g.entries[k]]) == k)
      && (forall j :: 0 <= j < |live| ==> CellOf(tiles[live[j]]) in g.entries)
  {
    var s := CellsOf(tiles, live);
    BuildEntries(s);
    var g := Build(s);
    forall k | k in g.entries ensures g.entries[k] in live && CellOf(tiles[g.entries[k]]) == k {
      var j :| 0 <= j < |s| && s[j] == (k, g.entries[k]);
    }
  }

  lemma RekeyDistinct(tiles: seq<TileState>, live: seq<nat>)
    requires IdsIn(live, |tiles|) && DistinctCells(tiles, live)
    ensures Values(Rekey(tiles, live)) == live
  {
    var s := CellsOf(tiles, live);
    BuildDistinct(s);
  }

  predicate DistinctCells(tiles: seq<TileState>, live: seq<nat>)
    requires IdsIn(live, |tiles|)
  {
    forall i, j :: 0 <= i < j < |live| ==> CellOf(tiles[live[i]]) != CellOf(tiles[live[j]])
  }

  /**
   Rebuilding the dictionary never raises the total, and keeps it when no
   two tiles of `sorted_tiles` name the same cell; otherwise the later
   tile overwrites the earlier one and the earlier one's value is lost.
   */
  lemma RekeyTotal(tiles: seq<TileState>, live: seq<nat>)
    requires IdsIn(live, |tiles|) && AllOnBoard(tiles)
    ensures Total(tiles, Rekey(tiles, live).entries.Values) <= Total(tiles, LiveSet(live))
    ensures DistinctCells(tiles, live) ==> Total(tiles, Rekey(tiles, live).entries.Values) == Total(tiles, LiveSet(live))
  {
    var g := Rekey(tiles, live);
    RekeyAlive(tiles, live);
    SumNoMore(tiles, LiveSet(live), tiles, g.entries.Values, |tiles|);
  }

  /**
   The identities the rebuilt dictionary holds are among those of
   `sorted_tiles`, and are all of them when no two share a cell.
   */
  lemma RekeyAlive(tiles: seq<TileState>, live: seq<nat>)
    requires IdsIn(live, |tiles|)
    ensures Rekey(tiles, live).entries.Values <= LiveSet(live)
    ensures DistinctCells(tiles, live) ==> Rekey(tiles, live).entries.Values == LiveSet(live)
  {
    var g := Rekey(tiles, live);
    RekeyCells(tiles, live);
    forall id | id in g.entries.Values ensures id in LiveSet(live) {
      var k :| k in g.entries && g.entries[k] == id;
    }
    if DistinctCells(tiles, live) {
      RekeyDistinct(tiles, live);
      forall id | id in LiveSet(live) ensures id in g.entries.Values {
        var j :| 0 <= j < |live| && live[j] == id;
        assert g.entries[g.keys[j]] == id;
      }
    }
  }

  /**
   The state between passes: the dictionary is well formed, names tile
   identities, stores every tile under its own cell, and every tile is on
   the board.
   */
  ghost predicate Inv(m: MoveState)
  {
    && WellFormed(m.grid)
    && GridIn(m.grid.entries, |m.tiles|)
    && AllOnBoard(m.tiles)
    && (forall k :: k in m.grid.entries ==> CellOf(m.tiles[m.grid.entries[k]]) == k)
  }

  /** The tiles of the dictionary; merged-away tiles are not among them. */
  function Alive(m: MoveState): set<nat>
  {
    m.grid.entries.Values
  }

  /** The sum of the values in the dictionary. */
  function MoveTotal(m: MoveState): int
  {
    Total(m.tiles, Alive(m))
  }

  lemma InvValues(m: MoveState)
    requires Inv(m)
    ensures IdsIn(Values(m.grid), |m.tiles|) && Distinct(Values(m.grid))
    ensures forall id :: id in Alive(m) <==> id in Values(m.grid)
  {
    var vs := Values(m.grid);
    forall i, j | 0 <= i < j < |vs| ensures vs[i] != vs[j] {
      assert m.grid.keys[i] in m.grid.entries && m.grid.keys[j] in m.grid.entries;
    }
    forall id | id in Alive(m) ensures id in vs {
      var k :| k in m.grid.entries && m.grid.entries[k] == id;
      var j :| 0 <= j < |m.grid.keys| && m.grid.keys[j] == k;
      assert vs[j] == id;
    }
  }

  /** The pass as it starts: `updated = False` and `sorted_tiles` freshly sorted. */
  function StartPass(d: Dir, m: MoveState): (p: Pass)
    requires Inv(m)
    ensures !p.updated && p.tiles == m.tiles && p.blocks == m.blocks
    ensures IdsIn(p.live, |p.tiles|) && Distinct(p.live) && |p.live| == Size(m.grid)
    ensures forall id :: id in p.live <==> id in Alive(m)
  {
    InvValues(m);
    SortTilesSpec(d, m.tiles, Values(m.grid));
    var live := SortTiles(d, m.tiles, Values(m.grid));
    PermutationDistinct(Values(m.grid), live);
    assert forall id :: id in live <==> id in multiset(live);
    Pass(m.tiles, live, m.blocks, false)
  }

  /** One iteration of `while updated`: sort, walk the tiles, rebuild the dictionary. */
  function RunPass(d: Dir, m: MoveState): (r: (MoveState, bool))
    requires Inv(m)
    ensures Inv(r.0) && |r.0.tiles| == |m.tiles|
    ensures m.blocks <= r.0.blocks
    ensures Size(r.0.grid) + |r.0.blocks| <= Size(m.grid) + |m.blocks|
    ensures MoveTotal(r.0) <= MoveTotal(m)
  {
    var p0 := StartPass(d, m);
    assert LiveSet(p0.live) == Alive(m);
    var p := PassFrom(d, m.grid.entries, p0, 0);
    RekeySpec(p.tiles, p.live);
    RekeyTotal(p.tiles, p.live);
    (MoveState(p.tiles, Rekey(p.tiles, p.live), p.blocks), p.updated)
  }

  // ---------------------------------------------------------------- termination

  /** A live tile weighs one more than its distance to the edge; a merged-away tile weighs nothing. */
  function Weight(d: Dir, tiles: seq<TileState>, alive: set<nat>, id: nat): nat
    requires id < |tiles| && AllOnBoard(tiles)
  {
    DistOnBoard(d, tiles[id]);
    if id in alive then Dist(d, tiles[id]) + 1 else 0
  }

  function MeasureUpTo(d: Dir, tiles: seq<TileState>, alive: set<nat>, n: nat): nat
    requires n <= |tiles| && AllOnBoard(tiles)
  {
    if n == 0 then 0 else MeasureUpTo(d, tiles, alive, n - 1) + Weight(d, tiles, alive, n - 1)
  }

  /** The quantity every pass that sets `updated` strictly lowers. */
  function Measure(d: Dir, m: MoveState): nat
    requires AllOnBoard(m.tiles)
  {
    MeasureUpTo(d, m.tiles, Alive(m), |m.tiles|)
  }

  lemma {:induction false} MeasureLess(d: Dir, t0: seq<TileState>, a0: set<nat>, t1: seq<TileState>, a1: set<nat>, n: nat, w: nat)
    requires n <= |t0| && n <= |t1| && AllOnBoard(t0) && AllOnBoard(t1)
    requires forall id :: 0 <= id < n ==> Weight(d, t1, a1, id) <= Weight(d, t0, a0, id)
    requires w < n && Weight(d, t1, a1, w) < Weight(d, t0, a0, w)
    ensures MeasureUpTo(d, t1, a1, n) < MeasureUpTo(d, t0, a0, n)
  {
    if w < n - 1 {
      MeasureLess(d, t0, a0, t1, a1, n - 1, w);
    } else {
      MeasureNoMore(d, t0, a0, t1, a1, n - 1);
    }
  }

  lemma {:induction false} MeasureNoMore(d: Dir, t0: seq<TileState>, a0: set<nat>, t1: seq<TileState>, a1: set<nat>, n: nat)
    requires n <= |t0| && n <= |t1| && AllOnBoard(t0) && AllOnBoard(t1)
    requires forall id :: 0 <= id < n ==> Weight(d, t1, a1, id) <= Weight(d, t0, a0, id)
    ensures MeasureUpTo(d, t1, a1, n) <= MeasureUpTo(d, t0, a0, n)
  {
    if n > 0 {
      MeasureNoMore(d, t0, a0, t1, a1, n - 1);
    }
  }

  /** A pass that sets `updated` lowers the sum of weights over the tiles it started with. */
  lemma FollowsLowers(d: Dir, p0: Pass, p: Pass, a0: set<nat>, a1: set<nat>)
    requires Follows(d, p0, p) && AllOnBoard(p0.tiles) && !p0.updated && p.updated
    requires forall id :: id in p0.live <==> id in a0
    requires forall id :: id in a1 ==> id in p.live
    ensures AllOnBoard(p.tiles)
    ensures MeasureUpTo(d, p.tiles, a1, |p.tiles|) < MeasureUpTo(d, p0.tiles, a0, |p0.tiles|)
  {
    forall id | 0 <= id < |p0.tiles|
      ensures Weight(d, p.tiles, a1, id) <= Weight(d, p0.tiles, a0, id)
    {
    }
    var w :| w in p0.live && w < |p0.tiles| && w < |p.tiles| &&
      (w !in p.live || Dist(d, p.tiles[w]) < Dist(d, p0.tiles[w]));
    assert Weight(d, p.tiles, a1, w) < Weight(d, p0.tiles, a0, w);
    MeasureLess(d, p0.tiles, a0, p.tiles, a1, |p0.tiles|, w);
  }

  /** A pass that sets `updated` strictly lowers the measure, so `while updated` stops. */
  lemma RunPassProgress(d: Dir, m: MoveState)
    requires Inv(m) && RunPass(d, m).1
    ensures Measure(d, RunPass(d, m).0) < Measure(d, m)
  {
    var p0 := StartPass(d, m);
    var p := PassFrom(d, m.grid.entries, p0, 0);
    RekeySpec(p.tiles, p.live);
    FollowsLowers(d, p0, p, Alive(m), Rekey(p.tiles, p.live).entries.Values);
  }

  /** `while updated:` run passes until one changes nothing. */
  function Settle(d: Dir, m: MoveState): (r: MoveState)
    requires Inv(m)
    ensures Inv(r) && |r.tiles| == |m.tiles|
    ensures m.blocks <= r.blocks
    ensures Size(r.grid) + |r.blocks| <= Size(m.grid) + |m.blocks|
    ensures MoveTotal(r) <= MoveTotal(m)
    decreases Measure(d, m)
  {
    var (next, updated) := RunPass(d, m);
    if updated then
      RunPassProgress(d, m);
      Settle(d, next)
    else next
  }

  /** One turn of `while updated`, as `Settle` takes it. */
  lemma SettleStep(d: Dir, m: MoveState)
    requires Inv(m)
    ensures RunPass(d, m).1 ==> Measure(d, RunPass(d, m).0) < Measure(d, m) && Settle(d, m) == Settle(d, RunPass(d, m).0)
    ensures !RunPass(d, m).1 ==> Settle(d, m) == RunPass(d, m).0
  {
    if RunPass(d, m).1 {
      RunPassProgress(d, m);
    }
  }

  /** `blocks` lives for the whole call of `move_tiles`: a tile merged into stays unmerged until the move ends. */
  lemma RunPassKeepsBlocked(d: Dir, m: MoveState)
    requires Inv(m)
    ensures forall j :: j in m.blocks && j < |m.tiles| ==> RunPass(d, m).0.tiles[j].value == m.tiles[j].value
  {
    PassKeepsBlocked(d, m.grid.entries, StartPass(d, m), 0);
  }

  lemma {:induction false} SettleKeepsBlocked(d: Dir, m: MoveState)
    requires Inv(m)
    ensures forall j :: j in m.blocks && j < |m.tiles| ==> Settle(d, m).tiles[j].value == m.tiles[j].value
    decreases Measure(d, m)
  {
    RunPassKeepsBlocked(d, m);
    var (next, updated) := RunPass(d, m);
    if updated {
      RunPassProgress(d, m);
      SettleKeepsBlocked(d, next);
    }
  }

  /**
   A pass that loses no value: no visit merges into a tile already popped,
   and no two tiles of `sorted_tiles` name the same cell when
   `update_tiles` stores them.
   */
  ghost predicate CleanPass(d: Dir, m: MoveState)
    requires Inv(m)
  {
    var p0 := StartPass(d, m);
    var p := PassFrom(d, m.grid.entries, p0, 0);
    KeepsFrom(d, m.grid.entries, p0, 0) && DistinctCells(p.tiles, p.live)
  }

  /**
   A pass that loses no value keeps the total, and every tile it removes
   from the dictionary is matched by one tile added to `blocks`.
   */
  lemma RunPassKeeps(d: Dir, m: MoveState)
    requires Inv(m) && CleanPass(d, m)
    ensures MoveTotal(RunPass(d, m).0) == MoveTotal(m)
    ensures Size(RunPass(d, m).0.grid) + |RunPass(d, m).0.blocks| == Size(m.grid) + |m.blocks|
  {
    var p0 := StartPass(d, m);
    var p := PassFrom(d, m.grid.entries, p0, 0);
    assert LiveSet(p0.live) == Alive(m);
    PassTotal(d, m.grid.entries, p0, 0);
    RekeySpec(p.tiles, p.live);
    RekeyTotal(p.tiles, p.live);
  }

  /** Every pass of the `while updated` loop from `m` on loses no value. */
  ghost predicate CleanMove(d: Dir, m: MoveState)
    requires Inv(m)
    decreases Measure(d, m)
  {
    && CleanPass(d, m)
    && if RunPass(d, m).1 then
         RunPassProgress(d, m);
         CleanMove(d, RunPass(d, m).0)
       else true
  }

  /** A `while updated` loop none of whose passes loses a value keeps the total and the count of tiles plus `blocks`. */
  lemma {:induction false} SettleKeeps(d: Dir, m: MoveState)
    requires Inv(m) && CleanMove(d, m)
    ensures MoveTotal(Settle(d, m)) == MoveTotal(m)
    ensures Size(Settle(d, m).grid) + |Settle(d, m).blocks| == Size(m.grid) + |m.blocks|
    decreases Measure(d, m)
  {
    RunPassKeeps(d, m);
    if RunPass(d, m).1 {
      RunPassProgress(d, m);
      SettleKeeps(d, RunPass(d, m).0);
    }
  }

  // ---------------------------------------------------------------- the board

  /** The `tiles` dictionary, with each tile object as the value of its five fields. */
  type Board = Dict<TileState>

  /** Every tile is on the board and stored under the key its own `row` and `col` name. */
  predicate BoardOk(b: Board)
  {
    && WellFormed(b)
    && (forall k :: k in b.entries ==> OnBoard(b.entries[k]) && CellOf(b.entries[k]) == k)
  }

  function Numbered(keys: seq<Cell>): (r: seq<(Cell, nat)>)
    ensures |r| == |keys| && forall j :: 0 <= j < |keys| ==> r[j] == (keys[j], j)
  {
    seq(|keys|, j requires 0 <= j < |keys| => (keys[j], j as nat))
  }

  /** Numbering the keys of a board gives a dictionary with the same keys, each naming its own position. */
  lemma NumberedGrid(keys: seq<Cell>)
    requires Distinct(keys)
    ensures var g := Build(Numbered(keys));
      g.keys == keys && forall j :: 0 <= j < |keys| ==> g.entries[keys[j]] == j
  {
    var s := Numbered(keys);
    BuildDistinct(s);
    assert Build(s).keys == keys;
  }

  lemma StartInv(b: Board)
    requires BoardOk(b)
    ensures Inv(MoveState(Values(b), Build(Numbered(b.keys)), {}))
  {
    NumberedGrid(b.keys);
    var g := Build(Numbered(b.keys));
    var tiles := Values(b);
    forall k | k in g.entries
      ensures exists j :: 0 <= j < |tiles| && g.entries[k] == j && CellOf(tiles[j]) == k
    {
      var j :| 0 <= j < |b.keys| && b.keys[j] == k;
    }
    forall id | 0 <= id < |tiles| ensures OnBoard(tiles[id]) {
      assert b.keys[id] in b.entries;
    }
  }

  /** The state `move_tiles` starts from: tile `j` is the `j`-th value of `tiles`, and nothing is blocked. */
  function Start(b: Board): (m: MoveState)
    requires BoardOk(b)
    ensures Inv(m) && m.blocks == {} && m.grid.keys == b.keys && m.tiles == Values(b)
    ensures forall j :: 0 <= j < |b.keys| ==> m.grid.entries[b.keys[j]] == j
  {
    NumberedGrid(b.keys);
    StartInv(b);
    MoveState(Values(b), Build(Numbered(b.keys)), {})
  }

  /** Read the dictionary back as tile values. */
  function Final(m: MoveState): (b: Board)
    requires Inv(m)
    ensures BoardOk(b) && b.keys == m.grid.keys
    ensures forall k :: k in b.entries <==> k in m.grid.entries
    ensures forall k :: k in b.entries ==> b.entries[k] == m.tiles[m.grid.entries[k]]
  {
    Dict(m.grid.keys, map k | k in m.grid.entries :: m.tiles[m.grid.entries[k]])
  }

  function ValueSum(vs: seq<TileState>): int
  {
    if vs == [] then 0 else ValueSum(vs[..|vs| - 1]) + vs[|vs| - 1].value
  }

  /** The sum of the values on the board. */
  function BoardTotal(b: Board): int
    requires WellFormed(b)
  {
    ValueSum(Values(b))
  }

  function Pick(tiles: seq<TileState>, ids: seq<nat>): (r: seq<TileState>)
    requires IdsIn(ids, |tiles|)
    ensures |r| == |ids| && forall j :: 0 <= j < |ids| ==> r[j] == tiles[ids[j]]
  {
    seq(|ids|, j requires 0 <= j < |ids| => tiles[ids[j]])
  }

  /** Summing the values of distinct identities in order is summing the shares of that set. */
  lemma {:induction false} PickTotal(tiles: seq<TileState>, ids: seq<nat>)
    requires IdsIn(ids, |tiles|) && Distinct(ids)
    ensures ValueSum(Pick(tiles, ids)) == Total(tiles, LiveSet(ids))
  {
    if ids == [] {
      SumNoMore(tiles, {}, tiles, LiveSet(ids), |tiles|);
      SumNoMore(tiles, LiveSet(ids), tiles, {}, |tiles|);
      assert Total(tiles, {}) == 0 by { ZeroShares(tiles, |tiles|); }
    } else {
      var init, x := ids[..|ids| - 1], ids[|ids| - 1];
      assert Distinct(init) && IdsIn(init, |tiles|);
      PickTotal(tiles, init);
      assert Pick(tiles, ids)[..|ids| - 1] == Pick(tiles, init);
      assert x !in LiveSet(init);
      assert LiveSet(ids) == LiveSet(init) + {x};
      SumExcept(tiles, LiveSet(init), tiles, LiveSet(ids), |tiles|, x);
    }
  }

  lemma {:induction false} ZeroShares(tiles: seq<TileState>, n: nat)
    requires n <= |tiles|
    ensures SumUpTo(tiles, {}, n) == 0
  {
    if n > 0 {
      ZeroShares(tiles, n - 1);
    }
  }

  /** The total of a state is the sum of the values its dictionary holds, in order. */
  lemma InvTotal(m: MoveState)
    requires Inv(m)
    ensures IdsIn(Values(m.grid), |m.tiles|)
    ensures MoveTotal(m) == ValueSum(Pick(m.tiles, Values(m.grid)))
  {
    InvValues(m);
    PickTotal(m.tiles, Values(m.grid));
    assert LiveSet(Values(m.grid)) == Alive(m);
  }

  lemma StartTotal(b: Board)
    requires BoardOk(b)
    ensures MoveTotal(Start(b)) == BoardTotal(b)
  {
    var m := Start(b);
    InvTotal(m);
    assert Pick(m.tiles, Values(m.grid)) == Values(b);
  }

  lemma FinalTotal(m: MoveState)
    requires Inv(m)
    ensures BoardTotal(Final(m)) == MoveTotal(m)
  {
    InvTotal(m);
    assert Values(Final(m)) == Pick(m.tiles, Values(m.grid));
  }

  /**
   `move_tiles` up to `end_move`: the dictionary after the `while updated`
   loop has finished.
   */
  function Slide(d: Dir, b: Board): (r: Board)
    requires BoardOk(b)
    ensures BoardOk(r) && Size(r) <= Size(b)
    ensures BoardTotal(r) <= BoardTotal(b)
  {
    StartTotal(b);
    FinalTotal(Settle(d, Start(b)));
    Final(Settle(d, Start(b)))
  }

  /**
   A move in which no pass loses a value keeps the sum of the values and
   removes exactly one tile per merge: the tiles merged into are the ones
   `blocks` collects.
   */
  lemma SlideKeeps(d: Dir, b: Board)
    requires BoardOk(b) && CleanMove(d, Start(b))
    ensures BoardTotal(Slide(d, b)) == BoardTotal(b)
    ensures Size(Slide(d, b)) + |Settle(d, Start(b)).blocks| == Size(b)
  {
    StartTotal(b);
    FinalTotal(Settle(d, Start(b)));
    SettleKeeps(d, Start(b));
  }
}
