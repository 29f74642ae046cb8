/**
 A move that loses a tile. Row 0 holds 8, 2, 2 in columns 1, 2 and 3, and
 the player moves left. In the first pass the 8 moves, and the first 2 is
 then too close to it to move; from then on the second 2 follows the first
 one 180 pixels behind instead of 200. In the tenth pass the first 2 is at
 x = 220 (column 2 by `ceil`) when the second 2 arrives at x = 400 (also
 column 2), and `update_tiles` stores the second over the first.
 */
module LostTile {
  import opened Geometry
  import opened Dicts
  import opened Sorting
  import opened Engine

  /** The three tiles of row 0 at the given `x` positions, each with the column `set_pos(ceil=True)` gives. */
  function Tiles(x0: int, x1: int, x2: int): seq<TileState>
  {
    [TileState(8, 0, CeilDiv(x0, RectWidth), x0, 0),
     TileState(2, 0, CeilDiv(x1, RectWidth), x1, 0),
     TileState(2, 0, CeilDiv(x2, RectWidth), x2, 0)]
  }

  /** The state between passes while the three tiles are in columns 1, 2 and 3. */
  function Row(x0: int, x1: int, x2: int): MoveState
  {
    var c0, c1, c2 := Cell(0, CeilDiv(x0, RectWidth)), Cell(0, CeilDiv(x1, RectWidth)), Cell(0, CeilDiv(x2, RectWidth));
    MoveState(Tiles(x0, x1, x2), Dict([c0, c1, c2], map[c0 := 0, c1 := 1, c2 := 2]), {})
  }

  /** Positions strictly inside columns 1, 2 and 3 (or at their left edge), on the 20-pixel grid. */
  predicate InColumns(x0: int, x1: int, x2: int)
  {
    && 0 < x0 <= 200 && 200 < x1 <= 400 && 400 < x2 <= 600
    && x0 % MoveVel == 0 && x1 % MoveVel == 0 && x2 % MoveVel == 0
  }

  lemma Columns(x0: int, x1: int, x2: int)
    requires InColumns(x0, x1, x2)
    ensures CeilDiv(x0, RectWidth) == 1 && CeilDiv(x1, RectWidth) == 2 && CeilDiv(x2, RectWidth) == 3
  {
  }

  lemma RowInv(x0: int, x1: int, x2: int)
    requires InColumns(x0, x1, x2)
    ensures Inv(Row(x0, x1, x2))
  {
    Columns(x0, x1, x2);
    assert IsPowerOfTwo(8) by {
      assert IsPowerOfTwo(4) by { assert IsPowerOfTwo(2); }
    }
    assert IsPowerOfTwo(2);
  }

  lemma RowValues(x0: int, x1: int, x2: int)
    requires InColumns(x0, x1, x2)
    ensures Values(Row(x0, x1, x2).grid) == [0, 1, 2]
  {
    Columns(x0, x1, x2);
  }

  lemma RowKeyed(x0: int, x1: int, x2: int)
    requires InColumns(x0, x1, x2)
    ensures Keyed(Left, Tiles(x0, x1, x2), [0, 1, 2]) == [(1, 0), (2, 1), (3, 2)]
  {
    Columns(x0, x1, x2);
  }

  lemma SortedThree(keyed: seq<(int, nat)>)
    requires keyed == [(1, 0), (2, 1), (3, 2)]
    ensures Payloads<nat>(SortBy<nat>(false, keyed)) == [0, 1, 2]
  {
    assert Ordered(false, keyed);
    SortByOrdered<nat>(false, keyed);
  }

  lemma RowSorted(x0: int, x1: int, x2: int)
    requires InColumns(x0, x1, x2)
    ensures SortTiles(Left, Tiles(x0, x1, x2), [0, 1, 2]) == [0, 1, 2]
  {
    RowKeyed(x0, x1, x2);
    SortedThree(Keyed(Left, Tiles(x0, x1, x2), [0, 1, 2]));
  }

  /** The pass starts with the tiles in dictionary order, which is already sorted by column. */
  lemma RowStart(x0: int, x1: int, x2: int)
    requires InColumns(x0, x1, x2)
    ensures Inv(Row(x0, x1, x2))
    ensures StartPass(Left, Row(x0, x1, x2)) == Pass(Tiles(x0, x1, x2), [0, 1, 2], {}, false)
  {
    RowInv(x0, x1, x2);
    RowValues(x0, x1, x2);
    RowSorted(x0, x1, x2);
  }

  /** Where the first 2 ends a pass: it moves only when the 8, already moved, is more than a cell plus a step ahead. */
  function Follow(x0: int, x1: int): int
  {
    if x1 > x0 - MoveVel + RectWidth + MoveVel then x1 - MoveVel else x1
  }

  lemma WalkEight(x0: int, x1: int, x2: int)
    requires InColumns(x0, x1, x2)
    ensures Step(Left, Row(x0, x1, x2).grid.entries, Pass(Tiles(x0, x1, x2), [0, 1, 2], {}, false), 0)
         == Pass(Tiles(x0 - MoveVel, x1, x2), [0, 1, 2], {}, true)
  {
    Columns(x0, x1, x2);
    assert CeilDiv(0, RectHeight) == 0;
  }

  lemma WalkFirstTwo(x0: int, x1: int, x2: int)
    requires InColumns(x0, x1, x2)
    ensures Step(Left, Row(x0, x1, x2).grid.entries, Pass(Tiles(x0 - MoveVel, x1, x2), [0, 1, 2], {}, true), 1)
         == Pass(Tiles(x0 - MoveVel, Follow(x0, x1), x2), [0, 1, 2], {}, true)
  {
    Columns(x0, x1, x2);
    assert CeilDiv(0, RectHeight) == 0;
  }

  lemma WalkSecondTwo(x0: int, x1: int, x2: int)
    requires InColumns(x0, x1, x2) && x2 > Follow(x0, x1) + MoveVel
    ensures Step(Left, Row(x0, x1, x2).grid.entries, Pass(Tiles(x0 - MoveVel, Follow(x0, x1), x2), [0, 1, 2], {}, true), 2)
         == Pass(Tiles(x0 - MoveVel, Follow(x0, x1), x2 - MoveVel), [0, 1, 2], {}, true)
  {
    Columns(x0, x1, x2);
    assert CeilDiv(0, RectHeight) == 0;
  }

  /**
   One walk through `sorted_tiles`: the 8 has no tile to its left and
   moves; the first 2 moves unless the 8 is too close; the second 2 is
   more than a step behind the first 2, which it could merge with, so it
   moves too.
   */
  lemma RowWalk(x0: int, x1: int, x2: int, grid: map<Cell, nat>)
    requires InColumns(x0, x1, x2) && x2 > Follow(x0, x1) + MoveVel && grid == Row(x0, x1, x2).grid.entries
    ensures PassFrom(Left, grid, Pass(Tiles(x0, x1, x2), [0, 1, 2], {}, false), 0)
         == Pass(Tiles(x0 - MoveVel, Follow(x0, x1), x2 - MoveVel), [0, 1, 2], {}, true)
  {
    var ids: seq<nat> := [0, 1, 2];
    assert IdsIn(ids, 3) && Distinct(ids);
    assert GridIn(grid, 3);
    var p0 := Pass(Tiles(x0, x1, x2), ids, {}, false);
    var p1 := Pass(Tiles(x0 - MoveVel, x1, x2), ids, {}, true);
    var p2 := Pass(Tiles(x0 - MoveVel, Follow(x0, x1), x2), ids, {}, true);
    var p3 := Pass(Tiles(x0 - MoveVel, Follow(x0, x1), x2 - MoveVel), ids, {}, true);
    WalkEight(x0, x1, x2);
    PassStep(Left, grid, p0, 0);
    WalkFirstTwo(x0, x1, x2);
    PassStep(Left, grid, p1, 1);
    WalkSecondTwo(x0, x1, x2);
    PassStep(Left, grid, p2, 2);
    assert PassFrom(Left, grid, p3, 3) == p3;
  }

  /** `update_tiles` over three tiles: three writes into an empty dictionary. */
  lemma BuildThree(s: seq<(Cell, nat)>)
    requires |s| == 3
    ensures Build<nat>(s) == Put(Put(Put(Empty<nat>(), s[0].0, s[0].1), s[1].0, s[1].1), s[2].0, s[2].1)
  {
    assert s[..2][..1] == s[..1] && s[..1][..0] == [];
    assert Build<nat>(s[..1]) == Put(Empty<nat>(), s[0].0, s[0].1);
    assert Build<nat>(s[..2]) == Put(Build<nat>(s[..1]), s[1].0, s[1].1);
  }

  lemma PutFirst(a: Cell)
    ensures Put(Empty<nat>(), a, 0) == Dict([a], map[a := 0])
  {
  }

  lemma PutSecond(a: Cell, b: Cell)
    requires a != b
    ensures Put(Dict([a], map[a := 0]), b, 1) == Dict([a, b], map[a := 0, b := 1])
  {
  }

  lemma PutThird(a: Cell, b: Cell, c: Cell)
    requires a != b && b != c && a != c
    ensures Put(Dict([a, b], map[a := 0, b := 1]), c, 2) == Dict([a, b, c], map[a := 0, b := 1, c := 2])
  {
  }

  lemma PutAgain(a: Cell, b: Cell)
    requires a != b
    ensures Put(Dict([a, b], map[a := 0, b := 1]), b, 2) == Dict([a, b], map[a := 0, b := 2])
  {
  }

  /** Three writes under three different keys: each key in writing order, each with its own value. */
  lemma PutDistinct(a: Cell, b: Cell, c: Cell)
    requires a != b && b != c && a != c
    ensures Put(Put(Put(Empty<nat>(), a, 0), b, 1), c, 2) == Dict([a, b, c], map[a := 0, b := 1, c := 2])
  {
    PutFirst(a);
    PutSecond(a, b);
    PutThird(a, b, c);
  }

  /** Three writes where the last two share a key: the key stays where it was first written, with the last value. */
  lemma PutOver(a: Cell, b: Cell)
    requires a != b
    ensures Put(Put(Put(Empty<nat>(), a, 0), b, 1), b, 2) == Dict([a, b], map[a := 0, b := 2])
  {
    PutFirst(a);
    PutSecond(a, b);
    PutAgain(a, b);
  }

  /** With the three tiles in three different columns, `update_tiles` rebuilds the same dictionary shape. */
  lemma RowRekey(x0: int, x1: int, x2: int)
    requires InColumns(x0, x1, x2)
    ensures Rekey(Tiles(x0, x1, x2), [0, 1, 2]) == Row(x0, x1, x2).grid
  {
    Columns(x0, x1, x2);
    var cells := CellsOf(Tiles(x0, x1, x2), [0, 1, 2]);
    assert cells == [(Cell(0, 1), 0), (Cell(0, 2), 1), (Cell(0, 3), 2)];
    BuildThree(cells);
    PutDistinct(Cell(0, 1), Cell(0, 2), Cell(0, 3));
  }

  /** A pass is its walk followed by `update_tiles`. */
  lemma RunPassIs(m: MoveState, p: Pass, g: Dict<nat>)
    requires Inv(m)
    requires PassFrom(Left, m.grid.entries, StartPass(Left, m), 0) == p
    requires IdsIn(p.live, |p.tiles|) && Rekey(p.tiles, p.live) == g
    ensures RunPass(Left, m) == (MoveState(p.tiles, g, p.blocks), p.updated)
  {
  }

  /** A pass in which nothing reaches a new column. */
  lemma RowPass(x0: int, x1: int, x2: int, y0: int, y1: int, y2: int)
    requires InColumns(x0, x1, x2) && InColumns(y0, y1, y2)
    requires y0 == x0 - MoveVel && y1 == Follow(x0, x1) && y2 == x2 - MoveVel && x2 > y1 + MoveVel
    ensures Inv(Row(x0, x1, x2))
    ensures RunPass(Left, Row(x0, x1, x2)) == (Row(y0, y1, y2), true)
  {
    RowStart(x0, x1, x2);
    RowWalk(x0, x1, x2, Row(x0, x1, x2).grid.entries);
    RowRekey(y0, y1, y2);
    RunPassIs(Row(x0, x1, x2), Pass(Tiles(y0, y1, y2), [0, 1, 2], {}, true), Row(y0, y1, y2).grid);
  }

  // ---- the tenth pass: both 2s name column 2

  /** After the tenth pass: the 8 at rest in column 0, the first 2 overwritten, the second 2 at `x2`. */
  function Pair(x2: int): MoveState
  {
    var c := Cell(0, CeilDiv(x2, RectWidth));
    MoveState(Tiles(0, 220, x2), Dict([Cell(0, 0), c], map[Cell(0, 0) := 0, c := 2]), {})
  }

  lemma CollisionCells(ids: seq<nat>)
    requires ids == [0, 1, 2]
    ensures CellsOf(Tiles(0, 220, 400), ids) == [(Cell(0, 0), 0), (Cell(0, 2), 1), (Cell(0, 2), 2)]
  {
    var t := Tiles(0, 220, 400);
    assert CeilDiv(0, RectWidth) == 0 && CeilDiv(220, RectWidth) == 2 && CeilDiv(400, RectWidth) == 2;
    assert CellOf(t[0]) == Cell(0, 0) && CellOf(t[1]) == Cell(0, 2) && CellOf(t[2]) == Cell(0, 2);
  }

  /** `update_tiles` stores both 2s under key "02"; the second one stays. */
  lemma CollisionRekey()
    ensures Rekey(Tiles(0, 220, 400), [0, 1, 2]) == Pair(400).grid
  {
    CollisionCells([0, 1, 2]);
    BuildThree(CellsOf(Tiles(0, 220, 400), [0, 1, 2]));
    PutOver(Cell(0, 0), Cell(0, 2));
    assert CeilDiv(400, RectWidth) == 2;
  }

  lemma CollisionPass()
    ensures Inv(Row(20, 240, 420))
    ensures RunPass(Left, Row(20, 240, 420)) == (Pair(400), true)
  {
    RowStart(20, 240, 420);
    RowWalk(20, 240, 420, Row(20, 240, 420).grid.entries);
    CollisionRekey();
    RunPassIs(Row(20, 240, 420), Pass(Tiles(0, 220, 400), [0, 1, 2], {}, true), Pair(400).grid);
  }

  // ---- the whole move

  /** A pass in which nothing reaches a new column leaves the rest of the move unchanged. */
  lemma SettleRow(x0: int, x1: int, x2: int, y0: int, y1: int, y2: int)
    requires InColumns(x0, x1, x2) && InColumns(y0, y1, y2)
    requires y0 == x0 - MoveVel && y1 == Follow(x0, x1) && y2 == x2 - MoveVel && x2 > y1 + MoveVel
    ensures Inv(Row(x0, x1, x2)) && Inv(Row(y0, y1, y2))
    ensures Settle(Left, Row(x0, x1, x2)) == Settle(Left, Row(y0, y1, y2))
  {
    RowPass(x0, x1, x2, y0, y1, y2);
  }

  /**
   Nine passes in which every tile moves one step except the first 2 in the
   first pass: the 8 goes from x = 200 to 20, the 2s from 400 and 600 to
   240 and 420.
   */
  lemma NinePasses()
    ensures Inv(Row(200, 400, 600)) && Inv(Row(20, 240, 420))
    ensures Settle(Left, Row(200, 400, 600)) == Settle(Left, Row(20, 240, 420))
  {
    SettleRow(200, 400, 600, 180, 400, 580);
    SettleRow(180, 400, 580, 160, 380, 560);
    SettleRow(160, 380, 560, 140, 360, 540);
    SettleRow(140, 360, 540, 120, 340, 520);
    SettleRow(120, 340, 520, 100, 320, 500);
    SettleRow(100, 320, 500, 80, 300, 480);
    SettleRow(80, 300, 480, 60, 280, 460);
    SettleRow(60, 280, 460, 40, 260, 440);
    SettleRow(40, 260, 440, 20, 240, 420);
  }

  /** The tenth pass drops the first 2: from then on the dictionary holds 8 and 2. */
  lemma TenthPass()
    ensures Inv(Row(20, 240, 420)) && Inv(Pair(400))
    ensures Settle(Left, Row(20, 240, 420)) == Settle(Left, Pair(400))
  {
    CollisionPass();
  }

  /** Only the 8 and the second 2 count once the first 2 has left the dictionary. */
  lemma PairTotal(m: MoveState)
    requires m == Pair(400)
    ensures MoveTotal(m) == 10
  {
    assert CeilDiv(400, RectWidth) == 2;
    var g := m.grid.entries;
    assert g == map[Cell(0, 0) := 0, Cell(0, 2) := 2];
    assert g[Cell(0, 0)] == 0 && g[Cell(0, 2)] == 2;
    forall v | v in g.Values ensures v == 0 || v == 2 {
      var k :| k in g && g[k] == v;
    }
    assert Alive(m) == {0, 2};
    assert SumUpTo(m.tiles, {0, 2}, 1) == 8;
    assert SumUpTo(m.tiles, {0, 2}, 2) == 8;
  }

  /** Row 0 as `generate_tiles` and earlier moves could leave it: 8, 2 and 2 at rest in columns 1, 2 and 3. */
  function Before(): Board
  {
    Dict([Cell(0, 1), Cell(0, 2), Cell(0, 3)],
         map[Cell(0, 1) := NewTile(8, 0, 1), Cell(0, 2) := NewTile(2, 0, 2), Cell(0, 3) := NewTile(2, 0, 3)])
  }

  lemma BeforeValues()
    ensures WellFormed(Before()) && Values(Before()) == Tiles(200, 400, 600)
  {
    assert CeilDiv(200, RectWidth) == 1 && CeilDiv(400, RectWidth) == 2 && CeilDiv(600, RectWidth) == 3;
  }

  lemma BeforeOk()
    ensures BoardOk(Before()) && BoardTotal(Before()) == 12
  {
    BeforeOnBoard();
    BeforeTotal();
  }

  lemma BeforeOnBoard()
    ensures BoardOk(Before())
  {
    BeforeValues();
    RowInv(200, 400, 600);
    var b, vs := Before(), Tiles(200, 400, 600);
    assert b.entries[Cell(0, 1)] == vs[0] && b.entries[Cell(0, 2)] == vs[1] && b.entries[Cell(0, 3)] == vs[2];
    assert OnBoard(vs[0]) && OnBoard(vs[1]) && OnBoard(vs[2]);
  }

  lemma BeforeTotal()
    ensures WellFormed(Before()) && BoardTotal(Before()) == 12
  {
    BeforeValues();
    var vs := Tiles(200, 400, 600);
    assert vs[..2][..1][..0] == [] && vs[..2][..1] == vs[..1] && vs[..2] == vs[..|vs| - 1];
    assert ValueSum(vs[..1]) == 8;
  }

  lemma BeforeStart()
    ensures BoardOk(Before()) && Start(Before()) == Row(200, 400, 600)
  {
    BeforeOk();
    BeforeValues();
    var s := Numbered(Before().keys);
    assert s == [(Cell(0, 1), 0), (Cell(0, 2), 1), (Cell(0, 3), 2)];
    BuildThree(s);
    Columns(200, 400, 600);
  }

  /**
   Moving left from that row loses a 2: the board after the slide adds up
   to less than the board before it, although a merge only ever doubles one
   tile and removes another of the same value.
   */
  lemma SlideLosesValue()
    ensures BoardOk(Before())
    ensures BoardTotal(Before()) == 12 && BoardTotal(Slide(Left, Before())) <= 10
  {
    BeforeOk();
    BeforeStart();
    NinePasses();
    TenthPass();
    PairTotal(Pair(400));
    FinalTotal(Settle(Left, Start(Before())));
  }

  /** That move is not one in which every pass keeps its values, so `Engine.SlideKeeps` does not apply to it. */
  lemma BeforeNotClean()
    ensures BoardOk(Before()) && !CleanMove(Left, Start(Before()))
  {
    SlideLosesValue();
    if CleanMove(Left, Start(Before())) {
      SlideKeeps(Left, Before());
      assert false;
    }
  }
}
