/**
 Board geometry of the 2048 game: the screen constants, tile positions, the
 two rounding modes of `set_pos`, and the five per-direction helpers that
 `move_tiles` selects before it starts sliding.
 */
module Geometry {

  const Rows := 4
  const Cols := 4
  const Width := 800
  const Height := 800
  /** `HEIGHT // ROWS` and `WIDTH // COLS`; see `CellSizes`. */
  const RectHeight := 200
  const RectWidth := 200
  const MoveVel := 20
  /** `end_move` restarts when the dictionary holds this many tiles. */
  const FullCount := 16

  lemma CellSizes()
    ensures RectHeight == Height / Rows && RectWidth == Width / Cols
    ensures RectWidth % MoveVel == 0 && RectHeight % MoveVel == 0
  {
  }

  /** The dictionary key `f"{row}{col}"`, kept as a pair. */
  datatype Cell = Cell(row: int, col: int)

  predicate InRange(c: Cell)
  {
    0 <= c.row < Rows && 0 <= c.col < Cols
  }

  /** The five fields of a tile object, as a value. */
  datatype TileState = TileState(value: int, row: int, col: int, x: int, y: int)

  function CellOf(t: TileState): Cell
  {
    Cell(t.row, t.col)
  }

  /** A tile whose pixel position is exactly the corner of its cell. */
  predicate AtRest(t: TileState)
  {
    t.x == t.col * RectWidth && t.y == t.row * RectHeight
  }

  predicate IsPowerOfTwo(v: int)
    decreases if v < 0 then 0 else v
  {
    v == 1 || (v > 1 && v % 2 == 0 && IsPowerOfTwo(v / 2))
  }

  /**
   The invariant every tile keeps between and during moves: a power of two
   of at least 2, a pixel position on the board that is a whole number of
   `MoveVel` steps, and a row and column less than one cell away from that
   position.
   */
  predicate OnBoard(t: TileState)
  {
    && IsPowerOfTwo(t.value) && t.value >= 2
    && 0 <= t.x <= (Cols - 1) * RectWidth
    && 0 <= t.y <= (Rows - 1) * RectHeight
    && t.x % MoveVel == 0 && t.y % MoveVel == 0
    && (t.col - 1) * RectWidth < t.x < (t.col + 1) * RectWidth
    && (t.row - 1) * RectHeight < t.y < (t.row + 1) * RectHeight
  }

  /** `Tile.__init__`: the pixel position is derived from the cell. */
  function NewTile(value: int, row: int, col: int): (t: TileState)
    ensures AtRest(t) && t.value == value && CellOf(t) == Cell(row, col)
  {
    TileState(value, row, col, col * RectWidth, row * RectHeight)
  }

  /** `math.ceil(a / b)` for a positive divisor. */
  function CeilDiv(a: int, b: int): (q: int)
    requires b > 0
    ensures b * (q - 1) < a <= b * q
  {
    if a % b == 0 then a / b else a / b + 1
  }

  /** `math.floor(a / b)` for a positive divisor is Dafny's `/`. */
  lemma FloorDivBounds(a: int, b: int)
    requires b > 0
    ensures b * (a / b) <= a < b * (a / b + 1)
  {
  }

  /** `Tile.set_pos`: recompute the cell from the pixel position. */
  function SetPos(t: TileState, ceil: bool): TileState
  {
    if ceil then t.(row := CeilDiv(t.y, RectHeight), col := CeilDiv(t.x, RectWidth))
    else t.(row := t.y / RectHeight, col := t.x / RectWidth)
  }

  /** `Tile.move`. */
  function Moved(t: TileState, delta: (int, int)): TileState
  {
    t.(x := t.x + delta.0, y := t.y + delta.1)
  }

  datatype Dir = Left | Right | Up | Down

  // ---- the per-direction helpers chosen at the top of `move_tiles` ----

  function SortKey(d: Dir, t: TileState): int
  {
    if d.Left? || d.Right? then t.col else t.row
  }

  /** The `reverse` flag given to `sorted`. */
  predicate Descending(d: Dir)
  {
    d.Right? || d.Down?
  }

  function Delta(d: Dir): (int, int)
  {
    match d
    case Left => (-MoveVel, 0)
    case Right => (MoveVel, 0)
    case Up => (0, -MoveVel)
    case Down => (0, MoveVel)
  }

  predicate AtBoundary(d: Dir, t: TileState)
  {
    match d
    case Left => t.col == 0
    case Right => t.col == Cols - 1
    case Up => t.row == 0
    case Down => t.row == Rows - 1
  }

  /** The key `get_next_tile` looks up. */
  function NextCell(d: Dir, t: TileState): Cell
  {
    match d
    case Left => Cell(t.row, t.col - 1)
    case Right => Cell(t.row, t.col + 1)
    case Up => Cell(t.row - 1, t.col)
    case Down => Cell(t.row + 1, t.col)
  }

  /** `merge_check`: still more than one step away from an equal neighbour. */
  predicate MergeCheck(d: Dir, t: TileState, n: TileState)
  {
    match d
    case Left => t.x > n.x + MoveVel
    case Right => t.x < n.x - MoveVel
    case Up => t.y > n.y + MoveVel
    case Down => t.y < n.y - MoveVel
  }

  /** `move_check`: still more than a cell plus one step from a blocking neighbour. */
  predicate MoveCheck(d: Dir, t: TileState, n: TileState)
  {
    match d
    case Left => t.x > n.x + RectWidth + MoveVel
    case Right => t.x + RectWidth + MoveVel < n.x
    case Up => t.y > n.y + RectHeight + MoveVel
    case Down => t.y + RectHeight + MoveVel < n.y
  }

  /** The `ceil` flag passed to `set_pos`. */
  predicate UsesCeil(d: Dir)
  {
    d.Left? || d.Up?
  }

  // ---- one direction-independent reading of the helpers ----

  /** Pixels between the tile and the edge it slides toward. */
  function Dist(d: Dir, t: TileState): int
  {
    match d
    case Left => t.x
    case Right => (Cols - 1) * RectWidth - t.x
    case Up => t.y
    case Down => (Rows - 1) * RectHeight - t.y
  }

  /** Cells between a cell and the edge tiles slide toward. */
  function CellRank(d: Dir, c: Cell): int
  {
    match d
    case Left => c.col
    case Right => Cols - 1 - c.col
    case Up => c.row
    case Down => Rows - 1 - c.row
  }

  /** The row (horizontal moves) or column (vertical moves) a cell lies on. */
  function CellLane(d: Dir, c: Cell): int
  {
    if d.Left? || d.Right? then c.row else c.col
  }

  function Rank(d: Dir, t: TileState): int
  {
    CellRank(d, CellOf(t))
  }

  /** The pixel coordinate across the direction of travel. */
  function Cross(d: Dir, t: TileState): int
  {
    if d.Left? || d.Right? then t.y else t.x
  }

  /** The size of a cell along the direction of travel. */
  function Span(d: Dir): int
  {
    if d.Left? || d.Right? then RectWidth else RectHeight
  }

  /**
   The four direction-specific helpers all say the same thing about the
   distance to the target edge, and the neighbour lookup is the next cell
   toward that edge on the same line.
   */
  lemma HelpersUniform(d: Dir, t: TileState, n: TileState)
    ensures AtBoundary(d, t) <==> Rank(d, t) == 0
    ensures MergeCheck(d, t, n) <==> Dist(d, t) > Dist(d, n) + MoveVel
    ensures MoveCheck(d, t, n) <==> Dist(d, t) > Dist(d, n) + Span(d) + MoveVel
    ensures CellRank(d, NextCell(d, t)) == Rank(d, t) - 1
    ensures CellLane(d, NextCell(d, t)) == CellLane(d, CellOf(t))
  {
  }

  /** `Tile.move` by the direction's delta brings the tile one step closer to the edge and changes only `x` and `y`. */
  lemma StepTowardEdge(d: Dir, t: TileState)
    ensures Dist(d, Moved(t, Delta(d))) == Dist(d, t) - MoveVel
    ensures Cross(d, Moved(t, Delta(d))) == Cross(d, t)
    ensures var m := Moved(t, Delta(d)); m.value == t.value && m.row == t.row && m.col == t.col
  {
  }

  /**
   `merge_check` lets a tile step toward an equal neighbour only while the
   step leaves it short of the neighbour's position, and `move_check` lets
   it step toward any other neighbour only while the step leaves more than
   a cell between them.
   */
  lemma CheckClearance(d: Dir, t: TileState, n: TileState)
    ensures MergeCheck(d, t, n) ==> Dist(d, Moved(t, Delta(d))) > Dist(d, n)
    ensures MoveCheck(d, t, n) ==> Dist(d, Moved(t, Delta(d))) > Dist(d, n) + Span(d)
  {
    HelpersUniform(d, t, n);
    StepTowardEdge(d, t);
  }

  /** A tile at rest keeps its cell under `set_pos`, whichever rounding is used. */
  lemma SetPosAtRest(t: TileState, ceil: bool)
    requires AtRest(t)
    ensures SetPos(t, ceil) == t
  {
    assert (t.col * RectWidth) % RectWidth == 0 && (t.row * RectHeight) % RectHeight == 0;
    assert (t.col * RectWidth) / RectWidth == t.col;
    assert (t.row * RectHeight) / RectHeight == t.row;
  }

  lemma OnBoardInRange(t: TileState)
    requires OnBoard(t)
    ensures InRange(CellOf(t))
  {
  }

  /** `set_pos` keeps every tile on the board, in either rounding mode. */
  lemma SetPosOnBoard(t: TileState, ceil: bool)
    requires OnBoard(t)
    ensures OnBoard(SetPos(t, ceil))
    ensures SetPos(t, ceil).value == t.value && SetPos(t, ceil).x == t.x && SetPos(t, ceil).y == t.y
  {
    FloorDivBounds(t.x, RectWidth);
    FloorDivBounds(t.y, RectHeight);
  }

  /**
   A tile that is not at the boundary has room for one more step: moving it
   and recomputing its cell keeps it on the board, and its distance to the
   edge drops by `MoveVel` without going negative.
   */
  lemma AdvanceOnBoard(d: Dir, t: TileState)
    requires OnBoard(t) && !AtBoundary(d, t)
    ensures OnBoard(SetPos(Moved(t, Delta(d)), UsesCeil(d)))
    ensures Dist(d, SetPos(Moved(t, Delta(d)), UsesCeil(d))) == Dist(d, t) - MoveVel >= 0
  {
    var m := Moved(t, Delta(d));
    var r := SetPos(m, UsesCeil(d));
    AxisStep(t.x, t.col, Delta(d).0, UsesCeil(d), Cols - 1);
    AxisStep(t.y, t.row, Delta(d).1, UsesCeil(d), Rows - 1);
    assert r.x == m.x && r.y == m.y && r.value == t.value;
  }

  /**
   One axis of a step: a pixel position on a multiple of `MoveVel` inside its
   cell's neighbours, moved by at most `MoveVel` without leaving the board,
   stays on the board, and the cell rounded from it brackets it again.
   */
  lemma AxisStep(p: int, c: int, delta: int, ceil: bool, last: int)
    requires 0 <= p <= last * RectWidth && p % MoveVel == 0
    requires (c - 1) * RectWidth < p < (c + 1) * RectWidth
    requires delta == 0 || (delta == -MoveVel && c != 0) || (delta == MoveVel && c != last)
    ensures var q := p + delta;
      var n := if ceil then CeilDiv(q, RectWidth) else q / RectWidth;
      && 0 <= q <= last * RectWidth && q % MoveVel == 0
      && (n - 1) * RectWidth < q < (n + 1) * RectWidth
  {
    var q := p + delta;
    if ceil {
      CellOfCeil(q, RectWidth);
    } else {
      FloorDivBounds(q, RectWidth);
    }
  }

  /** The cell `set_pos` rounds up to holds the pixel position strictly inside its neighbours. */
  lemma CellOfCeil(a: int, b: int)
    requires b > 0
    ensures (CeilDiv(a, b) - 1) * b < a < (CeilDiv(a, b) + 1) * b
  {
  }

  /** Distances to every edge are never negative on the board. */
  lemma DistOnBoard(d: Dir, t: TileState)
    requires OnBoard(t)
    ensures Dist(d, t) >= 0
  {
  }

  /** Doubling a power of two gives a power of two. */
  lemma DoubleOnBoard(t: TileState)
    requires OnBoard(t)
    ensures OnBoard(t.(value := 2 * t.value))
  {
    assert (2 * t.value) / 2 == t.value;
  }

  /** A freshly made tile of value 2 or 4 on an in-range cell is on the board. */
  lemma NewTileOnBoard(value: int, c: Cell)
    requires value == 2 || value == 4
    requires InRange(c)
    ensures OnBoard(NewTile(value, c.row, c.col))
  {
    assert IsPowerOfTwo(1);
    assert IsPowerOfTwo(2);
    if value == 4 {
      assert IsPowerOfTwo(4);
    }
  }
}
