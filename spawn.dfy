/**
 What `end_move` does to the board once the sliding has stopped, on values:
 with sixteen tiles it restarts with the two tiles `generate_tiles` places,
 otherwise it stores one new tile on an empty cell.
 */
module Spawning {
  import opened Geometry
  import opened Dicts
  import opened Engine

  /** Every cell of the board, row by row. */
  function AllCells(): (r: seq<Cell>)
    ensures |r| == Rows * Cols
  {
    seq(Rows * Cols, i requires 0 <= i < Rows * Cols => Cell(i / Cols, i % Cols))
  }

  lemma AllCellsSpec()
    ensures Distinct(AllCells())
    ensures forall c :: c in AllCells() <==> InRange(c)
  {
    var all := AllCells();
    forall c | InRange(c) ensures c in all {
      var i := c.row * Cols + c.col;
      assert all[i] == c;
    }
  }

  /**
   The dictionary holds at most sixteen tiles, and it holds sixteen exactly
   when every cell of the board has a tile: the test `len(tiles) == 16` is
   the test for a full board.
   */
  lemma {:induction false} FullIffSixteen(b: Board)
    requires BoardOk(b)
    ensures Size(b) <= FullCount
    ensures Size(b) == FullCount <==> forall c :: InRange(c) ==> c in b.entries
  {
    var all := set c | c in AllCells();
    var keys := set k | k in b.keys;
    AllCellsSpec();
    DistinctCard(AllCells());
    DistinctCard(b.keys);
    forall k | k in keys ensures k in all {
      OnBoardInRange(b.entries[k]);
    }
    assert keys * all == keys;
    assert |all - keys| == |all| - |keys|;
    if Size(b) == FullCount {
      assert all - keys == {};
      forall c | InRange(c) ensures c in b.entries {
        assert c in all;
      }
    }
    if forall c :: InRange(c) ==> c in b.entries {
      assert all - keys == {};
    }
  }

  /** A board that is not full has an empty cell. */
  lemma FreeCell(b: Board)
    requires BoardOk(b) && Size(b) != FullCount
    ensures exists c :: InRange(c) && c !in b.entries
  {
    FullIffSixteen(b);
  }

  /** `tiles[f"{row}{col}"] = Tile(value, row, col)`: a new tile at rest on cell `c`. */
  function Spawn(b: Board, c: Cell, value: int): Board
    requires WellFormed(b)
  {
    Put(b, c, NewTile(value, c.row, c.col))
  }

  /**
   A new tile of value 2 or 4 on an empty cell of the board keeps every tile
   under its own cell, adds one tile and its value to the board, and leaves
   every other tile as it was.
   */
  lemma SpawnSpec(b: Board, c: Cell, value: int)
    requires BoardOk(b) && InRange(c) && c !in b.entries
    requires value == 2 || value == 4
    ensures var r := Spawn(b, c, value);
      && BoardOk(r)
      && Size(r) == Size(b) + 1
      && BoardTotal(r) == BoardTotal(b) + value
      && r.keys == b.keys + [c]
      && (forall k :: k in b.entries ==> r.entries[k] == b.entries[k])
      && r.entries[c].value == value && AtRest(r.entries[c]) && CellOf(r.entries[c]) == c
  {
    var r := Spawn(b, c, value);
    NewTileOnBoard(value, c);
    assert Values(r) == Values(b) + [r.entries[c]];
    assert (Values(b) + [r.entries[c]])[..|Values(b)|] == Values(b);
  }

  /** The dictionary `generate_tiles` returns: a tile of value 2 at `a`, then one at `b`. */
  function Initial(a: Cell, b: Cell): Board
  {
    Dict([a, b], map[a := NewTile(2, a.row, a.col), b := NewTile(2, b.row, b.col)])
  }

  /**
   Two distinct cells of the board give a board of two tiles of value 2,
   each at rest under its own cell, totalling 4.
   */
  lemma InitialSpec(a: Cell, b: Cell)
    requires a != b && InRange(a) && InRange(b)
    ensures var r := Initial(a, b);
      && BoardOk(r)
      && Size(r) == 2
      && BoardTotal(r) == 4
      && forall k :: k in r.entries ==> r.entries[k].value == 2 && AtRest(r.entries[k])
  {
    var r := Initial(a, b);
    NewTileOnBoard(2, a);
    NewTileOnBoard(2, b);
    assert Values(r) == [r.entries[a], r.entries[b]];
    assert Values(r)[..1] == [r.entries[a]];
    assert Values(r)[..1][..0] == [];
    assert ValueSum(Values(r)[..1]) == 2;
  }
}
