/**
 The objects of the game: tiles whose fields `move`, `set_pos` and a merge
 update in place, and the `tiles` dictionary, which `move_tiles`,
 `update_tiles`, `end_move` and `restart_game` change in place. Each method
 is proved against the value model of the `Engine` and `Spawning` modules.

 The random draws of `random.randrange` are a stream of cells given to the
 methods that draw, and `random.choice([2, 4])` is a value given to
 `end_move`.
 */
module Game {
  import opened Geometry
  import opened Dicts
  import opened Sorting
  import opened Engine
  import opened Spawning

  class Tile {
    var value: int
    var row: int
    var col: int
    var x: int
    var y: int

    /** The five fields, as a value. */
    function State(): TileState
      reads this
    {
      TileState(value, row, col, x, y)
    }

    /** `Tile.__init__`: the pixel position is the corner of the cell. */
    constructor (value: int, row: int, col: int)
      ensures State() == NewTile(value, row, col) && AtRest(State())
    {
      this.value := value;
      this.row := row;
      this.col := col;
      x := col * RectWidth;
      y := row * RectHeight;
    }

    /** `Tile.set_pos`: recompute row and column from the pixel position. */
    method SetPos(ceil: bool)
      modifies this
      ensures State() == Geometry.SetPos(old(State()), ceil)
    {
      if ceil {
        row := CeilDiv(y, RectHeight);
        col := CeilDiv(x, RectWidth);
      } else {
        row := y / RectHeight;
        col := x / RectWidth;
      }
    }

    /** `Tile.move`: only the pixel position changes. */
    method Move(delta: (int, int))
      modifies this
      ensures State() == Moved(old(State()), delta)
      ensures value == old(value) && row == old(row) && col == old(col)
    {
      x := x + delta.0;
      y := y + delta.1;
    }
  }

  /** A dictionary of tile objects, read as the values of their fields. */
  function View(keys: seq<Cell>, cells: map<Cell, Tile>): Board
    reads cells.Values
  {
    Dict(keys, map k | k in cells :: cells[k].State())
  }

  /** Storing a tile object stores its fields. */
  lemma ViewPut(keys: seq<Cell>, cells: map<Cell, Tile>, k: Cell, t: Tile)
    requires WellFormed(View(keys, cells))
    ensures View(if k in cells then keys else keys + [k], cells[k := t]) == Put(View(keys, cells), k, t.State())
  {
  }

  /** On a board whose tiles sit under their own cells, each object's fields name its key. */
  lemma ViewCell(keys: seq<Cell>, cells: map<Cell, Tile>, k: Cell)
    requires BoardOk(View(keys, cells)) && k in cells
    ensures CellOf(cells[k].State()) == k
  {
    assert View(keys, cells).entries[k] == cells[k].State();
  }

  /** Every draw of `(random.randrange(0, ROWS), random.randrange(0, COLS))` is a cell of the board. */
  predicate Drawn(draws: seq<Cell>)
  {
    forall i :: 0 <= i < |draws| ==> InRange(draws[i])
  }

  /** A stream of draws in which every cell of the board turns up. */
  ghost predicate Fair(draws: seq<Cell>)
  {
    Drawn(draws) && forall c :: InRange(c) ==> c in draws
  }

  /**
   `get_random_pos`: draw cells from `draws[from..]` until one is not a key
   of `tiles`. It returns that cell and the position after the draws used;
   every cell drawn before it was taken.
   */
  method GetRandomPos(tiles: map<Cell, Tile>, draws: seq<Cell>, from: nat) returns (c: Cell, next: nat)
    requires Drawn(draws)
    requires exists i :: from <= i < |draws| && draws[i] !in tiles
    ensures from < next <= |draws| && c == draws[next - 1]
    ensures InRange(c) && c !in tiles
    ensures forall i :: from <= i < next - 1 ==> draws[i] in tiles
  {
    ghost var w :| from <= w < |draws| && draws[w] !in tiles;
    c, next := draws[from], from + 1;
    while c in tiles
      invariant from < next <= w + 1 && c == draws[next - 1]
      invariant forall i :: from <= i < next - 1 ==> draws[i] in tiles
      decreases w + 1 - next
    {
      c, next := draws[next], next + 1;
    }
  }

  /** In a fair stream, a cell that is not the first draw is drawn again later. */
  lemma FairSecond(draws: seq<Cell>)
    requires Fair(draws)
    ensures |draws| > 0
    ensures exists i :: 1 <= i < |draws| && draws[i] !in map[draws[0] := draws[0]]
  {
    assert InRange(Cell(0, 0)) && InRange(Cell(0, 1));
    var other := if draws[0] == Cell(0, 0) then Cell(0, 1) else Cell(0, 0);
    var i :| 0 <= i < |draws| && draws[i] == other;
  }

  /**
   `generate_tiles`: a new dictionary with a tile of value 2 on the first
   drawn cell and one on the next drawn cell that differs from it.
   */
  method GenerateTiles(draws: seq<Cell>) returns (keys: seq<Cell>, cells: map<Cell, Tile>)
    requires Fair(draws)
    ensures |keys| == 2 && keys[0] != keys[1] && InRange(keys[0]) && InRange(keys[1])
    ensures forall k :: k in cells <==> k in keys
    ensures forall k :: k in cells ==> fresh(cells[k])
    ensures View(keys, cells) == Initial(keys[0], keys[1])
    ensures keys[0] == draws[0]
    ensures exists j :: 1 <= j < |draws| && keys[1] == draws[j] && forall i :: 1 <= i < j ==> draws[i] == keys[0]
  {
    keys, cells := [], map[];
    var next: nat := 0;
    FairSecond(draws);
    for n := 0 to 2
      invariant |keys| == n && (forall k :: k in cells <==> k in keys)
      invariant forall k :: k in cells ==> fresh(cells[k]) && cells[k].State() == NewTile(2, k.row, k.col)
      invariant forall j :: 0 <= j < n ==> InRange(keys[j])
      invariant n == 0 ==> next == 0
      invariant n == 1 ==> next == 1 && keys == [draws[0]]
      invariant n == 2 ==> keys[0] == draws[0] && keys[0] != keys[1]
      invariant n == 2 ==> 1 < next <= |draws| && keys[1] == draws[next - 1]
      invariant n == 2 ==> forall i :: 1 <= i < next - 1 ==> draws[i] == keys[0]
    {
      if n == 1 {
        assert cells.Keys == map[draws[0] := draws[0]].Keys;
      }
      var c;
      c, next := GetRandomPos(cells, draws, next);
      var tile := new Tile(2, c.row, c.col);
      cells := cells[c := tile];
      keys := keys + [c];
    }
    InitialFrom(keys, View(keys, cells).entries);
    assert 1 <= next - 1 < |draws| && keys[1] == draws[next - 1];
  }

  /** Two keys, each holding a tile of value 2 at rest under its own cell, are the board `Initial` gives. */
  lemma InitialFrom(keys: seq<Cell>, entries: map<Cell, TileState>)
    requires |keys| == 2 && keys[0] != keys[1]
    requires forall k :: k in entries <==> k in keys
    requires forall k :: k in entries ==> entries[k] == NewTile(2, k.row, k.col)
    ensures Dict(keys, entries) == Initial(keys[0], keys[1])
  {
    assert entries.Keys == {keys[0], keys[1]};
  }


  // ---------------------------------------------------------------- one move

  /**
   The tile objects of one move, numbered as `Engine` numbers them: no
   object twice, and each carries the state of its number.
   */
  ghost predicate Carries(objs: seq<Tile>, tiles: seq<TileState>)
    reads objs
  {
    && |objs| == |tiles|
    && Distinct(objs)
    && forall id :: 0 <= id < |objs| ==> objs[id].State() == tiles[id]
  }

  /** The Python set `blocks` holds the objects whose numbers are in `ids`. */
  ghost predicate BlocksAre(objs: seq<Tile>, blocks: set<Tile>, ids: set<nat>)
  {
    forall id :: 0 <= id < |objs| ==> (objs[id] in blocks <==> id in ids)
  }

  /**
   The variables of the `for` loop of one pass, against the pass of
   `Engine`: `sorted_tiles` holds the objects of the live numbers, `blocks`
   those of the blocked numbers, and `updated` is the pass's flag.
   */
  ghost predicate Tracks(p: Pass, objs: seq<Tile>, sorted: seq<Tile>, blocks: set<Tile>, updated: bool)
  {
    && |sorted| == |p.live|
    && (forall j :: 0 <= j < |sorted| ==> p.live[j] < |objs| && sorted[j] == objs[p.live[j]])
    && BlocksAre(objs, blocks, p.blocks)
    && updated == p.updated
  }

  /** The state of the `for` loop of one pass, objects and their fields included. */
  ghost predicate Walking(p: Pass, objs: seq<Tile>, sorted: seq<Tile>, blocks: set<Tile>, updated: bool)
    reads objs
  {
    Carries(objs, p.tiles) && Tracks(p, objs, sorted, blocks, updated)
  }

  /** Moving a tile changes none of the loop variables but `updated`. */
  lemma TracksAdvance(d: Dir, p: Pass, id: nat, objs: seq<Tile>, sorted: seq<Tile>, blocks: set<Tile>, updated: bool)
    requires id < |p.tiles| && Tracks(p, objs, sorted, blocks, updated)
    ensures Tracks(Advance(d, p, id), objs, sorted, blocks, true)
  {
  }

  /** A merge pops the tile from `sorted_tiles` and adds its neighbour's object to `blocks`. */
  lemma TracksMerge(d: Dir, p: Pass, i: nat, n: nat, objs: seq<Tile>, sorted: seq<Tile>, blocks: set<Tile>, updated: bool)
    requires i < |p.live| && p.live[i] < |p.tiles| && n < |p.tiles| && n < |objs| && Distinct(objs)
    requires Tracks(p, objs, sorted, blocks, updated)
    ensures Tracks(Merge(d, p, i, n), objs, sorted[..i] + sorted[i + 1..], blocks + {objs[n]}, true)
  {
    var q := Merge(d, p, i, n);
    var popped := sorted[..i] + sorted[i + 1..];
    forall j | 0 <= j < |popped| ensures q.live[j] < |objs| && popped[j] == objs[q.live[j]] {
      if j >= i {
        assert popped[j] == sorted[j + 1] && q.live[j] == p.live[j + 1];
      }
    }
  }

  function TileKeys(d: Dir, tiles: seq<Tile>): (r: seq<(int, Tile)>)
    reads tiles
    ensures |r| == |tiles| && forall j :: 0 <= j < |tiles| ==> r[j] == (SortKey(d, tiles[j].State()), tiles[j])
  {
    seq(|tiles|, j reads tiles requires 0 <= j < |tiles| => (SortKey(d, tiles[j].State()), tiles[j]))
  }

  /** `sorted(tiles.values(), key=sort_func, reverse=reverse)` on the objects. */
  function SortedTiles(d: Dir, tiles: seq<Tile>): seq<Tile>
    reads tiles
  {
    Payloads(SortBy(Descending(d), TileKeys(d, tiles)))
  }

  /** Each object of `sorted_tiles` with the key its own row and column make. */
  function Located(tiles: seq<Tile>): (r: seq<(Cell, Tile)>)
    reads tiles
    ensures |r| == |tiles| && forall j :: 0 <= j < |tiles| ==> r[j] == (CellOf(tiles[j].State()), tiles[j])
  {
    seq(|tiles|, j reads tiles requires 0 <= j < |tiles| => (CellOf(tiles[j].State()), tiles[j]))
  }

  /**
   Sorting the objects gives the objects of the sorted numbers: `sorted`
   only looks at the keys, which the objects and their numbers share.
   */
  lemma SortedObjects(d: Dir, tiles: seq<TileState>, ids: seq<nat>, objs: seq<Tile>, vals: seq<Tile>)
    requires Carries(objs, tiles) && IdsIn(ids, |tiles|)
    requires |vals| == |ids| && forall j :: 0 <= j < |ids| ==> vals[j] == objs[ids[j]]
    ensures var live := SortTiles(d, tiles, ids);
      |SortedTiles(d, vals)| == |live| &&
      forall j :: 0 <= j < |live| ==> live[j] < |objs| && SortedTiles(d, vals)[j] == objs[live[j]]
  {
    var live := SortTiles(d, tiles, ids);
    SortedIdsIn(d, tiles, ids);
    if |objs| > 0 {
      var f := (id: nat) => if id < |objs| then objs[id] else objs[0];
      var keyed := Keyed(d, tiles, ids);
      forall j | 0 <= j < |ids| ensures TileKeys(d, vals)[j] == MapPayloads(keyed, f)[j] {
        assert vals[j].State() == tiles[ids[j]];
      }
      assert TileKeys(d, vals) == MapPayloads(keyed, f);
      SortByMap(Descending(d), keyed, f);
      var sk := SortBy(Descending(d), keyed);
      assert live == Payloads(sk);
      assert SortedTiles(d, vals) == Payloads(MapPayloads(sk, f));
    } else {
      assert ids == [];
    }
  }

  /** `tile.move(...)` on the object of number `id`: only that number's tile moves. */
  method MoveTile(d: Dir, tile: Tile, ghost tiles: seq<TileState>, ghost objs: seq<Tile>, ghost id: nat)
    requires Carries(objs, tiles) && id < |objs| && objs[id] == tile
    modifies tile
    ensures Carries(objs, tiles[id := Moved(tiles[id], Delta(d))])
  {
    tile.Move(Delta(d));
    assert forall o :: 0 <= o < |objs| && o != id ==> objs[o] != tile;
  }

  /** `next_tile.value *= 2` on the object of number `n`: only that number's value doubles. */
  method DoubleTile(next: Tile, ghost tiles: seq<TileState>, ghost objs: seq<Tile>, ghost n: nat)
    requires Carries(objs, tiles) && n < |objs| && objs[n] == next
    modifies next
    ensures Carries(objs, tiles[n := tiles[n].(value := tiles[n].value * 2)])
  {
    next.value := next.value * 2;
    assert forall o :: 0 <= o < |objs| && o != n ==> objs[o] != next;
  }

  /** `tile.set_pos(...)` on the object of number `id`: only that number's cell is recomputed. */
  method PlaceTile(d: Dir, tile: Tile, ghost tiles: seq<TileState>, ghost objs: seq<Tile>, ghost id: nat)
    requires Carries(objs, tiles) && id < |objs| && objs[id] == tile
    modifies tile
    ensures Carries(objs, tiles[id := SetPos(tiles[id], UsesCeil(d))])
  {
    tile.SetPos(UsesCeil(d));
    assert forall o :: 0 <= o < |objs| && o != id ==> objs[o] != tile;
  }

  /** `get_next_tile` looks up the object `Engine` finds under the same key. */
  ghost predicate Finds(cells: map<Cell, Tile>, grid: map<Cell, nat>, objs: seq<Tile>)
  {
    && (forall k :: k in cells <==> k in grid)
    && (forall k :: k in cells ==> grid[k] < |objs| && cells[k] == objs[grid[k]])
  }

  /** `tile.move(delta)`, then the `tile.set_pos(ceil)` and `updated = True` every step ends with. */
  method StepForward(d: Dir, tile: Tile, ghost p: Pass, ghost objs: seq<Tile>, ghost id: nat,
                     ghost sorted: seq<Tile>, ghost blocks: set<Tile>, updated0: bool)
    returns (updated: bool)
    requires Walking(p, objs, sorted, blocks, updated0) && id < |p.tiles| && objs[id] == tile
    modifies tile
    ensures Walking(Advance(d, p, id), objs, sorted, blocks, updated)
  {
    MoveTile(d, tile, p.tiles, objs, id);
    PlaceTile(d, tile, p.tiles[id := Moved(p.tiles[id], Delta(d))], objs, id);
    TracksAdvance(d, p, id, objs, sorted, blocks, updated0);
    updated := true;
  }

  /**
   The merge branch: `next_tile.value *= 2`, `sorted_tiles.pop(i)`,
   `blocks.add(next_tile)`, then `tile.set_pos(ceil)` and `updated = True`.
   */
  method MergeInto(d: Dir, i: nat, tile: Tile, next: Tile, ghost p: Pass, ghost objs: seq<Tile>, ghost n: nat,
                   sorted0: seq<Tile>, blocks0: set<Tile>, updated0: bool)
    returns (sorted: seq<Tile>, blocks: set<Tile>, updated: bool)
    requires Walking(p, objs, sorted0, blocks0, updated0)
    requires i < |sorted0| && i < |p.live| && p.live[i] < |p.tiles| && n < |p.tiles|
    requires objs[p.live[i]] == tile && objs[n] == next
    modifies tile, next
    ensures Walking(Merge(d, p, i, n), objs, sorted, blocks, updated)
    ensures |sorted| + 1 == |sorted0|
  {
    ghost var doubled := p.tiles[n := p.tiles[n].(value := p.tiles[n].value * 2)];
    DoubleTile(next, p.tiles, objs, n);
    PlaceTile(d, tile, doubled, objs, p.live[i]);
    TracksMerge(d, p, i, n, objs, sorted0, blocks0, updated0);
    sorted := sorted0[..i] + sorted0[i + 1..];
    blocks := blocks0 + {next};
    updated := true;
  }

  /**
   The body of `for i, tile in enumerate(sorted_tiles)` for index `i`: skip
   a tile at the boundary; step toward an empty cell; merge into an equal
   neighbour that is close enough and not in `blocks`, popping the tile
   from `sorted_tiles`; step while a blocking neighbour is more than a
   cell and a step ahead; otherwise stay.
   */
  method Visit(d: Dir, cells: map<Cell, Tile>, i: nat, sorted0: seq<Tile>, blocks0: set<Tile>, updated0: bool,
               ghost grid: map<Cell, nat>, ghost p: Pass, ghost objs: seq<Tile>)
    returns (sorted: seq<Tile>, blocks: set<Tile>, updated: bool)
    requires i < |sorted0| && IdsIn(p.live, |p.tiles|) && GridIn(grid, |p.tiles|) && Distinct(p.live)
    requires Walking(p, objs, sorted0, blocks0, updated0) && Finds(cells, grid, objs)
    modifies set t | t in objs
    ensures Walking(Step(d, grid, p, i), objs, sorted, blocks, updated)
    ensures |sorted| <= |sorted0| <= |sorted| + 1
  {
    sorted, blocks, updated := sorted0, blocks0, updated0;
    var tile := sorted[i];
    ghost var id := p.live[i];
    assert tile.State() == p.tiles[id] && (tile in blocks <==> id in p.blocks);
    if AtBoundary(d, tile.State()) {
      assert Step(d, grid, p, i) == p;
      return;
    }
    var target := NextCell(d, tile.State());
    if target !in cells {
      assert Step(d, grid, p, i) == Advance(d, p, id);
      updated := StepForward(d, tile, p, objs, id, sorted, blocks, updated);
      return;
    }
    var next := cells[target];
    ghost var n := grid[target];
    assert next.State() == p.tiles[n] && (next in blocks <==> n in p.blocks);
    if tile.value == next.value && tile !in blocks && next !in blocks {
      if MergeCheck(d, tile.State(), next.State()) {
        assert Step(d, grid, p, i) == Advance(d, p, id);
        updated := StepForward(d, tile, p, objs, id, sorted, blocks, updated);
      } else {
        assert Step(d, grid, p, i) == Merge(d, p, i, n);
        sorted, blocks, updated := MergeInto(d, i, tile, next, p, objs, n, sorted, blocks, updated);
      }
    } else if MoveCheck(d, tile.State(), next.State()) {
      assert Step(d, grid, p, i) == Advance(d, p, id);
      updated := StepForward(d, tile, p, objs, id, sorted, blocks, updated);
    } else {
      assert Step(d, grid, p, i) == p;
    }
  }

  /** The `for` loop of one pass; a pop makes it skip the tile after the popped one. */
  method Walk(d: Dir, cells: map<Cell, Tile>, sorted0: seq<Tile>, blocks0: set<Tile>,
              ghost grid: map<Cell, nat>, ghost p0: Pass, ghost objs: seq<Tile>)
    returns (sorted: seq<Tile>, blocks: set<Tile>, updated: bool)
    requires IdsIn(p0.live, |p0.tiles|) && GridIn(grid, |p0.tiles|) && Distinct(p0.live)
    requires Walking(p0, objs, sorted0, blocks0, false) && Finds(cells, grid, objs)
    modifies set t | t in objs
    ensures Walking(PassFrom(d, grid, p0, 0), objs, sorted, blocks, updated)
  {
    sorted, blocks, updated := sorted0, blocks0, false;
    ghost var p := p0;
    var i := 0;
    while i < |sorted|
      invariant i <= |sorted| + 1
      invariant IdsIn(p.live, |p.tiles|) && Distinct(p.live) && |p.tiles| == |p0.tiles|
      invariant Walking(p, objs, sorted, blocks, updated)
      invariant PassFrom(d, grid, p, i) == PassFrom(d, grid, p0, 0)
      decreases |sorted| + 1 - i
    {
      PassStep(d, grid, p, i);
      sorted, blocks, updated := Visit(d, cells, i, sorted, blocks, updated, grid, p, objs);
      p := Step(d, grid, p, i);
      i := i + 1;
    }
  }

  class Game {
    /** The keys of `tiles` in insertion order. */
    var keys: seq<Cell>
    /** The `tiles` dictionary, keyed by `(row, col)` in place of `f"{row}{col}"`. */
    var cells: map<Cell, Tile>

    /** What the dictionary holds, as values. */
    function Snapshot(): Board
      reads this, cells.Values
    {
      View(keys, cells)
    }

    /** Every tile is on the board and stored under the key its own row and column name. */
    ghost predicate Valid()
      reads this, cells.Values
    {
      BoardOk(Snapshot())
    }

    /** `tiles = generate_tiles()` at the start of `main`. */
    constructor (draws: seq<Cell>)
      requires Fair(draws)
      ensures Valid()
      ensures exists a, b :: a != b && InRange(a) && InRange(b) && Snapshot() == Initial(a, b)
    {
      var ks, cs := GenerateTiles(draws);
      keys, cells := ks, cs;
      InitialSpec(ks[0], ks[1]);
    }

    /** `tiles[key] = tile`: a new key goes last, an existing key keeps its place. */
    method Store(k: Cell, t: Tile)
      modifies this
      ensures keys == if k in old(cells) then old(keys) else old(keys) + [k]
      ensures cells == old(cells)[k := t]
    {
      if k !in cells {
        keys := keys + [k];
      }
      cells := cells[k := t];
    }

    /** `restart_game`: clear the dictionary and fill it with the tiles of `generate_tiles`. */
    method RestartGame(draws: seq<Cell>)
      requires Fair(draws)
      modifies this
      ensures Valid()
      ensures exists a, b :: a != b && InRange(a) && InRange(b) && Snapshot() == Initial(a, b)
    {
      keys, cells := [], map[];
      var ks, cs := GenerateTiles(draws);
      for j := 0 to |ks|
        invariant keys == ks[..j] && (forall k :: k in cells <==> k in ks[..j])
        invariant forall k :: k in cells ==> cells[k] == cs[k]
        modifies this
      {
        Store(ks[j], cs[ks[j]]);
      }
      assert keys == ks && cells == cs;
      assert Snapshot() == Initial(ks[0], ks[1]);
      InitialSpec(ks[0], ks[1]);
    }

    // ---------------------------------------------------------------- move_tiles

    /** Between passes: the dictionary, the tile objects and `blocks` are the move state `m`. */
    ghost predicate Mirrors(m: MoveState, objs: seq<Tile>, blocks: set<Tile>)
      reads this, objs
    {
      && keys == m.grid.keys
      && Finds(cells, m.grid.entries, objs)
      && Carries(objs, m.tiles)
      && BlocksAre(objs, blocks, m.blocks)
    }

    /** No tile object sits under two keys: each one's own cell names its key. */
    lemma ObjectsDistinct()
      requires Valid()
      ensures WellFormed(Dict(keys, cells)) && Distinct(Values(Dict(keys, cells)))
    {
      var objs := Values(Dict(keys, cells));
      forall i, j | 0 <= i < j < |objs| ensures objs[i] != objs[j] {
        ViewCell(keys, cells, keys[i]);
        ViewCell(keys, cells, keys[j]);
      }
    }

    /** The objects of the dictionary, in its order, hold the tiles `Engine.Start` numbers. */
    lemma ObjectsCarry()
      requires Valid()
      ensures WellFormed(Dict(keys, cells)) && Carries(Values(Dict(keys, cells)), Start(Snapshot()).tiles)
    {
      ObjectsDistinct();
      var objs := Values(Dict(keys, cells));
      var tiles := Start(Snapshot()).tiles;
      forall id | 0 <= id < |objs| ensures objs[id].State() == tiles[id] {
        assert keys[id] in cells;
      }
    }

    /** Looking a key up in the dictionary finds the object `Engine.Start` numbers for it. */
    lemma ObjectsFound()
      requires Valid()
      ensures WellFormed(Dict(keys, cells)) && Finds(cells, Start(Snapshot()).grid.entries, Values(Dict(keys, cells)))
    {
      var objs := Values(Dict(keys, cells));
      var grid := Start(Snapshot()).grid.entries;
      forall k | k in cells ensures grid[k] < |objs| && cells[k] == objs[grid[k]] {
        var j :| 0 <= j < |keys| && keys[j] == k;
      }
    }

    /** The objects of the dictionary, in its order, are the tiles `Engine.Start` numbers. */
    lemma StartMirrors()
      requires Valid()
      ensures WellFormed(Dict(keys, cells))
      ensures Mirrors(Start(Snapshot()), Values(Dict(keys, cells)), {})
      ensures forall t :: t in Values(Dict(keys, cells)) ==> t in cells.Values
    {
      ObjectsCarry();
      ObjectsFound();
    }

    /** When the dictionary mirrors a move state, it holds that state's tiles. */
    lemma FinalMirrors(m: MoveState, objs: seq<Tile>, blocks: set<Tile>)
      requires Inv(m) && Mirrors(m, objs, blocks)
      ensures Snapshot() == Final(m) && Valid()
    {
      assert Snapshot().entries == Final(m).entries;
    }

    /** `update_tiles`: clear the dictionary and store every tile of `sorted_tiles` under its own key. */
    method UpdateTiles(sorted: seq<Tile>)
      modifies this
      ensures Dict(keys, cells) == Build(Located(sorted))
    {
      keys, cells := [], map[];
      // each tile with the key its `row` and `col` make; storing changes no tile
      var located := Located(sorted);
      for j := 0 to |sorted|
        invariant Dict(keys, cells) == Build(located[..j])
      {
        BuildNext(located, j, keys, cells);
        Store(located[j].0, located[j].1);
      }
      assert located[..|sorted|] == located;
      assert Located(sorted) == located;
    }

    /** After `update_tiles` the dictionary mirrors the pass's tiles under `Engine.Rekey`. */
    lemma RekeyMirrors(p: Pass, objs: seq<Tile>, sorted: seq<Tile>, blocks: set<Tile>, updated: bool)
      requires IdsIn(p.live, |p.tiles|) && Walking(p, objs, sorted, blocks, updated)
      requires Dict(keys, cells) == Build(Located(sorted))
      ensures Mirrors(MoveState(p.tiles, Rekey(p.tiles, p.live), p.blocks), objs, blocks)
    {
      var ids, located := CellsOf(p.tiles, p.live), Located(sorted);
      BuildRelabel(ids, objs, located);
    }

    /** At the top of `while updated`: `sorted_tiles` holds the objects of the pass's sorted numbers. */
    lemma PassBegins(d: Dir, m: MoveState, objs: seq<Tile>, blocks: set<Tile>)
      requires Inv(m) && Mirrors(m, objs, blocks)
      ensures WellFormed(Dict(keys, cells))
      ensures Walking(StartPass(d, m), objs, SortedTiles(d, Values(Dict(keys, cells))), blocks, false)
    {
      InvValues(m);
      SortedObjects(d, m.tiles, Values(m.grid), objs, Values(Dict(keys, cells)));
    }

    /** After `update_tiles`: the dictionary mirrors the state `Engine.RunPass` gives, and `updated` is its flag. */
    lemma PassEnds(d: Dir, m: MoveState, objs: seq<Tile>, sorted: seq<Tile>, blocks: set<Tile>, updated: bool)
      requires Inv(m) && Walking(PassFrom(d, m.grid.entries, StartPass(d, m), 0), objs, sorted, blocks, updated)
      requires Dict(keys, cells) == Build(Located(sorted))
      ensures Mirrors(RunPass(d, m).0, objs, blocks) && updated == RunPass(d, m).1
    {
      RekeyMirrors(PassFrom(d, m.grid.entries, StartPass(d, m), 0), objs, sorted, blocks, updated);
    }

    /**
     One turn of `while updated`: sort the tiles, walk them, rebuild the
     dictionary from `sorted_tiles`; the result is the state and the flag of
     `Engine.RunPass`.
     */
    method Turn(d: Dir, blocks0: set<Tile>, ghost m: MoveState, ghost objs: seq<Tile>)
      returns (blocks: set<Tile>, updated: bool, ghost next: MoveState)
      requires Inv(m) && Mirrors(m, objs, blocks0)
      modifies this, set t | t in objs
      ensures next == RunPass(d, m).0 && updated == RunPass(d, m).1
      ensures Mirrors(next, objs, blocks)
    {
      var sorted := SortedTiles(d, Values(Dict(keys, cells)));
      PassBegins(d, m, objs, blocks0);
      sorted, blocks, updated := Walk(d, cells, sorted, blocks0, m.grid.entries, StartPass(d, m), objs);
      ghost var pass := PassFrom(d, m.grid.entries, StartPass(d, m), 0);
      assert Walking(pass, objs, sorted, blocks, updated);
      UpdateTiles(sorted);
      assert Tracks(pass, objs, sorted, blocks, updated) && Carries(objs, pass.tiles);
      PassEnds(d, m, objs, sorted, blocks, updated);
      next := RunPass(d, m).0;
    }

    /**
     The `while updated` loop of `move_tiles`: turn after turn, until a pass
     neither moves nor merges a tile; the state it ends in is `Engine.Settle`.
     */
    method SettleTiles(d: Dir, ghost m0: MoveState, ghost objs: seq<Tile>) returns (ghost m: MoveState, blocks: set<Tile>)
      requires Inv(m0) && Mirrors(m0, objs, {})
      modifies this, set t | t in objs
      ensures Inv(m) && Mirrors(m, objs, blocks) && m == Engine.Settle(d, m0)
    {
      m := m0;
      blocks := {};
      var updated := true;
      while updated
        invariant Inv(m) && Mirrors(m, objs, blocks)
        invariant updated ==> Engine.Settle(d, m) == Engine.Settle(d, m0)
        invariant !updated ==> m == Engine.Settle(d, m0)
        decreases if updated then Measure(d, m) + 1 else 0
      {
        SettleStep(d, m);
        blocks, updated, m := Turn(d, blocks, m, objs);
      }
    }

    /**
     `move_tiles` without `end_move`: the dictionary ends up holding what
     `Engine.Slide` computes from the board the move started with.
     */
    method Slide(d: Dir)
      requires Valid()
      modifies this, cells.Values
      ensures Valid()
      ensures Snapshot() == Engine.Slide(d, old(Snapshot()))
    {
      ghost var objs := Values(Dict(keys, cells));
      StartMirrors();
      ghost var m, blocks := SettleTiles(d, Start(Snapshot()), objs);
      FinalMirrors(m, objs, blocks);
    }

    /**
     `end_move`: with sixteen tiles the game restarts; otherwise a tile of
     value `choice` goes on the first drawn empty cell and nothing else
     changes.
     */
    method EndMove(draws: seq<Cell>, choice: int) returns (restarted: bool)
      requires Valid() && Fair(draws) && (choice == 2 || choice == 4)
      modifies this
      ensures Valid()
      ensures restarted <==> Size(old(Snapshot())) == FullCount
      ensures restarted ==> exists a, b :: a != b && InRange(a) && InRange(b) && Snapshot() == Initial(a, b)
      ensures !restarted ==> exists c :: InRange(c) && c !in old(cells) && Snapshot() == Spawn(old(Snapshot()), c, choice)
    {
      if |keys| == FullCount {
        RestartGame(draws);
        return true;
      }
      FreeCell(Snapshot());
      ghost var free :| InRange(free) && free !in cells;
      var c, _ := GetRandomPos(cells, draws, 0);
      var tile := new Tile(choice, c.row, c.col);
      ghost var before := Snapshot();
      ViewPut(keys, cells, c, tile);
      Store(c, tile);
      assert Snapshot() == Spawn(before, c, choice);
      SpawnSpec(before, c, choice);
      return false;
    }

    /**
     `move_tiles`: slide every tile in direction `d` until nothing moves,
     then `end_move`. The board after the slide is `Engine.Slide` of the
     board before; a full board restarts the game, otherwise one tile of
     value `choice` appears on an empty cell.
     */
    method MoveTiles(d: Dir, draws: seq<Cell>, choice: int) returns (restarted: bool)
      requires Valid() && Fair(draws) && (choice == 2 || choice == 4)
      modifies this, cells.Values
      ensures Valid()
      ensures var slid := Engine.Slide(d, old(Snapshot()));
        && (restarted <==> Size(slid) == FullCount)
        && (restarted ==> exists a, b :: a != b && InRange(a) && InRange(b) && Snapshot() == Initial(a, b))
        && (!restarted ==> exists c :: InRange(c) && c !in slid.entries && Snapshot() == Spawn(slid, c, choice))
    {
      Slide(d);
      restarted := EndMove(draws, choice);
    }
  }
}
