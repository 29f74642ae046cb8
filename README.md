# 2048: the sliding-and-merging engine, in Dafny

This project models the game logic of `2048/game2048.py`: the `Tile` object,
the `tiles` dictionary that maps a cell to the tile standing on it, one move
(`move_tiles`: sort, walk, step or merge, rebuild the dictionary, repeat
while anything changed), and what follows a move (`end_move`: restart on a
full board, otherwise spawn one tile). It proves what each operation does to
the tiles and the dictionary.

The model has two layers.

- **Values** (`geometry.dfy`, `collections.dfy`, `engine.dfy`, `spawn.dfy`).
  - `Geometry` holds the screen constants, a tile's five fields as a
    `TileState`, the two roundings of `set_pos`, and the per-direction
    helpers chosen at the top of `move_tiles` (sort key and order, delta,
    boundary test, neighbour key, `merge_check`, `move_check`).
  - `Dicts` is an insertion-ordered dictionary. Python's `dict` keeps
    insertion order, and `sorted(tiles.values())` is stable, so the order
    matters.
  - `Sorting` is a stable insertion sort standing for `sorted(key=…,
    reverse=…)`.
  - `Engine` is one move on values. Every tile that exists when the move
    starts gets an identity (its position in `tiles.values()`). The
    dictionary maps cells to identities, so the model keeps two behaviours of
    the source:
    - a lookup during a pass sees the keys from the start of the pass;
    - a tile merged away can still be found until `update_tiles` runs.
    `sorted_tiles.pop(i)` inside `enumerate` skips the next tile, and the
    model does the same (`PassFrom`).
  - `Spawning` covers the two outcomes of `end_move`, on values.
- **Objects** (`game.dfy`). This layer is imperative.
  - `Tile` is a class with the fields `value`, `row`, `col`, `x` and `y`.
  - `Game` is a class whose `keys`/`cells` fields are the `tiles`
    dictionary. Its methods change the dictionary and the tile objects in
    place, and each one is proved against the value layer. A ghost sequence
    numbers the tile objects of a move the way `Engine` numbers its
    identities.
  - `Game.Slide` ends in exactly the board `Engine.Slide` computes.

`lost_tile.dfy` is a concrete move the engine gets wrong. The row 8, 2, 2
slides left and ends with a total of at most 10 instead of 12
(`LostTile.SlideLosesValue`). This is why `Engine.Slide` promises only that
the total does not grow. `Engine.SlideKeeps` proves that a move keeps the
total, and removes exactly one tile per merge, whenever no pass loses a
value in one of the two ways the code allows (see "## Findings").

Randomness is a parameter:
- the cells `random.randrange` would draw are a stream `draws`;
- the value of `random.choice([2, 4])` is an argument `choice`.

The methods that draw require the stream to be `Fair` (every cell turns up).
Without this, `get_random_pos` never returns.

The dictionary key `f"{row}{col}"` is modelled as `Cell(row, col)`. On a
4×4 board the string is unambiguous, so the two keys identify the same
cells.

Two behaviours of the code differ from the usual 2048 rules, and the model
follows the code:
- in the usual rules a move that changes nothing adds no tile. This code
  calls `end_move` after every move (line 198), full-board test included,
  and `Game.MoveTiles` does the same;
- in the usual rules a move keeps the sum of the values. `update_tiles` can
  overwrite a tile, so `Engine.Slide` states only `<=` (see
  `LostTile.SlideLosesValue`).

## Model

| member | source | states |
|---|---|---|
| Geometry.CellSizes | 2048/game2048.py:22-35 | `RECT_HEIGHT` and `RECT_WIDTH` are 200, the board divided by 4, and both are whole multiples of `MOVE_VEL` = 20 |
| Geometry.NewTile | 2048/game2048.py:56-61 | a new tile has the given value and cell, and it is at rest: `x == col * 200` and `y == row * 200` |
| Geometry.CeilDiv | 2048/game2048.py:82-83 | `math.ceil(a / b)` on integers: the result `q` satisfies `b*(q-1) < a <= b*q` |
| Geometry.SetPosAtRest | 2048/game2048.py:80-86 | `set_pos` on a tile at rest leaves row and column unchanged, with either rounding |
| Geometry.SetPosOnBoard | 2048/game2048.py:80-86 | `set_pos` keeps a tile on the board (a power of two, position on the 20-pixel grid, row and column less than a cell from the position) and changes neither value nor position |
| Geometry.HelpersUniform | 2048/game2048.py:129-167 | the four sets of direction helpers say one thing. The boundary test is "zero cells from the edge". `merge_check` is "more than one step further from the edge than the neighbour". `move_check` is "more than a cell plus a step further". The neighbour key is the next cell toward the edge on the same line |
| Geometry.StepTowardEdge | 2048/game2048.py:88-90 | `move` by the direction's delta brings the tile exactly `MOVE_VEL` closer to the edge. It does not change the coordinate across the motion, the value, the row or the column |
| Geometry.CheckClearance | 2048/game2048.py:181-192 | a step allowed by `merge_check` leaves the tile short of its equal neighbour. A step allowed by `move_check` leaves more than a cell between the tile and a blocking neighbour |
| Geometry.AdvanceOnBoard | 2048/game2048.py:174-194 | a tile that fails the boundary test stays on the board after `move` and `set_pos`, and its distance to the edge drops by exactly `MOVE_VEL`, not below 0 |
| Geometry.DoubleOnBoard | 2048/game2048.py:185 | doubling a tile's value keeps it a power of two on the board |
| Geometry.NewTileOnBoard | 2048/game2048.py:237 | a new tile of value 2 or 4 on an in-range cell is on the board |
| Dicts.Put | 2048/game2048.py:237 | `tiles[key] = tile`: the entry is replaced or added. A new key goes last; an existing key keeps its place |
| Dicts.PutValues | 2048/game2048.py:237 | `tiles.values()` follows insertion order: storing under a new key appends the value, and storing under an existing key replaces that key's value in its place |
| Dicts.BuildEntries | 2048/game2048.py:248-251 | after `clear` and a series of stores, every key written is present and holds a value written under it |
| Dicts.LastWins | 2048/game2048.py:248-251 | after `clear` and a series of stores, a key holds the last value written under it |
| Dicts.BuildDistinct | 2048/game2048.py:248-251 | when no key is written twice, the dictionary holds exactly the pairs, in the order written |
| Sorting.SortByOrderedStable | 2048/game2048.py:172 | `sorted` puts the keys in order (descending with `reverse=True`) and keeps the input order among equal keys |
| Sorting.SortByPayloads | 2048/game2048.py:172 | `sorted` rearranges the tiles without losing or adding any |
| Sorting.SortByMap | 2048/game2048.py:172 | sorting looks only at the keys, so it gives the same order whether it carries identities or the tile objects |
| Engine.SortTilesSpec | 2048/game2048.py:172 | `sorted_tiles` is a permutation of the dictionary's tiles, in the direction's sort order, with tiles of equal key in dictionary order |
| Engine.StepMoves | 2048/game2048.py:174-194 | a visit to a tile that passes the boundary test changes nothing. Otherwise the visited tile stays put or moves by exactly the direction's delta, and no other tile moves |
| Engine.StepValues | 2048/game2048.py:178-194 | a visit changes a value only in a merge of two equal tiles, neither of them in `blocks`. The neighbour's value doubles, the neighbour joins `blocks`, the visited tile leaves `sorted_tiles`, and `blocks` only grows |
| Engine.MergeCounts | 2048/game2048.py:184-187 | a merge pops exactly the visited tile from `sorted_tiles`, adds one tile to `blocks` and moves no tile |
| Engine.MergeValues | 2048/game2048.py:185 | `next_tile.value *= 2` doubles the neighbour and changes no other value |
| Engine.MergeTotal | 2048/game2048.py:181-187 | a merge keeps the sum of the live values when the neighbour is still in `sorted_tiles`. When the neighbour has already been popped, the visited tile's value is lost |
| Engine.StepFollows | 2048/game2048.py:174-194 | a visit only drops tiles from `sorted_tiles` and adds as many to `blocks`. It moves no tile away from the edge, keeps every tile on the board and does not raise the live total. It sets `updated` only when a tile came closer to the edge or left `sorted_tiles` |
| Engine.PassFrom | 2048/game2048.py:174-194 | the `for` loop from index `i` on, with the skip that a pop causes, satisfies everything `StepFollows` says, over the whole loop |
| Engine.PassStep | 2048/game2048.py:174-194 | one iteration of the `for` loop: the loop from `i` is the loop from `i + 1` after that visit, and `sorted_tiles` keeps distinct tiles and does not grow |
| Engine.PassKeepsBlocked | 2048/game2048.py:181-187 | a tile in `blocks` keeps its value for the rest of the pass: it takes part in no further merge |
| Engine.RunPassKeepsBlocked | 2048/game2048.py:169-196 | a tile in `blocks` at the start of a pass keeps its value through the pass |
| Engine.SettleKeepsBlocked | 2048/game2048.py:127-196 | `blocks` lasts for the whole call of `move_tiles`: a tile merged into keeps its value until the move ends |
| Engine.RekeySpec | 2048/game2048.py:248-251 | after `update_tiles` every entry is a tile of `sorted_tiles`, stored under the cell its own row and column name. Every tile of `sorted_tiles` has its cell as a key, and that key holds the last tile of `sorted_tiles` naming the cell. When no two of them share a cell, the dictionary holds exactly `sorted_tiles`, in order |
| Engine.RekeyLast | 2048/game2048.py:248-251 | of the tiles of `sorted_tiles` that name one cell, `update_tiles` keeps the last one under that cell's key |
| Engine.RekeyTotal | 2048/game2048.py:248-251 | `update_tiles` never raises the total, and it keeps the total when no two tiles of `sorted_tiles` name the same cell |
| Engine.RekeyAlive | 2048/game2048.py:248-251 | the tiles left in the dictionary are among those of `sorted_tiles`, and are all of them when no two share a cell |
| Engine.StartPass | 2048/game2048.py:171-172 | a pass starts with `updated = False`, the tiles and `blocks` as the previous pass left them, and a `sorted_tiles` that holds each tile of the dictionary exactly once |
| Engine.RunPass | 2048/game2048.py:169-196 | one iteration of `while updated` keeps the dictionary consistent: every tile is under its own cell and on the board. `blocks` only grows, the number of tiles plus `blocks` does not grow, and the total does not grow |
| Engine.RunPassProgress | 2048/game2048.py:169-196 | a pass that sets `updated` strictly lowers the sum over live tiles of (distance to the edge + 1), so `while updated` ends |
| Engine.Settle | 2048/game2048.py:169-196 | the whole `while updated` loop ends, in a consistent dictionary with no more tiles and no larger total than it started with |
| Engine.SettleStep | 2048/game2048.py:169-196 | one turn of `while updated`: after a pass that set `updated`, the loop goes on from that pass's state; otherwise it stops there |
| Engine.Start | 2048/game2048.py:125-127 | the move starts with the tiles of the dictionary in order, numbered by position, and with `blocks` empty |
| Engine.Final | 2048/game2048.py:196 | the dictionary after the last `update_tiles` holds, under every key, the tile of that key's identity, and it is consistent |
| Engine.StartTotal | 2048/game2048.py:125-172 | numbering the tiles at the start of a move keeps the sum of their values |
| Engine.FinalTotal | 2048/game2048.py:196 | reading the dictionary back as tiles keeps the sum of their values |
| Engine.Slide | 2048/game2048.py:125-196 | a move, up to `end_move`, leaves a consistent board with no more tiles and no larger total than before |
| Engine.StepTotal | 2048/game2048.py:174-194 | a visit keeps the sum of the values in `sorted_tiles`, unless it merges into a tile that was already popped or into itself |
| Engine.PassTotal | 2048/game2048.py:174-194 | a `for` loop none of whose visits merges into a popped tile keeps the sum of the values in `sorted_tiles` |
| Engine.RunPassKeeps | 2048/game2048.py:169-196 | a pass that merges into no popped tile, and whose `update_tiles` sees no two tiles naming one cell, keeps the total and the number of tiles plus `blocks` |
| Engine.SettleKeeps | 2048/game2048.py:169-196 | a `while updated` loop whose every pass is such a pass keeps the total and the number of tiles plus `blocks` |
| Engine.SlideKeeps | 2048/game2048.py:125-196 | a move none of whose passes loses a value keeps the sum of the values and removes exactly one tile per merge, where the tiles merged into are those `blocks` collects |
| Spawning.AllCellsSpec | 2048/game2048.py:117-118 | the cells `randrange(0, ROWS)` and `randrange(0, COLS)` can give are exactly the 16 in-range cells, each once |
| Spawning.FullIffSixteen | 2048/game2048.py:205 | the dictionary holds at most 16 tiles. `len(tiles) == 16` holds exactly when every cell of the board has a tile |
| Spawning.FreeCell | 2048/game2048.py:205-236 | a dictionary that fails `len(tiles) == 16` has an empty in-range cell, so `get_random_pos` can return |
| Spawning.SpawnSpec | 2048/game2048.py:236-237 | a new tile of value 2 or 4 on an empty cell adds exactly one tile and its value, at rest under its own cell. It goes last in the dictionary and leaves every other tile as it was |
| Spawning.InitialSpec | 2048/game2048.py:255-261 | the two tiles `generate_tiles` places on distinct in-range cells form a consistent board of two tiles of value 2, at rest, totalling 4 |
| Game.Tile.constructor | 2048/game2048.py:56-61 | `Tile.__init__` sets the fields to the value and cell given, at rest |
| Game.Tile.SetPos | 2048/game2048.py:80-86 | `set_pos` recomputes row and column from the position with `ceil` or `floor`, and nothing else |
| Game.Tile.Move | 2048/game2048.py:88-90 | `move` shifts `x` and `y` by the delta and changes only those fields |
| Game.ViewPut | 2048/game2048.py:237 | storing a tile object under a key stores its fields, as `Dicts.Put` does on values |
| Game.GetRandomPos | 2048/game2048.py:113-123 | `get_random_pos` returns the first drawn cell that is not a key. It is in range and every earlier draw was taken |
| Game.GenerateTiles | 2048/game2048.py:255-261 | `generate_tiles` returns a fresh dictionary of two fresh tiles of value 2, on two distinct in-range cells: the first draw, then the next draw that differs from it, in that order |
| Game.SortedObjects | 2048/game2048.py:172 | sorting the tile objects gives the objects of the sorted identities |
| Game.TracksMerge | 2048/game2048.py:186-187 | `sorted_tiles.pop(i)` and `blocks.add(next_tile)` on the objects match the merge on identities |
| Game.MoveTile | 2048/game2048.py:180 | `tile.move(delta)` changes the state of that tile object only |
| Game.DoubleTile | 2048/game2048.py:185 | `next_tile.value *= 2` doubles that object's value only |
| Game.PlaceTile | 2048/game2048.py:193 | `tile.set_pos(ceil)` recomputes that object's cell only |
| Game.StepForward | 2048/game2048.py:180-194 | a step of a tile object (`move`, `set_pos`, `updated = True`) is `Engine.Advance` on the objects' states |
| Game.MergeInto | 2048/game2048.py:184-194 | the merge branch on objects is `Engine.Merge` on the objects' states, and `sorted_tiles` loses one tile |
| Game.Visit | 2048/game2048.py:174-194 | the body of the `for` loop on objects is `Engine.Step` on their states. `sorted_tiles` loses at most one tile |
| Game.Walk | 2048/game2048.py:174-194 | the `for` loop on objects, popping included, ends where `Engine.PassFrom` ends |
| Game.Game.constructor | 2048/game2048.py:267 | `tiles = generate_tiles()` gives a consistent board of two tiles of value 2 on distinct in-range cells |
| Game.Game.Store | 2048/game2048.py:251 | `tiles[key] = tile` on the dictionary object: a new key goes last, an existing key keeps its place |
| Game.Game.RestartGame | 2048/game2048.py:240-245 | `restart_game` clears the dictionary and refills it with the two tiles of `generate_tiles` |
| Game.Game.UpdateTiles | 2048/game2048.py:248-251 | `update_tiles` clears the dictionary and stores each tile of `sorted_tiles` under the cell its own fields name, in order |
| Game.Game.Turn | 2048/game2048.py:169-196 | one iteration of `while updated` on the objects gives the state and the `updated` flag of `Engine.RunPass` |
| Game.Game.SettleTiles | 2048/game2048.py:169-196 | the `while updated` loop on the objects ends in the state `Engine.Settle` computes |
| Game.Game.Slide | 2048/game2048.py:125-196 | after the slide the dictionary holds exactly `Engine.Slide` of the board before, and it is consistent |
| Game.Game.EndMove | 2048/game2048.py:204-238 | `end_move` restarts exactly when there are 16 tiles, leaving two tiles of value 2 on distinct in-range cells. Otherwise it adds one tile of value `choice` on an empty in-range cell and changes nothing else |
| Game.Game.MoveTiles | 2048/game2048.py:125-202 | a move slides the board to `Engine.Slide` of the board before, then runs `end_move` on the result, whether or not anything moved |
| LostTile.CollisionRekey | 2048/game2048.py:248-251 | with two 2s whose fields both name column 2, `update_tiles` keeps only the one stored later |
| LostTile.SlideLosesValue | 2048/game2048.py:169-196 | moving left from the row 8, 2, 2 (columns 1-3), whose total is 12, ends with a total of at most 10: the move loses a tile |
| LostTile.BeforeNotClean | 2048/game2048.py:248-251 | that move has a pass that loses a value, so it does not meet the hypothesis of `Engine.SlideKeeps` |

## Findings

| source | as written | input that shows it | evidently intended | confidence | as-written member | corrected member |
|---|---|---|---|---|---|---|
| 2048/game2048.py:248-251 | `update_tiles` stores every tile of `sorted_tiles` under the cell its own row and column name. Two tiles naming one cell leave only the later one, so a tile and its value disappear | row 0 holds 8, 2, 2 in columns 1-3 and the player moves left. In the tenth pass the first 2 reaches x = 220 and the second x = 400, both column 2 | a move keeps the sum of the values and removes exactly one tile per merge | proved for the model; not executed | LostTile.SlideLosesValue | Engine.SlideKeeps |

The rest of the model keeps the move engine as written, so that
`Game.Game.Slide` ends in the board the code produces. `Engine.SlideKeeps`
states the intended behaviour for every move whose passes lose no value. A
pass loses no value when no visit merges into a tile already popped from
`sorted_tiles` and `update_tiles` sees no two tiles naming one cell.
`LostTile.BeforeNotClean` shows that the 8, 2, 2 move is not such a move.

## Left out

- Engine.Slide: does not promise that the sum of the values is kept, or that the tile count drops by exactly one per merge. `update_tiles` (lines 248-251) stores two tiles that name the same cell under one key, and one of them disappears. `LostTile.SlideLosesValue` exhibits a move where this happens. `Engine.SlideKeeps` states both promises for the moves in which it does not happen.
- Engine.RunPass: states only that the number of tiles plus `blocks` does not grow, not that it is kept, for the same reason. `Engine.RunPassKeeps` states that it is kept for a pass that loses no value.
- Drawing: `Tile.draw`, `get_color`, `draw_grid`, `draw`, and the fonts and blits of the game-over message in `end_move` (lines 207-220). The `draw` calls in `update_tiles` and `restart_game` are left out too. They produce output only.
- Timing and input: `clock.tick` inside `while updated`, and `main`, except line 267 (`tiles = generate_tiles()`), which `Game.Game.constructor` models.
- The escape-key wait in `end_move` (lines 223-231): the restart happens at once.
- The `install`/`subprocess` bootstrap at the top of the file: it is process I/O.
- The `print` after a restart in `move_tiles` (line 202): output only. `Game.Game.MoveTiles` returns whether the game restarted.
- Randomness: the draws of `random.randrange` are a stream parameter, and `random.choice([2, 4])` is a parameter. The methods that draw require a stream in which every cell turns up; a real random source gives such a stream with probability 1.
- Game positions stay on the board and move in 20-pixel steps. The model does not prove that every tile is back at rest (on a cell corner) when a move ends.
- Mid-move frames: the intermediate positions the source draws after each pass are states of the model, but nothing about their display is modelled.
- `pdf_scrape.py` is not part of this model. It is a Tkinter and PyPDF2 tool unrelated to the game.
