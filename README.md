# 2048 engine model

A Dafny model of the game logic of the 2048 clone in `2048_mirror.py`: the
line transforms `slide` and `merge`, the direction constants and offsets,
and the `TwentyFortyEight` class, which keeps a `height × width` grid of
integers (0 is an empty cell), moves it in one of four directions,
spawns a 2 or a 4 in an empty cell after a move that it judges to have
changed something, and reads and writes single cells.

The model has three modules:

- `Lines` (`lines.dfy`) covers one line.
  - `Slide`, `Pass` and `Merge` are the specification functions.
  - `SlideLine`, `PairLine` and `MergeLine` are the source's loops, each proved equal to its function.
  - The lemmas give what a merge promises: order kept, sum kept, each tile merged at most once, tiles stay powers of two, and a changed line always has an empty cell.
  - `FirstIndex`/`IndexOf` model Python's `list.index`.
  - `CheckChanged` is `move`'s change check as written. `CheckMoved` is the positional check it evidently means.
- `Geometry` (`geometry.dfy`) covers the directions and `OFFSETS`.
  - It gives the start-tile table `_initial_tiles` and the cell at step `j` of line `k`.
  - The lemmas show that the lines of a move visit every cell exactly once.
- `Game` (`game.dfy`) covers the whole grid.
  - `MoveGrid` gives the grid as a value after every line is merged. The value-based flag of the source and the positional flag sit beside it.
  - The class `TwentyFortyEight` keeps the grid in an `array2<int>`. `Move` reads, merges and writes each line in place and is proved against `MoveGrid`.

Two facts about the code that the model states as they are:

- `merge` is not idempotent: `[2,2,2,2]` merges to `[4,4,0,0]`, which merges to `[8,0,0,0]` (`Lines.MergeNotIdempotent`).
- `move`'s change check compares by value lookup, not position by position. It is modelled as written (see Findings).

Randomness in `new_tile` becomes a nondeterministic choice (`:|`) of an empty cell and of a value in {2, 4}.

## Model

| member | source | states |
|---|---|---|
| Lines.NonZeros | 2048_mirror.py:28-31 | the values `slide` keeps are non-zero entries of the line, and there are no more of them than cells |
| Lines.Slide | 2048_mirror.py:21-32 | `slide` returns a line of the same length as its input |
| Lines.SlideLine | 2048_mirror.py:21-32 | the loop with `slide_index` computes exactly `Slide`: the non-zero values in order, then zeros |
| Lines.SlideKeepsOrder | 2048_mirror.py:21-32 | sliding keeps the non-zero values in their original order and leaves every zero behind every non-zero |
| Lines.SlideOfCompact | 2048_mirror.py:21-32 | a line whose zeros are already at the back is left unchanged by `slide` |
| Lines.SlideUnique | 2048_mirror.py:21-32 | the only compact line of the same length with the same non-zero values is the slide of the input |
| Lines.SlideIdempotent | 2048_mirror.py:21-32 | sliding twice is sliding once |
| Lines.SlideSum | 2048_mirror.py:21-32 | sliding keeps the sum of the line |
| Lines.Pass | 2048_mirror.py:44-56 | the pairing pass keeps the length of the line |
| Lines.PairLine | 2048_mirror.py:44-56 | the `while index < len(slid_line)` loop over `copy_list` computes exactly `Pass` of the slid line |
| Lines.Merge | 2048_mirror.py:35-58 | `merge` returns a line of the same length |
| Lines.MergeLine | 2048_mirror.py:35-58 | slide, pairing loop, slide again computes exactly `Merge` |
| Lines.PassSum | 2048_mirror.py:44-56 | the pairing pass keeps the sum (2n + 0 replaces n + n) |
| Lines.PassMergesPairs | 2048_mirror.py:41-56 | on a slid line the pass agrees with the greedy front-to-back pairing `MergedFrom`: every equal pair met from the front becomes its sum, and an entry is kept only when its right neighbour differs |
| Lines.MergedFromUnique | 2048_mirror.py:41-56 | the greedy pairing admits exactly one result per line, so `MergedFrom` is a reference definition of the pass, not a family of outcomes |
| Lines.MergedFromSum | 2048_mirror.py:35-58 | combining disjoint equal pairs keeps the sum |
| Lines.MergedFromLength | 2048_mirror.py:35-58 | combining pairs never adds tiles, and when no tile was lost nothing was combined |
| Lines.MergedFromTiles | 2048_mirror.py:35-58 | combining equal powers of two yields powers of two |
| Lines.MergePairsOnce | 2048_mirror.py:35-58 | the non-zero values of `merge(line)` are the greedy front-to-back pairing of those of `line`: every pair `[n,n]` met becomes `2n`, and each tile merges at most once per call |
| Lines.MergeSum | 2048_mirror.py:35-58 | `merge` keeps the sum of the line |
| Lines.MergeCount | 2048_mirror.py:35-58 | `merge` never increases the number of occupied cells |
| Lines.MergeCompact | 2048_mirror.py:35-58 | after `merge`, every zero is behind every non-zero |
| Lines.MergeTiles | 2048_mirror.py:35-58 | a line of zeros and powers of two merges to such a line |
| Lines.MergeChangeLeavesGap | 2048_mirror.py:35-58 | a merge that changes a line leaves at least one empty cell in it |
| Lines.MergeExamples | 2048_mirror.py:21-58 | `slide([0,2,0,4]) = [2,4,0,0]`, `merge([2,2,2,2]) = [4,4,0,0]`, `merge([2,2,4,4]) = [4,8,0,0]` |
| Lines.MergeGapExamples | 2048_mirror.py:35-58 | `merge([2,0,2,0]) = [4,0,0,0]`, `merge([4,0,0,4]) = [8,0,0,0]`, `merge([0,2,0,2]) = [4,0,0,0]`, an empty line stays empty |
| Lines.MergeNotIdempotent | 2048_mirror.py:35-58 | `merge` is not idempotent: merging `[2,2,2,2]` twice gives `[8,0,0,0]`, not `[4,4,0,0]` |
| Lines.FirstIndex | 2048_mirror.py:122 | `list.index(x)`: a position holding `x` with no earlier position holding it |
| Lines.IndexOf | 2048_mirror.py:122 | the linear search returns exactly `FirstIndex` |
| Lines.ValueChanged | 2048_mirror.py:123-125 | the value-based check on one line: some merged value differs from the original value at that value's first position in the merged line |
| Lines.CheckChanged | 2048_mirror.py:123-125 | the loop over `merged_holding_list` sets the flag exactly when some merged value differs from the original value at that value's first position in the merged line |
| Lines.ValueChangedSound | 2048_mirror.py:123-125 | the value-based check never fires on a line that the merge left unchanged |
| Lines.MergeJoinsAcrossGap | 2048_mirror.py:35-58 | `merge([4,2,0,2]) = [4,4,0,0]`: the 2 behind the gap joins the other 2 |
| Lines.ValueChangeMissed | 2048_mirror.py:123-125 | `merge([4,2,0,2]) = [4,4,0,0]` changes the line, yet the value-based check does not fire |
| Lines.CheckMoved | 2048_mirror.py:123-125 | the corrected check fires exactly when the line differs from its merge |
| Geometry.Direction | 2048_mirror.py:9-12 | the four directions `UP`, `DOWN`, `LEFT`, `RIGHT` |
| Geometry.Offset | 2048_mirror.py:16-19 | each direction's offset is a unit step along exactly one axis: along columns (row step ±1) for UP/DOWN, along rows for LEFT/RIGHT |
| Geometry.LinesCoverGrid | 2048_mirror.py:109-115 | the number of lines times `moves_dict[direction]` is the number of cells |
| Geometry.StartTileOnEdge | 2048_mirror.py:71-74 | every start tile lies inside the grid, and one step against the direction's offset leaves the grid: it is on the edge the tiles move toward |
| Geometry.StartTableShape | 2048_mirror.py:71-74 | `_initial_tiles` has exactly the four directions as keys, with `width` start tiles for UP/DOWN and `height` for LEFT/RIGHT |
| Geometry.StartTiles | 2048_mirror.py:71-74 | each direction's start-tile list has one entry per line: `width` for UP/DOWN, `height` for LEFT/RIGHT |
| Geometry.Coord | 2048_mirror.py:116-117 | start tile plus `step × OFFSETS[direction]` always lies inside the grid |
| Geometry.Locate | 2048_mirror.py:112-117 | every cell is reached by some line at some step of a move |
| Geometry.LocateCoord | 2048_mirror.py:112-117 | `Locate` inverts `Coord` |
| Geometry.CoordInjective | 2048_mirror.py:112-117 | no two (line, step) pairs name the same cell, so together the lines visit every cell exactly once |
| Geometry.CoordFromEdge | 2048_mirror.py:16-19 | step 0 lies on the edge the tiles move toward: UP walks a column from row 0 down, DOWN from the last row up, LEFT a row from column 0, RIGHT from the last column |
| Game.LineValues | 2048_mirror.py:112-119 | the `holding_list` of a line has `moves_dict[direction]` entries |
| Game.LineFlag | 2048_mirror.py:123-125 | the value-based check on line `k` of a move |
| Game.ValueFlag | 2048_mirror.py:110-125 | `changed` after the loop over lines: some line fails the value-based check |
| Game.MoveGrid | 2048_mirror.py:103-122 | the moved grid keeps the grid's shape |
| Game.MoveMergesLines | 2048_mirror.py:112-122 | after a move, every line holds the merge of its old values, in the same order |
| Game.FlagBeforeNext | 2048_mirror.py:110-125 | the flag after line n+1 is the flag after line n or the check on line n |
| Game.PositionalFlagExact | 2048_mirror.py:103-107 | the corrected flag is set exactly when the move changes the grid |
| Game.ValueFlagSound | 2048_mirror.py:123-125 | the flag as written is set only when the move changes the grid |
| Game.ValueFlagMissesChange | 2048_mirror.py:123-127 | in a 4-wide grid whose row r is `[4,2,0,2]` and whose other rows are empty, moving LEFT changes the grid, but the flag stays clear and no tile spawns |
| Game.MoveLeavesRoom | 2048_mirror.py:126-141 | a move that changes the grid leaves an empty cell, so `new_tile` can place its tile |
| Game.MoveKeepsTiles | 2048_mirror.py:103-122 | a move keeps every cell 0 or a power of two |
| Game.SpawnKeepsTiles | 2048_mirror.py:129-141 | spawning keeps every cell 0 or a power of two |
| Game.SpawnOnceLeavesRoom | 2048_mirror.py:81-83 | after the first `new_tile` on an empty grid with at least two cells, an empty cell remains |
| Game.SpawnTwice | 2048_mirror.py:81-83 | two spawns on an empty grid leave exactly two tiles, each 2 or 4 |
| Game.LeftLine | 2048_mirror.py:71-74 | line r of a LEFT move is row r, read left to right |
| Game.UpLine | 2048_mirror.py:71-74 | line c of an UP move is column c, read top to bottom |
| Game.MoveLeftRows | 2048_mirror.py:103-122 | a LEFT move merges each row on its own |
| Game.ScenarioRowLeft | 2048_mirror.py:103-127 | in a 4-wide grid with row r `[2,2,2,2]` and the other rows empty, LEFT turns row r into `[4,4,0,0]`, keeps the other rows, and sets the flag that spawns a tile |
| Game.ScenarioColumnUp | 2048_mirror.py:103-122 | in a 4-high grid, a column `[0,2,0,2]` moved UP becomes `[4,0,0,0]` |
| Game.TwentyFortyEight.constructor | 2048_mirror.py:65-74 | a new game has the given dimensions, the start-tile table, and exactly two tiles, each 2 or 4 |
| Game.TwentyFortyEight.Reset | 2048_mirror.py:76-83 | a fresh grid with exactly two tiles, each 2 or 4, all other cells empty |
| Game.TwentyFortyEight.SpawnStartTiles | 2048_mirror.py:82-83 | the two `new_tile` calls on an empty grid leave exactly two tiles |
| Game.TwentyFortyEight.GetGridHeight | 2048_mirror.py:91-95 | returns the grid's row count |
| Game.TwentyFortyEight.GetGridWidth | 2048_mirror.py:97-101 | returns the grid's column count |
| Game.TwentyFortyEight.Move | 2048_mirror.py:103-127 | the grid becomes `MoveGrid` of the old grid; one tile is spawned into it when the value-based flag fires, otherwise nothing else changes; a move that changes no line leaves the grid as it was, with no tile spawned; cells stay 0 or powers of two |
| Game.TwentyFortyEight.MoveLine | 2048_mirror.py:112-125 | one line: its cells receive their merged values, all other cells keep theirs, and the returned flag is the value-based check on that line |
| Game.TwentyFortyEight.ReadLine | 2048_mirror.py:113-119 | `holding_list_coords` holds the line's cells in step order and `holding_list` their values |
| Game.TwentyFortyEight.WriteLine | 2048_mirror.py:121-122 | each cell of the line receives the merged value at its `index` in the coordinate list; no other cell changes |
| Game.TwentyFortyEight.StoreCell | 2048_mirror.py:122 | one assignment changes exactly one cell |
| Game.TwentyFortyEight.NewTile | 2048_mirror.py:129-141 | one empty cell now holds 2 or 4 and every other cell is unchanged |
| Game.TwentyFortyEight.SetTile | 2048_mirror.py:143-147 | the cell (row, col) holds the value and every other cell is unchanged |
| Game.TwentyFortyEight.GetTile | 2048_mirror.py:149-153 | returns the value of the cell (row, col) |

## Left out

- The GUI import and the module-level game are not part of this model (lines 5 and 155-156). The `random` module is not part of it either.
- `__str__` (lines 85-89) is left out because it only formats text for debugging.
- Game.TwentyFortyEight.NewTile: the source draws a random cell and retries by recursion until it hits an empty one, with 2 chosen nine times out of ten. The model picks any empty cell and either 2 or 4 nondeterministically, and requires an empty cell. On a full grid the source's retry never ends, so the model leaves that case out. The 90/10 distribution is not modelled.
- Game.TwentyFortyEight.constructor: requires `height >= 1`, `width >= 1` and at least two cells. On a 1×1 grid the second `new_tile` of `reset` would retry forever. With a zero height or width, `random.randrange(0)` in `new_tile` raises `ValueError`.
- The source's `__init__` calls `reset` before it builds `_initial_tiles`. The model fills the table first, because the order changes nothing: `reset` does not read the table.
- Game.TwentyFortyEight.SetTile, Game.TwentyFortyEight.GetTile: require in-range indices. Python's negative indices, which count from the end, are not modelled.
- Directions are a datatype instead of the integers 1-4. Other integers as directions, which would raise `KeyError` in the source, are not modelled.
- The grid is an `array2<int>` instead of a list of row lists. Aliasing between rows therefore cannot arise in the model.
- Cell values are unbounded integers, as in Python.

## Findings

| source | as written | input that shows it | evidently intended | confidence | as-written member | corrected member |
|---|---|---|---|---|---|---|
| 2048_mirror.py:123-125 | compares each merged value with the original value at the first position where that value occurs in the merged line (`merged_holding_list.index(merged_value)`) | a 4×4 grid with row `[4,2,0,2]` and all other rows empty, moved LEFT: the row becomes `[4,4,0,0]`, but every lookup compares equal (4 at index 0, 0 at index 2), so no tile is spawned | a tile is spawned whenever the move changed the grid (docstring, lines 104-107), i.e. compare position by position | not executed | Lines.ValueChangeMissed, Game.ValueFlagMissesChange | Lines.CheckMoved, Game.PositionalFlagExact |
