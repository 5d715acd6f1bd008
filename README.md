# A verified model of the 2048 engine in project4.py

project4.py is a Tkinter 2048 game whose logic lives in the class
`Game2048`. That class keeps a 4x4 NumPy board and a score. Its methods do
four things:

- `move` reduces every row of a reoriented view of the board and copies
  the result back.
- `move_up`, `move_down`, `move_left` and `move_right` choose that view.
- `add_random_tile` and `start_game` place new tiles.
- `can_move` scans for a possible move, and `key_press` ties a key to all
  of the above.

This project models that engine in Dafny and proves what it does.

The modules follow the structure of the program:

- `LineReducer` (line.dfy) covers one row. The functions `NonZero`,
  `Merged` and `ReduceLine` state what lines 78-93 compute. The method
  `MergeLine` is the loop itself, with its `skip` flag, proved equal to
  them. The lemmas prove the row properties: length, packing, order,
  sum, score bounds, tile values and fixpoints.
- `Grid` (grid.dfy) holds the board, kept as 16 cells in row-major
  order. It also holds the NumPy views (`np.transpose`, `np.flipud`,
  `np.fliplr` as an index map), the whole-board meaning of `move`
  (`Swept`, `CopyBack`, `MoveOn`, `Step`), `Spawn` and `CanMove`.
- `Moves` (moves.dfy) traces each key through those views:
  - Left reduces every row.
  - Down reduces every column toward the top.
  - Up does what Down does and then mirrors every row.
  - Right turns each row into the reduction of its reversal.

  It also proves when `moved` agrees with a change of the board.
- `Scan` (scan.dfy) characterises `can_move` and proves that a
  declared game over is sound when the bottom-right corner is filled.
- `Spawning` (spawn.dfy) covers `add_random_tile` and `start_game`.
- `Keys` (keys.dfy) is `key_press` as a function of the board, the
  score, the key and the two random draws.
- `Quirks` (quirks.dfy) shows on concrete and generic boards the
  behaviours that follow from lines 99-105 and 109-120.
- `Engine` (game.dfy) is the class `Game2048`. It has an `array<int>`
  board and an `int` score. Every method but `CanMove` updates them in
  place. `CanMove` only reads the board. Each method is proved against the
  functions above.

The randomness of `random.choice` is made into parameters. `pick: nat`
selects the empty cell at `pick` modulo the number of empty cells, listed
in row-major order as `np.where` lists them. `four: bool` selects a 4
rather than a 2.

This model follows the code where it departs from the usual rules of 2048:

- A new tile is a 2 or a 4 with no weighting between them.
- `move` reports `moved` when some reoriented row changed, not when the
  board changed.
- The Up key copies back a view that is not the inverse of the one it
  reduced. The `'up' in self.move.__code__.co_varnames` test on line 100
  is always false, so line 100 always takes
  `np.transpose(np.flipud(board))`, and every board row comes back
  mirrored.
- The Right key reduces the `np.fliplr` view, whose writes on line 94
  already reach the board, and lines 104-105 then copy that same view back
  onto the board. The copy reverses each row a second time, so each row
  becomes the reduction of its reversal.
- `can_move` never looks at an empty bottom-right corner on its own.
- A declared game over does not stop later key presses.

## Model

| member | source | states |
|---|---|---|
| LineReducer.NonZero | project4.py:78 | Computes line 78's compaction: the non-zero cells in their order. Its contract says the result is no longer than the row and holds no zero |
| LineReducer.Merged | project4.py:80-91 | Computes the scan of lines 80-91 on a compacted row: from the left, a tile equal to the next one becomes one doubled tile and both are consumed. Its contract says the result has between half and all of the input's length |
| LineReducer.MergeScore | project4.py:86-88 | Computes what line 88 adds during that scan: the doubled value of each merge. It has no contract; `MergeScoreBounds`, `LineScoreBounds` and `MergeScoreZero` state its properties |
| LineReducer.ReduceLine | project4.py:78-93 | Computes a whole row of `move`: compaction, merge, then zeros up to the row's length (line 93). Its contract says the length is kept |
| LineReducer.LineScore | project4.py:78-88 | Computes the score one row adds: `MergeScore` of the compacted row. It has no contract; `LineScoreBounds` and `UnchangedLineScoresNothing` state its properties |
| LineReducer.MergeLine | project4.py:77-93 | The compact, merge-with-skip and pad loop returns exactly `ReduceLine` of the row and the score it earns, `LineScore` |
| LineReducer.ReduceLineShape | project4.py:78-93 | A reduced row is packed: all zeros come after all tiles. Its tiles are the merge of the input's tiles in their original order, and there are no more of them than before |
| LineReducer.NonZeroElements | project4.py:78 | Dropping the zeros keeps every non-zero value with its multiplicity |
| LineReducer.ReduceLineKeepsSum | project4.py:78-93 | The reduction keeps the sum of the row |
| LineReducer.LineScoreBounds | project4.py:86-91 | On a row without negative cells the score a row earns is between 0 and the row's sum |
| LineReducer.MergeOnceFourEqual | project4.py:80-91 | `[2,2,2,2]` becomes `[4,4,0,0]` and earns 8: each tile merges once |
| LineReducer.MergeOnceThreeEqual | project4.py:80-91 | `[2,2,2,0]` becomes `[4,2,0,0]` and earns 4 |
| LineReducer.CompactOnly | project4.py:78-93 | `[2,0,4,0]` becomes `[2,4,0,0]` and earns nothing |
| LineReducer.MergedFixpoint | project4.py:80-91 | The merge scan leaves a sequence unchanged exactly when no two neighbours are equal |
| LineReducer.MergeScoreZero | project4.py:86-91 | On positive cells the scan scores nothing exactly when no two neighbours are equal |
| LineReducer.ReduceLineFixpoint | project4.py:78-93 | A row is left unchanged exactly when it is packed and its tiles have no equal neighbours |
| LineReducer.FullLineFixpoint | project4.py:78-93 | A row with no empty cell is left unchanged exactly when no two neighbours are equal |
| LineReducer.UnchangedLineScoresNothing | project4.py:86-97 | A row that does not change earns no score |
| LineReducer.DoubleTile | project4.py:87 | Twice a tile is a tile |
| LineReducer.ReduceLineKeepsTiles | project4.py:87 | If every cell is empty or a power of two of at least 2, the reduced row is too |
| LineReducer.TilesNonNegative | project4.py:29 | Bridge lemma: a row of tiles and the empty cells that `np.zeros` creates has no negative cell, so the score bounds for non-negative boards apply to real boards |
| LineReducer.ChangedLineHasGap | project4.py:78-97 | A row the reduction changes comes out with an empty last cell: it had a gap, or two tiles merged |
| Grid.ViewOf | project4.py:62-72 | Computes the view each move passes to `move`: `np.transpose` for Up, `np.flipud(np.transpose(...))` for Down, the board itself for Left and `np.fliplr` for Right. It has no contract; `Moves.ReorientedRow` states what its rows are |
| Grid.TransposeBack | project4.py:62-72 | Computes the `transpose_back` flag: true for Up and Down, false for Left and Right. It has no contract |
| Grid.Swept | project4.py:76-94 | Computes the board after the row loop: each view row's reduction written through the view, as line 94 does. It has no contract; `Moves.ViewRowOfSwept` and `Moves.SweptCell` state its meaning |
| Grid.RowsScore | project4.py:76-88 | Computes the score the first i view rows add. It has no contract; `Moves.RowsScoreNonNegative` and `Moves.UnchangedRowsScoreNothing` state its properties |
| Grid.SomeRowChanges | project4.py:96-97 | Computes `moved`: some one of the first i view rows differs from its reduction. It has no contract |
| Grid.BackView | project4.py:99-105 | Computes the view that lines 99-105 copy back: `np.transpose(np.flipud(board))` when `transpose_back` is set, because the test on line 100 is false, and otherwise the view that was reduced. It has no contract; `Moves.BackViewRowLocal` states its property |
| Grid.CopyBack | project4.py:101-105 | Computes the board after lines 101-105: board row r receives row r of the copied view. It has no contract; `Moves.RowOfCopyBack` states its meaning |
| Grid.MoveOn | project4.py:74-107 | Computes one call of `move`: the copied-back board, the added score and the returned flag. It has no contract; the `Moves` lemmas state its meaning for each key |
| Grid.Step | project4.py:62-72 | Computes what each of the four move methods does: `MoveOn` with its view and flag. It has no contract; `Moves.StepCell` gives every cell in closed form |
| Grid.EmptyCells | project4.py:39 | Computes `np.where(self.board == 0)` as a list of cells in row-major order. It has no contract; `Grid.EmptyCellsFrom` states its meaning |
| Grid.TileValue | project4.py:42 | Computes `random.choice([2, 4])` with the draw given as a flag. It has no contract; `Spawning.TileValueIsTile` states its property |
| Grid.Spawn | project4.py:38-42 | Computes `add_random_tile`: with no empty cell the board is kept, and otherwise the empty cell at the draw gets the drawn tile. It has no contract; the `Spawning` lemmas state its meaning |
| Grid.RowSignal | project4.py:111-114 | Computes whether cell (r, c) makes the row scan yield: it is empty or equals its right neighbour. It has no contract |
| Grid.ColumnSignal | project4.py:116-119 | Computes whether cell (r, c) makes the column scan yield: it is empty or equals the cell below. It has no contract |
| Grid.CanMove | project4.py:109-120 | Computes `any(self.can_move())`: some row signal or column signal. It has no contract; `Scan.CanMoveIff` states its meaning |
| Grid.ViewsCompose | project4.py:62-72 | Each NumPy call maps positions as NumPy does: `np.transpose` swaps the two indices, `np.flipud` mirrors the row index and `np.fliplr` the column index |
| Grid.Position | project4.py:62-72 | Every view shows each board cell at some position: the views are permutations of the cells |
| Grid.CellInjective | project4.py:94 | Two positions of a view show the same cell only when they are the same position, so writing one view row leaves the others alone |
| Grid.EmptyCellsFrom | project4.py:39 | The list holds exactly the empty cells, in strictly increasing row-major order |
| Moves.ViewRowOfSwept | project4.py:76-94 | After the sweep, row i of the view holds the reduction of row i as it was before |
| Moves.RowOfCopyBack | project4.py:99-105 | After the copy-back, board row r holds row r of the copied view |
| Moves.BackViewRowLocal | project4.py:99-105 | For every key, row r of the copied-back view shows only cells of board row r |
| Moves.ReorientedRow | project4.py:62-72 | Row k of the view is row k for Left, reversed row k for Right, column k for Up and column N-1-k for Down |
| Moves.LeftMove | project4.py:68-69 | Left replaces every row by its reduction |
| Moves.RightMove | project4.py:71-72 | Right replaces every row by the reduction of its reversal |
| Moves.DownMove | project4.py:65-66 | Down's copy-back is the identity, and every column becomes its reduction toward the top |
| Moves.UpSweep | project4.py:62-66 | Up and Down leave the same board after the sweep |
| Moves.UpCopyBack | project4.py:99-102 | Up's copy-back mirrors every board row |
| Moves.UpMove | project4.py:62-63 | Every row after Up is the reversal of the same row after Down |
| Moves.StepCell | project4.py:62-107 | Cell (r, c) after a key, in closed form: Left reduces row r, Right the reversal of row r, Down column c, Up column N-1-c, each read at c or r |
| Moves.UpDownGain | project4.py:62-66 | Up and Down add the same score |
| Moves.UpDownMoved | project4.py:62-66 | Up reports a move exactly when Down does |
| Moves.UnmovedScoresNothing | project4.py:86-97 | A move that reports nothing adds no score, for every key |
| Moves.GainNonNegative | project4.py:86-91 | On a board without negative cells no key lowers the score |
| Moves.LeftMovedIff | project4.py:68-69 | Left reports a move exactly when the board changes; when it reports none, the board and the score stay as they were |
| Moves.DownMovedIff | project4.py:65-66 | Down reports a move exactly when the board changes; when it reports none, the board and the score stay as they were |
| Moves.StepKeepsTiles | project4.py:74-107 | Every key keeps a board of tiles and empty cells one |
| Moves.MovedLeavesGap | project4.py:74-107 | A move that reports a change leaves at least one empty cell |
| Scan.CanMoveIff | project4.py:109-120 | `any(can_move())` holds exactly when two neighbours are equal or a cell other than the bottom-right corner is empty |
| Scan.NoMoveIsLocked | project4.py:109-120 | With the corner filled, the scan reports nothing exactly on a full board without equal neighbours |
| Scan.GameOverSound | project4.py:56-59 | When the scan reports nothing and the corner is filled, no key moves anything |
| Scan.FullBoardCanMove | project4.py:109-120 | On a full board the scan reports a move exactly when Left or Down would move |
| Spawning.TileValueIsTile | project4.py:42 | A new tile is a 2 or a 4 |
| Spawning.SpawnOnFullBoard | project4.py:40 | On a full board `add_random_tile` changes nothing |
| Spawning.SpawnFillsOneGap | project4.py:38-42 | On a board with an empty cell, exactly one empty cell receives the new tile, nothing else changes, and the tile count grows by one |
| Spawning.SpawnReachesEveryGap | project4.py:39-41 | Every empty cell is the one chosen for some draw |
| Spawning.SpawnKeepsTiles | project4.py:42 | A spawn keeps a board of tiles and empty cells one |
| Spawning.Opening | project4.py:28-32 | Computes `start_game`'s board: two spawns on an all-zero board. It has no contract; `OpeningHasTwoTiles` and `OpeningTilesOnly` state its properties |
| Spawning.OpeningHasTwoTiles | project4.py:28-32 | After `start_game` exactly two cells are non-zero, each a 2 or a 4 |
| Spawning.OpeningTilesOnly | project4.py:28-32 | The opening board holds only tiles and empty cells |
| Keys.Press | project4.py:44-60 | Computes `key_press`: a key that is not an arrow leaves everything unchanged, and an arrow key plays its direction. It has no contract; the `Keys` lemmas state its properties |
| Keys.Play | project4.py:47-60 | Computes one arrow key: the move, then, only when it reports a change, a spawn and the game-over scan. It has no contract |
| Keys.KeyDirection | project4.py:45-54 | Exactly the four arrow key names select a direction |
| Keys.OtherKeysIgnored | project4.py:45 | Any other key leaves the board and the score and declares nothing |
| Keys.UnmovedPressKeepsScore | project4.py:56-60 | A press that moves nothing keeps the score and declares nothing; for Left and Down it keeps the board too |
| Keys.PressScoreGrows | project4.py:44-60 | On a board without negative cells a key press never lowers the score |
| Keys.PressKeepsTiles | project4.py:44-60 | A key press keeps a board of tiles and empty cells one |
| Keys.GameOverIsFinal | project4.py:56-59 | After a press declares the game over with the corner filled, no key moves anything |
| Keys.MovedPressAddsOneTile | project4.py:56-57 | A press whose move reports a change adds exactly one tile to the board the move left |
| Keys.UnmovedPressAddsNoTile | project4.py:56 | A press whose move reports nothing adds no tile: the board is the one the move left |
| Keys.PressFromTiles | project4.py:44-60 | From a board of tiles and empty cells a press keeps the board one and never lowers the score |
| Quirks.UpMirrorsLockedBoard | project4.py:99-102 | On a full board without equal neighbours, Up reports no move yet reverses every row, so the board changes |
| Quirks.RightMirrorsLockedBoard | project4.py:104-105 | On such a board Right also reports no move yet reverses every row |
| Quirks.RightMovedWithoutChange | project4.py:94-105 | With a lone 2 in the top-left corner, Right reports a move although the board comes back unchanged |
| Quirks.CornerGapUnseen | project4.py:109-120 | Take a board whose only empty cell is the bottom-right corner and whose neighbours all differ. The scan reports nothing there, yet Right still moves |
| Quirks.GapBeforeTileChanges | project4.py:96-97 | A row with an empty cell before a tile changes, so it sets `moved` |
| Engine.Game2048.constructor | project4.py:6-14 | A new game holds the opening board for its two draws, which has only tiles and empty cells, and a zero score |
| Engine.Game2048.StartGame | project4.py:28-32 | The board becomes the opening board for the two draws, which has only tiles and empty cells, and the score becomes 0 |
| Engine.Game2048.RestartGame | project4.py:35-36 | Restarting is starting a game |
| Engine.Game2048.AddRandomTile | project4.py:38-42 | The board becomes `Spawn` of the old board for the draw |
| Engine.Game2048.WriteViewRow | project4.py:94 | Row i of the view is overwritten; every other cell keeps its value |
| Engine.Game2048.SweepRow | project4.py:76-97 | One view row becomes its reduction. The score grows by that row's score, and the result says whether the row changed |
| Engine.Game2048.SweepRows | project4.py:75-97 | The board becomes `Swept`, the score grows by the sum of the row scores, and `moved` says whether some row changed |
| Engine.Game2048.CopyBackRows | project4.py:99-105 | Writing the rows of a row-local view back one at a time leaves `CopyBack` of the board |
| Engine.Game2048.Move | project4.py:74-107 | The board, the score and the result are those of `MoveOn` |
| Engine.Game2048.MoveUp | project4.py:62-63 | The board, the score and the result are those of `Step` for Up |
| Engine.Game2048.MoveDown | project4.py:65-66 | The same for Down |
| Engine.Game2048.MoveLeft | project4.py:68-69 | The same for Left |
| Engine.Game2048.MoveRight | project4.py:71-72 | The same for Right |
| Engine.Game2048.MoveTowards | project4.py:47-54 | The move method of a direction does what `Step` says |
| Engine.Game2048.CanMove | project4.py:109-120 | The nested scans with early return give `CanMove` of the board |
| Engine.Game2048.PlayDirection | project4.py:47-60 | Move, then spawn and scan only if something moved, as `Play` says |
| Engine.Game2048.KeyPress | project4.py:44-60 | The board, the score and the game-over flag are those of `Press` for the key and the draws; from a board of tiles and empty cells the board stays one and the score does not go down |

## Left out

- The Tkinter window, canvas, label, button, key binding and colour map (lines 16-26 and 128 on) are user interface. So is `update_canvas` after a move. It reads the board and changes nothing the model keeps.
- `game_over` (lines 122-126) only prints and draws. `KeyPress` returns whether it would be called.
- `random.choice` is not modelled as a random generator. Its results are the `pick` and `four` parameters.
- NumPy internals are not modelled beyond the views and their write-through. The copy-back of lines 101-105 is modelled as NumPy performs it when source and destination overlap: the source row is read before it is written.
- Engine.Game2048.Move: requires that the copied-back view is row-local (its row r shows only cells of board row r). `Moves.BackViewRowLocal` proves this for all four callers. A general view is not modelled.
- Engine.Game2048.CopyBackRows: requires a row-local view, for the same reason.
- LineReducer.MergeLine: returns the row's score and adds it once, where line 88 adds each merged value in turn. Nothing reads the score in between, so the final value is the same.
- Integers are unbounded, so NumPy's 64-bit overflow of cell values and of the score is not modelled. No game reaches it.
- `grid_size` is the constant `N = 4`, as line 9 fixes it.
