# 2048 grid engine

A Dafny model of the grid engine of a 4×4 sliding-tile game, the one behind
the Swing front end in `src/Main.java`. The engine state is:

- a 4×4 array of tile values, where 0 is an empty cell;
- a move counter;
- a score;
- a running count of empty cells.

The model covers the operations the key handler drives:

- starting a game (`initGame`);
- spawning a 2 in a chosen empty cell (`addNewNumber`);
- one directional move (`doAction`), with its two primitives `matchTile` and `moveTile`;
- the full-board test (`isFull`) and the adjacent-pair test (`checkForPossibleMove`);
- one key press (`keyPressed`): a move, a spawn, and a reset when the game is over.

The project has four modules:

- **Lines** (`lines.dfy`) is the reference meaning of a move on one line.
  - `NonZeros` drops the empty cells.
  - `Merge` merges equal neighbours pairwise, starting from the edge the move goes toward.
  - `Collapse` packs the result against that edge.
  - `LineGain` is the points the line earns.
- **Sweep** (`sweep.dfy`) is the invariant of the engine's cell-by-cell scan over one line, together with the lemmas for one step of it.
  - `Visit` is what the engine does at one position: the match scan, then the slide.
  - `LineInv` says that the positions already visited are packed, and that together with the merge of the rest they give the reference result.
- **Board** (`board.dfy`) is the board as a value.
  - `Line` and `Place` view a board as four lines in a move's direction: rows for left and right, columns for up and down. Position 0 is the edge the move goes toward.
  - It defines the reference functions `Moved`, `MoveGain`, `Spawned`, `Initial` and `GameOver`, with their lemmas: conservation, packing, tile validity and the game-over fixpoint.
- **Engine** (`engine.dfy`) is the class `Game`.
  - It holds the `array2<int>` and the three counters, plus a ghost copy of the board that is kept equal to the array.
  - Each method of the source is a method of `Game`, with the same loops over the array.
  - The method that moves, `DoAction`, is proved equal to the reference `Moved` board and to the `MoveGain` score. The proof goes through a ghost trace of the sixteen cell visits (`ScanTrace`, `TraceMoves`).

The engine's invariant `Game.Valid` holds at the start and after every operation:

- the empty-cell counter equals the number of empty cells;
- every nonzero cell is a power of two from 2 up;
- the score and the move counter are not negative.

`java.util.Random` is a parameter. Every random draw is an argument `k`, and the caller promises it is below the empty-cell count at the time of the draw, as `nextInt` does.

`matchTile` (`src/Main.java:258-283`) returns false only when either cell is empty; for two different tiles, and after a merge, it returns true. The match loops (`src/Main.java:210, 219, 228, 237`) run `for (...; !matchTile(...); ...)`, so they stop at the first tile they meet. `Game.MatchTile` answers `stop` exactly when both cells hold tiles.

## Model

| member | source | states |
|---|---|---|
| Engine.Game.constructor | src/Main.java:116-144 | a new game is a valid engine whose board is the initial board for draws k1, k2, with 14 empty cells, score 0 and 0 moves |
| Engine.Game.InitGame | src/Main.java:116-144 | resets score and moves to 0, starts from the empty board and spawns two 2s; the result is `Initial(k1, k2)`, with the counter at 14 and the invariant established |
| Engine.Game.AddNewNumber | src/Main.java:146-179 | on a full board nothing changes; otherwise the k-th empty cell in row-major order becomes 2, the counter drops by one, and the invariant is kept |
| Engine.Game.MoveTile | src/Main.java:246-256 | the first cell takes the second's value and the second becomes empty; the invariant is kept when the target was empty |
| Engine.Game.MatchTile | src/Main.java:258-283 | answers stop iff both cells hold tiles; equal tiles: first doubled, second emptied, score up by the new value, counter up by one; otherwise nothing changes; the invariant is kept |
| Engine.Game.MatchScan | src/Main.java:210 | the match loop from the tile at position p passes empty cells, stops at the first tile, and merges with it only when equal; the line becomes `Matched(t, p, NextFrom(t, p + 1))` and the score grows by `MatchGain` |
| Engine.Game.Slide | src/Main.java:212 | the slide loop moves the tile through empty cells to `SlideTo(t, p)`, next to the edge or to the nearest tile |
| Engine.Game.ShiftTile | src/Main.java:221 | one slide step moves the tile from position j into the empty position j - 1, and does not change where the slide ends |
| Engine.Game.VisitCell | src/Main.java:197-240 | the scan step at (row, col) skips an empty cell, otherwise runs the match loop and then the slide loop; the result is `VisitGrid` and `VisitScore` |
| Engine.Game.DoAction | src/Main.java:181-244 | the move counter rises by exactly one; the board becomes `Moved(old board, dir)`; the score rises by `MoveGain`; the invariant is kept |
| Engine.Game.IsFull | src/Main.java:285-288 | true iff no cell of the array is empty |
| Engine.Game.CheckForPossibleMove | src/Main.java:290-307 | true iff two orthogonally adjacent cells hold equal values; it changes nothing |
| Engine.Game.KeyPressed | src/Main.java:338-391 | an arrow key moves and any key then spawns with draw k; if the result is full with no equal neighbours the game restarts as `Initial(k1, k2)`, otherwise the board, score and moves are the moved-and-spawned ones |
| Engine.ScanTrace | src/Main.java:193-195 | the sixteen steps of the scan, in the order of the nested loops, have a trace from the board, and it ends at `Moved` with total gain `MoveGain` |
| Engine.TraceMoves | src/Main.java:193-241 | any trace of the scan ends at the reference moved board with the reference gain |
| Engine.TraceProgress | src/Main.java:193-241 | after n steps each line is in the line invariant up to the positions visited, and the gain so far plus what remains pending is the line gains' total |
| Engine.TraceVisit | src/Main.java:197-240 | step n replaces the line of the n-th cell by its visited line, keeps the line invariant one position further, and moves score from pending to gained |
| Engine.ProgressReplace | src/Main.java:197-240 | replacing one line with its visited line leaves the other lines and their progress alone |
| Engine.ScanAppend | src/Main.java:193-195 | a trace of the first n steps extends by the next step |
| Engine.DoneStep | src/Main.java:193-195 | the n-th cell of the scan is the next unvisited position of its line; only that line's position advances |
| Engine.ScanStep | src/Main.java:190-195 | for each direction, the loop counters (row, col) of the nested loops visit the n-th cell of the scan |
| Sweep.VisitKeepsPlaced | src/Main.java:193-241 | a tile already placed in the packed part of a line is never touched again by a later visit of that line, so no tile merges twice in one move |
| Sweep.StepVisit | src/Main.java:197-240 | visiting position p of a line keeps the line invariant one position further, and the points scored are what the rest of the line was still to earn |
| Sweep.StepTile | src/Main.java:209-239 | the match scan that stopped at i followed by the slide keeps the line invariant |
| Sweep.StepEmpty | src/Main.java:197-199 | skipping an empty cell keeps the line invariant |
| Sweep.SweepDone | src/Main.java:193-243 | once every position of a line is visited the line is its reference collapse and nothing is pending |
| Sweep.SlideToPacked | src/Main.java:212 | with the visited prefix packed, the slide stops right after its tiles |
| Sweep.NextFromEmpty | src/Main.java:210 | the match scan passes only empty cells |
| Sweep.SlideToEmpty | src/Main.java:212 | the slide passes only empty cells |
| Board.MovedLine | src/Main.java:190-243 | each line of the moved board is the collapse of the same line before the move, so it depends on that line alone, and it is packed toward the edge |
| Board.MovedSum | src/Main.java:250-251 | a move keeps the sum of all tile values |
| Board.MovedZeroCount | src/Main.java:280 | a move frees exactly one cell per merge |
| Board.MovedTiles | src/Main.java:271 | a move keeps every cell empty or a power of two from 2 up |
| Board.MoveGainNonNegative | src/Main.java:275 | a move never lowers the score |
| Board.MergeExamples | src/Main.java:217-224 | moving left, the row 2 2 2 2 becomes 4 4 0 0 scoring 8, and 2 2 4 0 becomes 4 4 0 0 scoring 4 |
| Board.GameOverStuck | src/Main.java:381 | on a board that is full with no equal neighbours, no move changes anything |
| Board.SpawnedAt | src/Main.java:158-173 | the spawn with draw k fills the empty cell with k empty cells before it in row-major order, one fewer cell is empty, and tile validity is kept |
| Board.SpawnedOne | src/Main.java:146-179 | with k below the empty count, the spawn fills exactly one empty cell with 2, drops the empty count by one and raises the tile sum by 2 |
| Board.InitialTiles | src/Main.java:122-139 | the initial board has 14 empty cells and two 2s |
| Board.MoveCells | src/Main.java:250-251 | moving a tile into an empty cell keeps the empty count and tile validity |
| Board.MergeCells | src/Main.java:271-272 | merging two equal tiles (first doubled, second emptied) frees exactly one cell and keeps tile validity |
| Board.ZeroCountNone | src/Main.java:285-288 | the empty count is 0 iff no cell is empty |
| Lines.CollapsePacked | src/Main.java:212 | after a move a line is packed against the edge, and its tiles are the pairwise merge of the old tiles |
| Lines.CollapseSum | src/Main.java:271-272 | a move keeps a line's total |
| Lines.CollapseCount0 | src/Main.java:280 | a line gains one empty cell per merge |
| Lines.CollapseTiles | src/Main.java:271 | a move keeps a line's cells empty or powers of two |
| Lines.CollapseFixed | src/Main.java:299-302 | a full line without equal neighbours does not change |
| Lines.CollapseExamples | src/Main.java:219-221 | 2 2 2 2 collapses to 4 4 0 0 scoring 8; 2 2 4 0 collapses to 4 4 0 0 scoring 4 |
| Lines.MergeBound | src/Main.java:271 | with every tile at most m, every tile after the merge is at most 2m (a bound only; that no tile merges twice is `Sweep.VisitKeepsPlaced`) |
| Lines.MergesGain | src/Main.java:275 | a line's gain is between 0 and its total, and it is 0 exactly when no pair merges |
| Lines.MergesOnLine | src/Main.java:275 | every point scored is the value of a tile left on the line |
| Lines.SumMerge | src/Main.java:271-272 | merging keeps the total |
| Lines.MergeTiles | src/Main.java:271 | merging powers of two yields powers of two |
| Lines.MergeNoZeros | src/Main.java:271 | merging creates no empty cell |
| Lines.KthZero | src/Main.java:158-176 | with more than k empty cells, the k-th one in order exists |

## Left out

- The Swing user interface (window layout, labels, the game-over dialog, `updateTile`, `updateScore`, `keyTyped`, `keyReleased`, `main`) has no engine behaviour.
- All console tracing (`System.out` and `outputArray`) is output only.
- `java.util.Random` and its seeding from the clock in `initGame` are replaced by the draws `k`, `k1` and `k2`, passed as parameters. The model does not state anything about the draws' distribution.
- Java's 32-bit `int` is modelled as an unbounded integer, so wrap-around is not modelled. On a 4×4 board tile values and the score stay far below 2^31.
- Engine.Game.DoAction: `moves == old(moves) + 1` and `Game.Valid`'s `moves >= 0` do not model the 32-bit wrap of the move counter `mMove` (`src/Main.java:184`). It rises on every arrow press, even one that moves nothing (on a full board a press in a blocked direction spawns nothing either), so after 2^31 - 1 such presses Java's counter would wrap to a negative value, where the model keeps counting up.
- The mapping from key codes to directions is modelled as the datatype `Key`: an arrow with its direction, or any other key.
- Engine.Game.MoveTile: its constant `true` result only keeps the slide loop's condition going, so the model has no result.
- Engine.Game.InitGame: the reassignment of `mRand` is not modelled, because the draws are parameters.
- The four `switch` cases of `doAction` are one method each for the match loop and the slide loop. They work on the line and position coordinates of the direction (`RowOf`, `ColOf`), which map position 0 to the edge the move goes toward.
