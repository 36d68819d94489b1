# 2048 rules engine

A Dafny model of the rules of the browser game in `script.js` (`class
Game2048`). The DOM and `Math.random()` are removed. What is left:

- the four move callbacks: filter out the empty cells, scan and merge, and pad back to four cells;
- `move`, the write-back that detects whether anything changed;
- `isGameOver`;
- `addRandomTile`, whose two random draws become parameters;
- `reset`;
- the key handling of `handleInput`: move; if something moved, spawn a tile; if the game is then over, reset.

The model has eight modules, one per concept:

| module | file | contents |
|---|---|---|
| `Line` | `line.dfy` | A line is a `seq<nat>`, and 0 is an empty cell. `SlideLeft`/`SlideRight` are the Left/Up and Right/Down callbacks as pure functions returning `Slide(line, gain)`. The gain is what the callback adds to `this.score`. They are defined through a *plan*, which groups the tiles into `Kept(v)` or `Merged(v)`. The independent predicates `Valid`, `GreedyLeft` and `GreedyRight` describe what a scan must produce. |
| `LineProperties` | `line_properties.dfy` | Both scans are the unique greedy groupings. Right is Left seen in a mirror. This module also says when a callback leaves a line alone, and checks the worked examples. |
| `Scan` | `scan.dfy` | The callbacks as the game writes them: filter, an in-place loop that doubles a tile and splices its partner out, then pad. Each is proved equal to `SlideLeft`/`SlideRight`. |
| `Board` | `board.dfy` | The 4×4 grid and the functional `Move`, with conservation and well-formedness. |
| `MoveLoop` | `move_loop.dfy` | `move` as written: it reads each line from the grid being updated and rewrites only the differing cells. It is proved equal to `Board.Move`. |
| `Spawn` | `spawn.dfy` | `addRandomTile`: the row-major list of empty cells, the `Math.floor(r * n)` pick (with `r * n` taken as an exact real) and the `r < 0.9 ? 2 : 4` value. |
| `GameOver` | `game_over.dfy` | `isGameOver` as written, plus the facts relating it to the moves. |
| `Play` | `game.dfy` | The game state, `reset` and `handleInput`. It also proves that a key press keeps the game live: cells empty or powers of two, a tile on the board, not over, and an even score and total. |

Each `Math.random()` call is a `real` parameter in `[0, 1)`. `addRandomTile` consumes two of them: the cell draw and the value draw. A reset consumes two more pairs.

A plausible reading of "conservation" is that a move increases the total of the cells by the score it earns. This code does not do that. A merge replaces two tiles `x` by one tile `2x`, so the total of the cells is the same after any move, and only the score grows. The model follows the code (`Board.MoveKeepsSum`). The total grows only when `addRandomTile` places a 2 or a 4 (`Spawn.SpawnAddsTile`).

An unrecognised key falls through the `switch` and changes nothing. The model keeps this silent no-op (`Play.HandleInput`) rather than signalling an error.

## Model

| member | source | states |
|---|---|---|
| Line.LeftPlanGreedy | script.js:99-105 | The forward scan groups the filtered tiles validly: undoing its merges gives back exactly the tiles. It is also left-greedy: a tile is kept only when it differs from the next tile. |
| Line.RightPlanGreedy | script.js:114-121 | The backward scan's grouping is valid and right-greedy: a tile is kept only when it differs from the tile before it. |
| Line.PlanFacts | script.js:100-103 | For any valid grouping: the tile count equals the output count plus the number of merges. The sum of the cells is kept. The gain is even and at most the sum. On nonzero tiles the gain is positive exactly when some merge happened. |
| Line.SlideLeft | script.js:97-108 | For an input of at most four cells, the Left/Up callback returns four cells, with every tile before every zero. The sum is kept. The gain is even and at most the sum. It never has more tiles than its input, and it earns something exactly when it has fewer. |
| Line.SlideRight | script.js:112-124 | The same for the Right/Down callback, with the zeros first. |
| LineProperties.LeftPlanUnique | script.js:99-105 | Every valid left-greedy grouping of the tiles is the one the forward scan builds. So "merge as early as possible, each tile at most once" determines the scan. |
| LineProperties.RightPlanUnique | script.js:114-121 | Every valid right-greedy grouping is the one the backward scan builds. |
| LineProperties.RightPlanMirror | script.js:114-121 | The backward scan equals the forward scan run on the reversed tiles, then reversed. |
| LineProperties.SlideLeftSpec | script.js:97-108 | Left/Up is determined by the independent description. For any valid left-greedy grouping of the nonzero cells, the callback returns its values padded at the end, and its merge total as the gain. |
| LineProperties.SlideRightSpec | script.js:112-124 | Right/Down returns any valid right-greedy grouping's values padded at the start, with that grouping's merge total. |
| LineProperties.SlideRightMirror | script.js:96-125 | Mirror symmetry. Right on a line is the reverse of Left on the reversed line, with the same gain. |
| LineProperties.SlideLeftCounts | script.js:98-106 | Under Left/Up, the number of nonzero cells falls by exactly the number of merges. |
| LineProperties.SlideRightCounts | script.js:113-122 | Under Right/Down, the number of nonzero cells falls by exactly the number of merges. |
| LineProperties.SlideLeftCellValues | script.js:101 | If every cell was empty or a power of two, every cell of the Left/Up output is too. |
| LineProperties.SlideRightCellValues | script.js:116 | If every cell was empty or a power of two, every cell of the Right/Down output is too. |
| LineProperties.SlideLeftFullOutput | script.js:97-108 | If the Left/Up output has no empty cell, the line comes back unchanged. |
| LineProperties.SlideRightFullOutput | script.js:112-124 | If the Right/Down output has no empty cell, the line comes back unchanged. |
| LineProperties.SlideLeftKeepsPacked | script.js:97-108 | A four-cell line whose tiles are packed at the start, with no equal neighbours, is returned unchanged by Left/Up. |
| LineProperties.SlideLeftUnchanged | script.js:97-108 | A four-cell line that Left/Up returns unchanged was packed at the start, had no equal neighbours, and earned nothing. |
| LineProperties.SlideLeftFixed | script.js:97-108 | Left/Up leaves a four-cell line unchanged if and only if its tiles are packed at the start with no equal neighbours. Such a line earns 0. |
| LineProperties.SlideRightFixed | script.js:112-124 | Right/Down leaves a line unchanged if and only if its tiles are packed at the end with no equal neighbours. Such a line earns 0. |
| LineProperties.FourEqualTilesLeft | script.js:99-106 | `[2,2,2,2]` gives `[4,4,0,0]` with gain 8 under Left: tiles merge pairwise. |
| LineProperties.FourEqualTilesRight | script.js:114-122 | `[2,2,2,2]` gives `[0,0,4,4]` with gain 8 under Right. |
| LineProperties.NoCascade | script.js:99-106 | `[2,2,4,0]` gives `[4,4,0,0]` with gain 4 under Left, not `[8,0,0,0]`: a merged tile does not merge again. |
| LineProperties.GapClosed | script.js:98-122 | `[0,2,2,0]` gives `[4,0,0,0]` under Left and `[0,0,0,4]` under Right, each with gain 4. |
| Scan.MergeForward | script.js:99-105 | The forward merge loop, with its in-place doubling and `splice`, yields the values and the score of the forward scan. |
| Scan.MergeBackward | script.js:114-121 | The backward merge loop, with its doubling, `splice(i - 1, 1)` and extra `i--`, yields the values and the score of the backward scan. |
| Scan.PushZeros | script.js:106 | The `push(0)` loop pads a line to four cells at the end. A line already four cells or longer is left as it is. |
| Scan.UnshiftZeros | script.js:122 | The `unshift(0)` loop pads a line to four cells at the start. |
| Scan.LeftCallback | script.js:97-108 | The Left/Up callback as written returns exactly `SlideLeft`'s line and gain. |
| Scan.RightCallback | script.js:112-124 | The Right/Down callback as written returns exactly `SlideRight`'s line and gain. |
| Board.Cleared | script.js:31 | The grid `reset` builds is well formed: four rows of four cells, every cell 0. |
| Board.Move | script.js:158-185 | After a move, each row (each column top to bottom, for Up/Down) is the callback's output on the old line. The gain is the four callbacks' total. `moved` holds if and only if some cell differs from the old grid. |
| Board.NoOpMove | script.js:158-185 | A move that reports no change leaves the grid exactly as it was and earns nothing. |
| Board.MoveKeepsSum | script.js:101-103 | A move keeps the total of all cells. |
| Board.MoveKeepsWellFormed | script.js:101-103 | A move keeps the grid four by four, with every cell empty or a power of two. |
| MoveLoop.WriteLine | script.js:169-181 | The inner loop rewrites exactly the cells of line `i` that differ from the callback's output. It sets `moved` if and only if one did. |
| MoveLoop.MoveLine | script.js:162-181 | One outer pass reads line `i` from the partly written grid, where it is still the old line. It then adds the callback's gain and writes the line back. |
| MoveLoop.MoveLines | script.js:158-185 | `move` as written, with its in-place updates and the `moved` flag, computes exactly `Board.Move`: the grid, the gain and the flag. |
| Spawn.EmptyCells | script.js:39-46 | The list of empty cells holds every empty cell and nothing else, strictly in row-major order. |
| Spawn.CollectEmpty | script.js:39-46 | The nested loops build exactly that list. |
| Spawn.FullIffNoEmptyCells | script.js:39-47 | The list is empty exactly when no cell is 0. |
| Spawn.Pick | script.js:48 | `Math.floor(r * n)` for a draw in `[0, 1)` is an index below `n`, and it is the floor of `r * n`. |
| Spawn.PickReaches | script.js:48 | Every index `k < n` is picked by some draw, namely `k / n`. |
| Spawn.NewTile | script.js:49 | The new tile is 2 or 4, and it is 2 exactly when the draw is below 0.9. |
| Spawn.Chosen | script.js:48 | The picked position is on the grid and empty. |
| Spawn.AddRandomTileSpec | script.js:47-50 | A full grid is unchanged. Otherwise the picked empty cell gets the new tile and every other cell keeps its value. |
| Spawn.SpawnCells | script.js:47-50 | After a spawn, every cell either is as before, or was empty and now holds the new tile. |
| Spawn.SpawnFillsOne | script.js:47-50 | On a grid with room, a spawn removes exactly one empty cell. |
| Spawn.SpawnAddsTile | script.js:49 | On a grid with room, a spawn adds the new tile's value to the total. |
| Spawn.SpawnKeepsWellFormed | script.js:49 | A spawn keeps every cell empty or a power of two. |
| GameOver.IsGameOver | script.js:187-207 | `isGameOver` returns true if and only if no cell is 0 and no tile equals its right or lower neighbour. |
| GameOver.OverNoMove | script.js:187-207 | When the game is over, every direction reports no change, leaves the grid as it was and earns nothing. |
| GameOver.NotOverSomeMove | script.js:187-207 | A grid that holds a tile and is not over has a direction that changes it. |
| GameOver.OverIffNoMove | script.js:187-207 | For a grid holding a tile, the game is over if and only if no direction moves anything. |
| GameOver.MovedLeavesRoom | script.js:85-86 | A move that changed something leaves an empty cell, so the spawn that follows always places a tile. |
| Play.KeyDirection | script.js:70-83 | A key that selects a direction is that direction's arrow key. |
| Play.Reset | script.js:30-34 | After `reset` the score is 0 and the grid is four by four. |
| Play.ResetCells | script.js:30-34 | After `reset` exactly fourteen cells are empty, so exactly two hold tiles. |
| Play.ResetValues | script.js:30-34 | After `reset` every cell is 0, 2 or 4. |
| Play.ResetSum | script.js:30-34 | After `reset` the total of the cells is the sum of the two new tiles. |
| Play.ResetLive | script.js:30-34 | A reset starts a live game. |
| Play.GainEven | script.js:102 | The score a move earns is even. |
| Play.HandleInput | script.js:66-94 | An unrecognised key changes nothing. A key whose move reports no change also changes nothing: no spawn and no game-over check. |
| Play.OverIgnoresInput | script.js:66-94 | Once the game is over, no key changes the state. |
| Play.MovedInputState | script.js:85-92 | When a key moves tiles and the game is not then over, the new state is the moved grid with the spawned tile. The score is the old score plus the move's gain. |
| Play.MovedInputOver | script.js:85-92 | When a key moves tiles and the new tile ends the game, the new state is the reset of the spawned state: two fresh tiles and score 0, whatever the move earned. |
| Play.MovedInputContinues | script.js:85-92 | In that case the total of the cells grows by exactly the new tile, 2 or 4, and the game stays live. |
| Play.HandleInputLive | script.js:66-94 | Every key press takes a live game to a live game, including the press that ends a game, whose reset starts a live game again. |

## Left out

- The DOM is not modelled, because it is rendering, not rules: the element lookups and cell creation in the constructor and `init` (script.js:5-6, 12-16), the listener registration (script.js:24-27) and `updateDisplay` (script.js:53-64, also called at lines 21, 35 and 87).
- `alert` (script.js:90) is a user-facing side effect with no logic; the reset after it is modelled.
- The probability distribution of `Math.random()` is not modelled. Each draw is a parameter in `[0, 1)`, and the model states what any draw leads to.
- The deep copies `oldGrid` (script.js:68, 160) are never read, so they are not modelled.
- The `new Game2048()` bootstrap (script.js:211) is not modelled. The constructor and `init` (script.js:2-4, 19-20) clear the grid, set the score to 0 and add two tiles, which is the same as `Play.Reset`.
- JavaScript numbers are modelled as unbounded `nat`. Tile values and the score stay far below 2^53 in any real game, so no rounding is modelled.
- Spawn.Pick: the draw is an exact real and the product `r * n` is not rounded to a double before the floor. Just below each `k / n` the model's draw-to-index map can therefore differ from JavaScript's: for the largest double below 1/3 and `n = 3`, JavaScript rounds the product to 1.0 and picks index 1, while the model picks 0. The set of cells a draw can reach is the same (`Spawn.PickReaches`).
- The keyboard event is modelled as its `key` string; nothing else of the event is read.
- Play.HandleInput: its contract states the no-op cases only. The moved cases are stated by `Play.MovedInputState` (the game goes on), `Play.MovedInputOver` (the game ends and is reset) and `Play.MovedInputContinues`, because a single contract over every branch is too expensive for the verifier.
- Play.Reset: its contract states only the score and the shape. The cell counts, values and total are in `Play.ResetCells`, `Play.ResetValues` and `Play.ResetSum`.
