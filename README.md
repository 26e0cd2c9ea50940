# StuckGame in Dafny

StuckGame is a one-player board game on an n x n grid of weights. The player
starts on one cell, which is marked visited and zeroed. A turn picks one of
the eight compass directions. The weight L of the neighbouring cell in that
direction is the leap length, and the player then sweeps the L cells along
that direction: each becomes visited and its weight becomes 0. A move is legal
only when the neighbour, the landing cell and every swept cell are on the
board and unvisited. The game is over when no direction is legal.

The model covers:

- the board (`src/game/Board.java`) as a class over two `array2`s, proved
  against the pure rules in module `Rules`;
- the strategy `Player12345`, which always takes the first legal direction;
- the referee loop `playGame`, with its snapshot trace and the board number
  taken from a file name;
- the two board generators, with the text they write and the proof that it
  reads back;
- the move logger `GameLogger`, with its history of snapshots.

Modules and files:

| file | module | models |
|---|---|---|
| `text.dfy` | `Text` | `Integer.toString`, `Integer.parseInt`, a line and field reader that reads the written layouts back, the digit filter of `replaceAll("\\D+", "")` |
| `rules.dfy` | `Rules` | the Board as a value: `Move`, legality, a move's effect, `getPossibleMoves`, `isGameOver` |
| `board.dfy` | `GameBoard` | `Board` as a class with its arrays and counters |
| `player12345.dfy` | `Player12345` | `Player12345.nextMove` |
| `referee.dfy` | `Referee` | `playGame`, `saveSnapshot`, `extractBoardNumber` |
| `board_generator.dfy` | `BoardGenerator` | `BoardGenerator` and its board-file layout |
| `instance_generator.dfy` | `InstanceGenerator` | `InstanceGenerator` |
| `game_logger.dfy` | `Logger` | `GameLogger` |

How the outside world is modelled:

- Each source of randomness (`Random.nextInt`) becomes a `Draws` value that
  the caller supplies.
- Each writer becomes the string it would receive. `println` ends a line with
  an `eol` parameter, which stands for the platform line separator.
- The player's `nextMove`, as the referee calls it through an executor with a
  timeout, is a `Strategy`. It maps the turn number and the board, handed over
  as a value, to one of four outcomes: a timeout, an exception, `null`, or a
  move.
- `playGame`'s loop is specified by the relation `Referee.Played`. It holds
  between a starting board, a strategy and a `Session`: the final board, why
  the loop stopped, and the board after each move. `Referee.PlayedUnique`
  proves that the relation determines the session.

Two facts about scores, both from the code:

- `playGame` returns the board's `stepCount` (Referee.java:51), not the number
  of visited cells.
- `getScore` returns `visitedCount` (Board.java:50-52). The `score` field is
  kept up to date and copied by the copy constructor, but `getScore` does not
  read it.

## Model

| member | source | states |
|---|---|---|
| Text.IntToString | src/game/BoardGenerator.java:48-52 | definition of `Integer.toString`; its digits and value are given by NatToStringDigits, and ParseIntToString reads it back |
| Text.JavaParseInt | src/game/InstanceGenerator.java:14 | `Integer.parseInt` on ASCII text: any value it gives lies in int range; JavaParseIntDigits and ParseIntToString say which value |
| Text.KeepDigits | src/game/Referee.java:81 | the ASCII digits of the string, in order, never longer than the string; KeepDigitsAppend, KeepDigitsOfDigits and KeepDigitsOfNone say which |
| Text.Split | src/game/BoardGenerator.java:42-57 | the reader the round-trip lemmas use to read the layout written here back: a split at one character keeping empty fields, with at least one part; SplitJoin, SplitAtLast and SplitTerminated say which |
| Text.NatToStringDigits | src/game/BoardGenerator.java:48-52 | the decimal text of n is a non-empty digit string whose value is n |
| Text.JavaParseIntDigits | src/game/Referee.java:82 | `parseInt` of a non-empty digit string is its value when that fits in an int, otherwise the parse fails |
| Text.ParseIntToString | src/game/InstanceGenerator.java:14 | `parseInt` reads back the decimal text of every int, negative ones included |
| Text.ParseNatToString | src/game/BoardGenerator.java:48-52 | `parseInt` reads back the decimal text of every int-range natural |
| Text.KeepDigitsAppend | src/game/Referee.java:81 | removing non-digits distributes over concatenation |
| Text.KeepDigitsOfDigits | src/game/Referee.java:81 | removing non-digits leaves a digit string unchanged |
| Text.KeepDigitsOfNone | src/game/Referee.java:81 | removing non-digits from a string without digits leaves nothing |
| Text.LastIndexOfBefore | src/game/Referee.java:80 | the last separator of a + sep + b is at position \|a\| when b has none |
| Text.SplitAtLast | src/game/Referee.java:80 | splitting a + sep + b, where b has no separator, is the split of a followed by b |
| Text.SplitJoin | src/game/BoardGenerator.java:52 | splitting a join at a separator none of the parts contains gives the parts back |
| Text.SplitTerminated | src/game/BoardGenerator.java:48-55 | splitting separator-terminated lines gives the lines back, followed by the tail |
| Text.SplitLines | src/game/Referee.java:89-102 | a header, lines each ending in a break, and one more break split into the header, the lines and two empty strings |
| Text.TerminatedAppend | src/game/BoardGenerator.java:48-55 | terminated text of two line lists is the concatenation of each one's text |
| Text.TerminatedSnoc | src/game/Referee.java:90-101 | one more line at the end of a list adds that line and a line break to its terminated text |
| Text.TerminatedTwo | src/game/BoardGenerator.java:48-49 | the first two terminated lines come first, each followed by the line end |
| Text.IntToStringChars | src/game/BoardGenerator.java:52 | the text of an int contains no character other than digits and '-' |
| Rules.Legal | src/game/Board.java:95-120 | definition of `canMoveInDirection`'s three checks; characterised by LegalIff and LegalMeansLeap |
| Rules.Initial | src/game/Board.java:16-28 | definition of the board after the constructor; InitialInvariant proves it valid with only the start visited |
| Rules.Apply | src/game/Board.java:122-152 | definition of `applyMove` on a legal move: the sweep then one step; ApplyEffect gives its full effect |
| Rules.LegalAmong | src/game/Board.java:85-91 | definition of the filtering loop over the directions; LegalAmongSpec and LegalAmongOrder characterise it |
| Rules.PossibleMoves | src/game/Board.java:78-93 | definition of `getPossibleMoves`; PossibleMovesSpec characterises it |
| Rules.GameOver | src/game/Board.java:62-64 | definition of `isGameOver`; GameOverIff characterises it |
| Rules.Mark | src/game/Board.java:142-146 | one loop step keeps the board well formed and its size unchanged |
| Rules.Swept | src/game/Board.java:141-147 | the first k sweep steps keep the board well formed and its size unchanged |
| Rules.LegalMeansLeap | src/game/Board.java:95-120 | a legal move has a leap of at least 1 and a non-zero direction |
| Rules.LegalIff | src/game/Board.java:95-120 | on a valid board, a move is legal exactly when the leap L is at least 1 and every one of the L swept cells is on the board and unvisited (the neighbour and the landing cell are the first and last of them) |
| Rules.SweepFresh | src/game/Board.java:141-147 | a later sweep cell is none of the earlier ones |
| Rules.MarkVisitedCells | src/game/Board.java:144-146 | entering an unvisited cell adds exactly that cell to the visited set and keeps visitedCount equal to its size |
| Rules.SweptCells | src/game/Board.java:141-147 | after k sweep steps a cell is visited iff it was or was swept, and has weight 0 if swept and its old weight otherwise |
| Rules.SweptAt | src/game/Board.java:141-147 | the visited mark of one cell after k steps, as in SweptCells |
| Rules.SweptPosition | src/game/Board.java:142-143 | after k steps the player stands on player + d*k and the step and score counters are unchanged |
| Rules.SweptNext | src/game/Board.java:141-147 | step i enters the cell one along from where step i-1 left the player, and that cell is on the board |
| Rules.SweptNextOpen | src/game/Board.java:141-147 | in a non-zero direction, that cell is still unvisited after the first i-1 steps |
| Rules.SweptCount | src/game/Board.java:146 | k sweep steps in a non-zero direction add exactly k visited cells |
| Rules.ApplyEffect | src/game/Board.java:122-152 | a legal move puts the player on the landing cell, visits and zeroes the swept cells, changes no other cell, adds L to visitedCount and 1 to stepCount and score |
| Rules.ApplyPreservesInvariant | src/game/Board.java:122-152 | a legal move keeps the board invariant: player on a visited cell, weights 0..9, visited cells zero, visitedCount the number of visited cells, score = stepCount + 1 |
| Rules.ApplyProgress | src/game/Board.java:122-152 | a legal move keeps the invariant, keeps the size, adds one step and visits at least one new cell |
| Rules.AddInt32 | src/game/Board.java:96-97 | Java's wrapping int addition: a result in int range, congruent to the true sum modulo 2^32 |
| Rules.NeighbourTestIgnoresWrap | src/game/Board.java:96-99 | a wrapped `playerRow + dRow` or `playerCol + dCol` is negative, so the bounds test on the neighbour answers as it does on the unbounded sums |
| Rules.RowCells | src/game/Board.java:189-200 | the cells of the first k columns of row r, which number k |
| Rules.Rect | src/game/Board.java:189-200 | the cells of a k x n rectangle, which number k * n |
| Rules.VisitedBound | src/game/Board.java:50-52 | on a valid board, 1 <= visitedCount <= size * size |
| Rules.InitialInvariant | src/game/Board.java:16-28 | the board made by the constructor satisfies the invariant and has only the start cell visited |
| Rules.LegalAmongSpec | src/game/Board.java:85-91 | a direction is kept iff it is in the scanned list and legal; no more are kept than scanned |
| Rules.LegalAmongOrder | src/game/Board.java:85-91 | the kept directions are listed in scan order |
| Rules.PossibleMovesSpec | src/game/Board.java:78-93 | at most 8 moves, each a unit move, each in the direction list and legal, every legal direction present, strictly in scan order N, S, W, E, NW, NE, SW, SE |
| Rules.GameOverIff | src/game/Board.java:62-64 | the game is over iff none of the eight directions is legal |
| GameBoard.Matrix | src/game/Board.java:8 | the value of an array2 as a matrix of the same dimensions holding the same entries |
| GameBoard.Board.constructor | src/game/Board.java:16-28 | a valid board that shares the caller's grid array, is the initial board of that grid, and zeroes the caller's start cell and no other |
| GameBoard.Board.Copy | src/game/Board.java:30-44 | a valid board with fresh arrays and the same contents as the original |
| GameBoard.Board.GetSize | src/game/Board.java:46-48 | definition of `getSize`: the board's side length |
| GameBoard.Board.GetStepCount | src/game/Board.java:54-56 | definition of `getStepCount`: the number of moves applied, the model's `stepCount` |
| GameBoard.Board.GetPlayerRow | src/game/Board.java:66-68 | definition of `getPlayerRow`: the model's player row |
| GameBoard.Board.GetPlayerCol | src/game/Board.java:70-72 | definition of `getPlayerCol`: the model's player column |
| GameBoard.Board.GetScore | src/game/Board.java:50-52 | the number of visited cells, between 1 and size * size |
| GameBoard.Board.GetValueAt | src/game/Board.java:58-60 | the weight of the cell |
| GameBoard.Board.IsVisited | src/game/Board.java:74-76 | whether the cell is visited |
| GameBoard.Board.IsInBounds | src/game/Board.java:167-177 | definition of `isInBounds` (and `isValidPosition`), the test `Rules.InBounds` on the board's size |
| GameBoard.Board.IsValidMove | src/game/Board.java:171-173 | true iff the cell is on the board and unvisited |
| GameBoard.Board.CanMoveInDirection | src/game/Board.java:95-120 | true iff the move is legal by the rules |
| GameBoard.Board.GetPossibleMoves | src/game/Board.java:78-93 | exactly the legal directions in scan order, as Rules.PossibleMovesSpec describes |
| GameBoard.Board.IsGameOver | src/game/Board.java:62-64 | true iff no direction is legal |
| GameBoard.Board.ApplyMove | src/game/Board.java:122-152 | true iff the move is legal; then the board becomes the rules' result of the move, otherwise neither the fields nor the arrays change; the board stays valid either way |
| GameBoard.Board.Sweep | src/game/Board.java:141-147 | the sweep loop turns the board into its first L sweep steps |
| GameBoard.Board.EnterCell | src/game/Board.java:142-146 | one loop body: the player enters the cell, which becomes visited and zero |
| GameBoard.Board.View | src/game/Player.java:4-8 | the board the player reads is the board's current value |
| GameBoard.Board.CopyGrid | src/game/Board.java:179-187 | a fresh array holding the board's weights |
| Player12345.NextMove | src/players/Player12345.java:13-19 | definition of `nextMove` on a board value: the first possible move, or none; NextMoveSpec characterises it |
| Player12345.NextMoveOn | src/players/Player12345.java:13-19 | the move chosen on the board is the rules' choice, NextMove, on its value |
| Player12345.NextMoveSpec | src/players/Player12345.java:13-19 | null iff the game is over; otherwise a direction from the list that is legal, with no legal direction before it in scan order |
| Player12345.NextMoveAccepted | src/players/Player12345.java:13-19 | the chosen move is accepted by applyMove, keeps the invariant and visits a new cell |
| Referee.StripTrailingSlashes | src/game/Referee.java:80 | a prefix of the path that does not end in '/', and everything removed is '/' |
| Referee.FileName | src/game/Referee.java:80 | definition of `File.getName` on a path with '/' separators: what follows the last slash once trailing slashes are ignored; FileNameOf states it for dir + "/" + name |
| Referee.FileNameOf | src/game/Referee.java:80 | the file name of dir + "/" + name is name when name has no slash |
| Referee.ExtractBoardNumber | src/game/Referee.java:78-86 | the digits of the file name read as an int, or 0 when there are none or they exceed int range |
| Referee.JavaParseIntDigitsOrNone | src/game/Referee.java:82-85 | parsing a digit string fails only for the empty string or a value beyond int range |
| Referee.SnapshotPath | src/game/Referee.java:11-12 | definition of the snapshot file name from the student id and the board number |
| Referee.CellText | src/game/Referee.java:92-98 | definition of one cell's text; SnapshotCell is proved to write it and RowLayout gives its layout |
| Referee.RowLine | src/game/Referee.java:91-99 | definition of one row's line; RowLayout and RowLineHasNoBreak characterise it |
| Referee.RowsText | src/game/Referee.java:90-101 | definition of the rows text; RowsTextLines gives it as terminated lines |
| Referee.HeaderLine | src/game/Referee.java:89 | definition of the header line; HeaderLineHasNoBreak and BlockHeader characterise it |
| Referee.Block | src/game/Referee.java:88-103 | definition of what `saveSnapshot` writes; BlockLines reads it back as lines |
| Referee.SaveSnapshot | src/game/Referee.java:88-103 | the text written is the block of the board: header, one line per row, blank line |
| Referee.SnapshotRows | src/game/Referee.java:90-101 | the rows of the block, each ended by the line end |
| Referee.SnapshotRow | src/game/Referee.java:91-99 | the cells of one row |
| Referee.SnapshotCell | src/game/Referee.java:92-98 | "* " for the player, two spaces for a visited cell, otherwise the weight and a space |
| Referee.CellsTextLayout | src/game/Referee.java:91-99 | the first k cells of a row take 2k characters, two for each cell, in the layout of SnapshotCell |
| Referee.RowLayout | src/game/Referee.java:90-100 | each row line is 2 * size characters, two for each cell |
| Referee.RowLines | src/game/Referee.java:90-101 | the list of the first k row lines |
| Referee.RowsTextLines | src/game/Referee.java:90-101 | the rows text is the row lines, each followed by the line end |
| Referee.RowLineHasNoBreak | src/game/Referee.java:91-99 | no row line contains a line break |
| Referee.RowLinesHaveNoBreak | src/game/Referee.java:90-101 | no row line of a valid board contains a line break |
| Referee.HeaderLineHasNoBreak | src/game/Referee.java:89 | a header line contains no line break |
| Referee.BlockLines | src/game/Referee.java:88-103 | with "\n" as line end a block reads back as its header, its row lines, and two empty strings |
| Referee.Step | src/game/Referee.java:22-39 | definition of one loop iteration for the strategy's answer; StepSpec characterises it |
| Referee.StepSpec | src/game/Referee.java:22-39 | on a valid board a turn goes on iff the answer is a legal move, and then the board stays valid and of its size, counts one step and visits a new cell; a move that is not legal stops the loop as Invalid |
| Referee.Moves | src/game/Referee.java:21-44 | definition: every recorded board came from a turn that went on from the board before it |
| Referee.Played | src/game/Referee.java:10-52 | definition of what `playGame` does from a board under a strategy; PlayedSpec, PlayedUnique and PlayGame characterise it |
| Referee.Trace | src/game/Referee.java:17-43 | definition of the trace: the initial block and one block per move when snapshots are on, nothing otherwise |
| Referee.Blocks | src/game/Referee.java:41-43 | one snapshot block per board after a move |
| Referee.BlocksAt | src/game/Referee.java:41-43 | block k is the snapshot of board k with its step count |
| Referee.BlocksAppend | src/game/Referee.java:41-43 | one more board adds its block at the end |
| Referee.PlayGame | src/game/Referee.java:10-52 | the moves play out as the relation Played prescribes, the trace is the initial block then one block per move when snapshots are on and nothing otherwise, and the result is the final stepCount; the loop ends for every strategy |
| Referee.PlayTurn | src/game/Referee.java:21-39 | one loop iteration: a stop leaves the board unchanged with the matching reason; going on applies the rules' move and visits a new cell |
| Referee.RecordTurn | src/game/Referee.java:41-43 | after a turn that went on, the trace gains that step's block exactly when snapshots are on |
| Referee.TraceAppend | src/game/Referee.java:41-43 | a snapshot after a move adds that board's block to the trace |
| Referee.ProgressStep | src/game/Referee.java:21-44 | a turn that goes on extends the recorded boards by one |
| Referee.ProgressPlayed | src/game/Referee.java:21-44 | a turn that stops completes a session |
| Referee.MovesCount | src/game/Referee.java:21-44 | after k moves the board is valid, stepCount has grown by k and visitedCount by at least k |
| Referee.PlayedSpec | src/game/Referee.java:10-52 | a session ends as game over iff its final board has no legal move; board k has step count start + k + 1; a session makes at most size * size - visitedCount moves |
| Referee.MovesSize | src/game/Referee.java:21-44 | every board of a session has the start's size |
| Referee.MovesAgree | src/game/Referee.java:21-44 | two sessions from the same board under the same strategy agree on their first k boards |
| Referee.FollowAgree | src/game/Referee.java:21-44 | two board sequences each produced turn by turn from one board by the same successor rule agree on their first k boards |
| Referee.MovedAtOf | src/game/Referee.java:21-44 | each recorded board came from a legal move on the previous one |
| Referee.StopIsNoMove | src/game/Referee.java:21-39 | a turn that stops is not a turn that moves |
| Referee.PlayedUnique | src/game/Referee.java:10-52 | the session is determined by the starting board and the strategy |
| Referee.StopsBeforeMove | src/game/Referee.java:21-44 | a session that stopped is not shorter than another from the same start |
| Referee.TraceHeaders | src/game/Referee.java:41-43 | the block after move k is headed "Step K:" with K = start step count + k + 1 |
| Referee.BlockHeader | src/game/Referee.java:89 | a block after a move begins with the "Step N:" line |
| Referee.FirstMoveStrategy | src/players/Player12345.java:13-19 | definition of Player12345 as a strategy that never times out or throws |
| Referee.FirstMoveStrategyPlaysToTheEnd | src/players/Player12345.java:13-19 | driven by Player12345, a session always ends because the game is over |
| BoardGenerator.ValuesText | src/game/BoardGenerator.java:51-53 | definition of the first k weights of a grid line; ValuesTextJoin and ValuesTextChars characterise it |
| BoardGenerator.ValuesTextNext | src/game/BoardGenerator.java:51-53 | one more weight adds its text and then a space unless it is the line's last |
| BoardGenerator.RowText | src/game/BoardGenerator.java:50-54 | definition of one grid line; RowFields splits it back into its weights |
| BoardGenerator.BoardText | src/game/BoardGenerator.java:42-57 | definition of the board-file layout; BoardTextLines and BoardReadsBack characterise it |
| BoardGenerator.Fields | src/game/BoardGenerator.java:51-53 | one field per weight of a row |
| BoardGenerator.GridLines | src/game/BoardGenerator.java:50-55 | one line per grid row |
| BoardGenerator.ValuesTextJoin | src/game/BoardGenerator.java:51-53 | the first k weights of a row are their fields joined by spaces, with a trailing space unless the row is complete |
| BoardGenerator.RowFields | src/game/BoardGenerator.java:51-53 | a grid line splits at its spaces into one field per weight |
| BoardGenerator.ValuesTextChars | src/game/BoardGenerator.java:51-53 | a grid line contains only digits, '-' and spaces |
| BoardGenerator.GridTextLines | src/game/BoardGenerator.java:50-55 | the grid text is its lines, each followed by the line end |
| BoardGenerator.BoardTextLines | src/game/BoardGenerator.java:42-57 | a board file is its size line, its start line and its grid lines, each followed by the line end |
| BoardGenerator.BoardLinesHaveNoBreak | src/game/BoardGenerator.java:48-55 | no line of a board file contains a line break |
| BoardGenerator.BoardLines | src/game/BoardGenerator.java:42-57 | a board file split at "\n" is its lines followed by one empty string |
| BoardGenerator.BoardReadsBack | src/game/BoardGenerator.java:42-57 | a board file has size + 3 lines; the size, the start coordinates and every weight parse back to the values written |
| BoardGenerator.StartFields | src/game/BoardGenerator.java:49 | the start line splits into the two coordinates, which parse back |
| BoardGenerator.WeightRow | src/game/BoardGenerator.java:32-34 | one weight per draw |
| BoardGenerator.Weights | src/game/BoardGenerator.java:30-35 | a size x size grid of weights in 1..9 |
| BoardGenerator.BoardData.constructor | src/game/BoardGenerator.java:64-66 | the record holds the four arguments |
| BoardGenerator.GenerateRandomBoardData | src/game/BoardGenerator.java:28-40 | a fresh size x size array holding 1 + each draw, and the drawn start cell |
| BoardGenerator.SaveBoardData | src/game/BoardGenerator.java:42-57 | the file text is the board-file layout of the record's contents |
| BoardGenerator.SaveRows | src/game/BoardGenerator.java:50-55 | the grid lines of the record |
| BoardGenerator.SaveRow | src/game/BoardGenerator.java:51-54 | one grid line of the record |
| BoardGenerator.BoardFileName | src/game/BoardGenerator.java:18 | definition of the path "boards/board" + i + ".dat"; BoardFileNameComponent and BoardFileNumber read its name and number back |
| BoardGenerator.BoardFileNameComponent | src/game/BoardGenerator.java:18 | the file name of board i is "board" + i + ".dat" |
| BoardGenerator.KeepBoardDigits | src/game/BoardGenerator.java:18 | the digits of "board" + i + ".dat" are the digits of i |
| BoardGenerator.BoardFileNumber | src/game/BoardGenerator.java:18 | the referee reads the board number i back from the name of board i |
| BoardGenerator.GenerateBoards | src/game/BoardGenerator.java:12-26 | five files, file k named for board k + 1 and holding the board drawn for it |
| BoardGenerator.GeneratedBoards | src/game/BoardGenerator.java:12-26 | every generated file carries its board number for the referee and holds a board that reads back |
| InstanceGenerator.ParseArgs | src/game/InstanceGenerator.java:7-17 | definition of the argument check and the size parse; ParseArgsOfSize characterises it |
| InstanceGenerator.ParseArgsOfSize | src/game/InstanceGenerator.java:13-14 | arguments naming a file and giving a size as `Integer.toString` writes it ask for that file and that size |
| InstanceGenerator.ArgsWriteBoard | src/game/InstanceGenerator.java:7-38 | arguments for a positive size ask for that size, and the text generated for it is the board-file lines of the drawn board, which reads back |
| InstanceGenerator.GeneratedText | src/game/InstanceGenerator.java:19-38 | definition of the file text: the board-file layout for a positive size, the size line alone otherwise |
| InstanceGenerator.GenerateBoard | src/game/InstanceGenerator.java:19-38 | completes iff the size is at least 1; a completed file is the board-file layout of the drawn board, an incomplete one holds only the size line |
| InstanceGenerator.PrintRows | src/game/InstanceGenerator.java:28-34 | the grid lines of the drawn weights |
| InstanceGenerator.PrintRow | src/game/InstanceGenerator.java:29-32 | one grid line: each draw plus one, separated by spaces |
| InstanceGenerator.PrintCell | src/game/InstanceGenerator.java:30-31 | one cell: the draw plus one, then a space unless it is the last column |
| InstanceGenerator.Run | src/game/InstanceGenerator.java:7-17 | a file is written iff the arguments are enough and the size parses; it is named by the first argument and holds the generated text |
| InstanceGenerator.SameLayout | src/game/InstanceGenerator.java:19-38 | an instance file and the board file for the same board are the same lines, differing only in the line end, and the board reads back |
| Logger.GameLogger.constructor | src/game/GameLogger.java:10-13 | no moves and one fresh snapshot holding the board's weights |
| Logger.GameLogger.LogMove | src/game/GameLogger.java:15-19 | the direction is appended, then a fresh snapshot of the current weights; earlier snapshots are kept |
| Logger.GameLogger.SaveState | src/game/GameLogger.java:21-29 | a fresh snapshot of the current weights is appended; the earlier ones and the moves are kept |
| Logger.GameLogger.TakeSnapshot | src/game/GameLogger.java:22-27 | a fresh size x size array holding the board's weights |
| Logger.MoveAndLog | src/game/GameLogger.java:15-29 | a move then its log entry: accepted iff legal; the logged history gains one entry, and the snapshots taken earlier still hold the weights they had, although the move rewrites the board |

## Left out

- The executor and its timeouts, `INIT_TIMEOUT_SECONDS` and `MOVE_TIMEOUT_SECONDS` (Referee.java:7-8, 14, 22-33, 48): threads and clocks are not modelled. The strategy's answer includes the timeout and exception outcomes instead.
- `initializePlayer` (Referee.java:54-76): it loads a class by reflection under a timeout, which has no counterpart here.
- File and console I/O: writers become the text they receive; `mkdirs`, the snapshot and board files, and every `IOException` path are not modelled. `Referee.SnapshotPath` gives the snapshot file's name. `playGame` opens the snapshot writer even with snapshots off, and its `IOException` catch lies outside the loop (Referee.java:16, 45). So in Java a missing `snapshots/` directory skips the game, which then returns the board's unchanged step count (0 for a new board), and a failed write ends the game early. `Referee.PlayGame` plays every game as if the file opens and every write succeeds.
- `Random`: its draws are the inputs `Draws`; nothing is said about their distribution.
- `getCoveragePercentage` (Board.java:189-200): it uses floating point. Only the count of cells it divides by is modelled, in `Rules.Rect`.
- `printBoard` (Board.java:202-215), `GameLogger.printBoardState` with its sleep (GameLogger.java:31-55), the referee's error messages and the generators' "Generated"/usage lines: console output only.
- `isPathClear` (Board.java:154-165): no code path calls it.
- `PlayerTimeoutPrepare`, `PlayerTimeoutMove` and `Player67890`: they are other strategies. `PlayerTimeoutMove` sleeps past the move timeout from its fourth call on (PlayerTimeoutMove.java:14-22), which is the `TimedOut` answer of `Referee.Strategy`. `PlayerTimeoutPrepare` sleeps in its constructor, which runs under `initializePlayer` and is left out (see above); its `nextMove` returns null, the `NoMove` answer (PlayerTimeoutPrepare.java:6-18).
- The abstract base class `Player` (Player.java:3-16): it holds the board and declares `nextMove`. Its part is played by `Referee.Strategy` and `GameBoard.Board.View`.
- A strategy that mutates the board it was handed: the strategy receives the board as a value, so the aliasing of `player.board` between the player and the referee is not modelled.
- 32-bit arithmetic: board coordinates and counters are unbounded integers. A move's components are arbitrary ints, so for `Move(Integer.MAX_VALUE, 0)` Java's `playerRow + dRow` (Board.java:96, 126) wraps. Any wrapped sum is negative, so Java and the model both reject the move (`Rules.NeighbourTestIgnoresWrap`). The later sums are reached only when the neighbour is on the board, so each component is less than `size` in absolute value and, with weights of at most 9, the sums stay within ten times the size. The counters are bounded by the number of cells. `parseInt`'s range is modelled.
- GameBoard.Board.constructor: requires weights in 0..9, which the Java constructor does not check. The board files supply 1..9. With a negative weight, `applyMove` would accept a move that sweeps nothing, and the termination proof of the loop would not hold.
- GameBoard.Board.constructor: requires the grid to be exactly size x size, as an `array2`. Java also accepts an `int[][]` that is larger, using only its top-left size x size cells, and one whose rows alias one another. Through such aliasing, zeroing one cell zeroes others; the model does not capture that.
- BoardGenerator.GenerateRandomBoardData: takes `size` as a natural, and `DrawsFor` also demands start draws below `size`, so a size of 0 is excluded too. In Java a negative size makes `new int[size][size]` throw, and a size of 0 makes `rand.nextInt(0)` throw (BoardGenerator.java:30, 36). Neither path is modelled; `main` only ever passes 5.
- InstanceGenerator.GenerateBoard: for a size of 0 or less, models the exception as a file holding only the size line; the exception's escape from `main` is not modelled.
- InstanceGenerator.ParseArgs: `Integer.parseInt` reads any Unicode decimal digit (`Character.digit`), so Java accepts a size such as "１０" (full-width digits) and writes a board. The model parses ASCII digits only, rejects that size as unparsable, and writes no file; `InstanceGenerator.Run` inherits this. `Referee.ExtractBoardNumber` is not affected: `replaceAll("\\D+", "")` keeps only ASCII digits.
- InstanceGenerator.Run: writes no file for a size in non-ASCII decimal digits, where Java writes one (see the line above).
- Referee.FileName: treats only '/' as a separator, as `java.io.File` does on Unix. On Windows, '\\' separates too; there, "boards2\\board1.dat" gives board number 1 where the model gives 21.
- The `Move` class (Move.java:3-19) is the datatype `Rules.Move`; its getters are its fields.
