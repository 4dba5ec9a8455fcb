# Dobot tic-tac-toe, modelled in Dafny

A Dobot plotter arm plays tic-tac-toe on paper against a human. A camera and
a YOLO detector read the paper board. The robot decides its moves with an
exhaustive minimax search. The game loop checks each detection against the
last accepted board: it waits while nothing changed, it stops the game on
cheating, and it accepts a single new human mark on a free cell. The arm
draws the grid once at the start and then the robot's X or O in each cell
it picks.

The model has five modules:

- `TicTacToe` (`tictactoe.dfy`) is the decision engine:
  - the line scans `MovesLeft` and `Evaluate`;
  - the in-place `MinimaxSearch` and `EvaluateNextMove` over a 3x3 array, proved against the functions `Minimax` and `NextMove`;
  - `CheckWinner`;
  - the cell entry of the terminal game.
- `DetectGrid` (`detect_grid.dfy`) is the detection post-processing:
  - the class-id table;
  - the per-cell choice of the most confident detection, as an in-place loop over a 3x3 array;
  - the 180-degree turn of the board.
- `Dobot` (`dobot_grid.dfy`) is the calibration geometry of the arm, as a class `DobotGrid`:
  - the named reference points;
  - the inset cell corners built from a grid map;
  - the key guard of `move_to_point`;
  - the motion sequences of `draw_grid` and `draw_x`, as data.
- `Game` (`game.dfy`) is the orchestration in main.py:
  - turning a detection into a board, `count_diffs`, the winner, the robot's move with swapped tokens, and the drawing command;
  - the turn loop as a state machine. `Turn` is one pass as a function and `Run` is a sequence of passes. The class `Session` holds the loop variables and updates them in place: `Step` runs one pass and `Play` runs the loop. `Consistent` is an invariant that every pass keeps.
- `Wrappers` holds `Option`.

Camera frames, the quit key and the polling clock become inputs. Each pass
of the loop gets `seen` and `quitPressed`:

- `seen` is the detected board, or `None` when the 15-second polling interval has not elapsed.
- `quitPressed` says whether 'q' was read at the end of the pass.

Tokens are `X`, `O` and `Blank` for the source's 'x', 'o' and '_'. Detected
tokens are the strings "X", "O" and " ".

## Model

| member | source | states |
|---|---|---|
| TicTacToe.Set | main.py:222 | writing a token changes that one cell and leaves every other cell as it was |
| TicTacToe.EmptiesDrop | ticTacToe.py:36-37 | a trial token on a free cell lowers the number of free cells by one, which is why the search terminates |
| TicTacToe.MovesLeft | ticTacToe.py:3-7 | true exactly when some cell is '_' |
| TicTacToe.Evaluate | ticTacToe.py:10-23 | the score is 10, -10 or 0 |
| TicTacToe.EvaluateScansLines | ticTacToe.py:11-23 | 0 exactly when no line holds three equal tokens; otherwise the score of the first complete line in the order rows, columns, main diagonal, anti-diagonal: 10 for 'x', -10 for the other token |
| TicTacToe.EvaluateWitness | ticTacToe.py:12-22 | a nonzero score comes from a complete line of the token it scores |
| TicTacToe.EvaluateNonzero | ticTacToe.py:10-23 | 0 exactly when neither token has a line; 10 only with a line of 'x'; -10 only with a line of 'o' |
| TicTacToe.OneMoveLines | main.py:222 | on a board without lines, one token put on a cell can complete lines of that token only |
| TicTacToe.Minimax | ticTacToe.py:25-49 | the value is 10, 0 or -10 |
| TicTacToe.Scan | ticTacToe.py:32-49 | the running best of the search stays at -inf or +inf only until an empty cell has been tried; after that it is 10, 0 or -10 |
| TicTacToe.TryMove | ticTacToe.py:36-39 | writing a trial token, searching and resetting the cell leaves the board exactly as it was; the value is the search's value for the board with the token |
| TicTacToe.MinimaxSearch | ticTacToe.py:25-49 | the board comes back exactly as it was; the value equals the value of the board on entry, whatever the depth passed |
| TicTacToe.NextMove | ticTacToe.py:52-66 | the move is (-1, -1) or a free cell in 0..2 |
| TicTacToe.PickSpec | ticTacToe.py:56-64 | part way through the scan, the move held is (-1, -1) exactly when no earlier cell was free; otherwise it is a free earlier cell whose value is maximal and strictly above every free cell before it |
| TicTacToe.NextMoveSpec | ticTacToe.py:52-66 | (-1, -1) exactly when no '_' is left; otherwise a free cell in 0..2 whose value is maximal over all free cells and strictly above every earlier free cell in row-major order |
| TicTacToe.NextMoveTakesWin | ticTacToe.py:56-64 | when 'x' can win at once, the move chosen has value 10 |
| TicTacToe.NextMoveCompletesTopRow | ticTacToe.py:56-64 | with 'x' on (0,0) and (0,1) and (0,2) free, the move chosen is (0,2) |
| TicTacToe.EvaluateNextMove | ticTacToe.py:52-66 | the board comes back unchanged; the move is the one chosen for the board on entry |
| TicTacToe.CheckWinner | ticTacToe.py:76-84 | "Robot wins!" exactly for a score of 10 (a line of 'x'); "Human wins!" exactly for -10 (a line of 'o'); "It's a draw!" exactly for a full board with no line; otherwise None |
| TicTacToe.EnterMoveAsWritten | ticTacToe.py:110-118 | as written: rejected exactly when the row or column is outside -2..3; otherwise the cell is taken modulo 3, 'o' placed there if it is free, and a taken cell reported if it is not |
| TicTacToe.EnterMoveZeroWraps | ticTacToe.py:110-118 | as written, typing "0 0" on an empty board puts 'o' in the bottom-right cell |
| TicTacToe.EnterMove | ticTacToe.py:110-118 | corrected entry: it places 'o' exactly when the row and column are 1..3 and that cell is free, changing only that cell; it reports a taken cell exactly for an occupied cell in range; anything else is rejected |
| TicTacToe.EnterMoveAgrees | ticTacToe.py:112-118 | for rows and columns 1..3 the corrected entry and the entry as written agree |
| DetectGrid.TokenOf | detectGrid.py:11 | class 0 is "X", class 1 is "O", and every other class is " " |
| DetectGrid.ReverseNested | detectGrid.py:98-99 | the reversal keeps the number of rows |
| DetectGrid.ReverseNestedInvolution | detectGrid.py:98-99 | reversing the rows and each row twice gives any nested list back |
| DetectGrid.ReverseNestedRotates | detectGrid.py:98-99 | on a 3x3 board the reversal puts cell (2-r, 2-c) at (r, c) |
| DetectGrid.BestInSpec | detectGrid.py:55-65 | after the first n detections, a cell with none above -1.0 holds " "; otherwise it holds the token of the most confident detection in it, the earliest one among equals |
| DetectGrid.Tally | detectGrid.py:33-65 | the loop over the detections leaves each cell with the token the selection above gives |
| DetectGrid.ProcessFrame | detectGrid.py:28-77 | no result, or no boxes, gives the blank board; otherwise cell (r, c) holds the selected token of cell (2-r, 2-c) |
| DetectGrid.NoDetectionsBlank | detectGrid.py:44-49 | the early returns skip the reversal, and agree with the full path: the blank board turned is the blank board |
| DetectGrid.UndetectedCellBlank | detectGrid.py:33-34 | a cell that no detection falls in keeps " " and -1.0, however many detections there are |
| DetectGrid.EmptyFrameBlank | detectGrid.py:44-77 | with an empty detection list the full path also returns the blank board |
| Dobot.DigitsRoundTrip | dobotGrid.py:150 | the decimal digits `str` writes for a natural number read back as that number |
| Dobot.IntToStringReadsBack | dobotGrid.py:150 | `str(n)` reads back as n: only digits whose value is n for n >= 0; a "-" followed by digits whose value is -n for negative n |
| Dobot.CellNameInjective | dobotGrid.py:150-151 | for one-digit rows and columns, "G"+row+col is three characters starting with 'G', and two cells share a name exactly when they are the same cell |
| Dobot.PointKeys | dobotGrid.py:32-60 | the point table has exactly the 24 keys A1-A4, S1-S8, SI1-SI8 and SM1-SM4 |
| Dobot.RaisedLineEnds | dobotGrid.py:38-54 | each SIk is Sk with z larger by 20 and x, y and r the same |
| Dobot.SquareCorners | dobotGrid.py:33-36 | A1-A4 are the corners of the square of side 3d anchored at (x, y) |
| Dobot.PointsOnSquare | dobotGrid.py:38-59 | S1-S8 lie on the d-spaced lattice on the square's sides, away from its corners; SM1-SM4 lie on the lattice strictly inside |
| Dobot.GridLinesCrossSquare | dobotGrid.py:38-45 | the four grid lines run across the whole square at d and 2d from its sides, cutting it into nine d-by-d cells |
| Dobot.Inset | dobotGrid.py:88-93 | a cell has four corners, all at the drawing height and rotation |
| Dobot.AddEntry | dobotGrid.py:80-100 | an entry without four known corner keys leaves the grid as it was; a usable one adds its name and its "I" copy, and its cell becomes drawable at drawing height |
| Dobot.Apply | dobotGrid.py:77-103 | the loop over the grid map never removes a key |
| Dobot.ApplyAppend | dobotGrid.py:77-103 | running the loop over two lists of entries is running it over the first and then the second |
| Dobot.SkippedEntryIgnored | dobotGrid.py:78-103 | an entry without four known corner keys leaves the grid as the other entries make it |
| Dobot.GridKeys | dobotGrid.py:77-105 | the grid holds exactly the names of the usable entries and those names with "I" added |
| Dobot.GridEntry | dobotGrid.py:88-100 | a usable entry that no later entry overwrites gets its inset corners at drawing height; its "I" copy is the same corners 20 higher |
| Dobot.DobotGrid.constructor | dobotGrid.py:8-23 | the calibration constants (250, -80, -30, 0, 40, offset 5), with no points and no grid yet |
| Dobot.DobotGrid.GeneratePoints | dobotGrid.py:25-62 | the points become the table of the calibration constants; the grid is unchanged |
| Dobot.DobotGrid.GenerateGrid1 | dobotGrid.py:64-106 | fails without points and changes nothing; otherwise keeps the points and sets the grid to the loop's result over the grid map |
| Dobot.DobotGrid.MoveToPoint | dobotGrid.py:108-122 | "home" in any letter case goes home; another unknown key issues no motion; a known key issues one joint move to its point |
| Dobot.DobotGrid.Visit | dobotGrid.py:143-144 | visiting keys issues at most one motion per key |
| Dobot.DobotGrid.DrawGrid | dobotGrid.py:133-144 | whatever the points, draw_grid starts and ends at home and issues at most one motion per key of its sequence |
| Dobot.DobotGrid.CrossAt | dobotGrid.py:152-184 | no motion when the key or its "I" copy is missing or short; otherwise ten motions, home first and last and eight straight-line moves between |
| Dobot.DobotGrid.DrawX | dobotGrid.py:149-184 | no motion when the cell or its "I" copy is missing; otherwise ten motions that start and end at home with eight straight-line moves between them |
| Dobot.VisitAppend | dobotGrid.py:143-144 | visiting two key lists one after the other issues the motions of both in order |
| Dobot.PenStroke | dobotGrid.py:136-139 | one grid line is four joint moves: down 20 onto the first line end a, across to the second end b, and up 20 from b |
| Dobot.VisitStroke | dobotGrid.py:136-144 | visiting a raised end, its line end, the other line end and its raised copy is one pen stroke |
| Dobot.DrawGridStrokes | dobotGrid.py:133-144 | on any table whose raised ends are the line ends raised by 20, draw_grid is home, the strokes S1-S2, S3-S4, S5-S6 and S7-S8, and home |
| Dobot.DrawGridComplete | dobotGrid.py:133-147 | after generate_points, draw_grid skips no key and draws the four grid lines between home and home |
| Dobot.DrawXStrokes | dobotGrid.py:160-171 | on a drawable cell the pen goes straight down and up; the strokes at drawing height are the diagonals corner 0 to 3 and corner 1 to 2; travel between them stays raised |
| Dobot.DrawXMissingCell | dobotGrid.py:150-154 | draw_x on a cell that no usable grid-map entry created issues no motion |
| Dobot.DrawXBuiltCell | dobotGrid.py:150-171 | draw_x on a cell built from an entry that no later entry overwrites is drawable and issues ten motions |
| Game.ToCell | main.py:39 | "X" is 'x', "O" is 'o', and anything else is '_' |
| Game.DetectedToInternal | main.py:38-39 | the board keeps its shape; each cell is 'x' exactly for "X" and 'o' exactly for "O" |
| Game.ClassToCell | main.py:38-39 | from detector class to board cell: 0 is 'x', 1 is 'o', anything else is '_' |
| Game.CellAt | main.py:43-44 | the n-th cell visited by the nested loops is (n div 3, n mod 3) |
| Game.DiffsUptoOrdered | main.py:43-46 | the differences found so far are in row-major order |
| Game.DiffsUptoMembers | main.py:43-46 | the differences found so far are exactly the differing cells visited so far |
| Game.DiffsOrder | main.py:41-47 | the differences are in range and strictly in row-major order |
| Game.DiffsCells | main.py:41-47 | a cell is listed exactly when the two boards differ there |
| Game.DiffsEmpty | main.py:41-47 | the list is empty exactly when the boards are equal |
| Game.CountDiffs | main.py:41-47 | the loops return exactly the list of differences above |
| Game.WinnerFromEvaluate | main.py:49-54 | no winner exactly when the score is neither 10 nor -10; the robot exactly for 10 with robot 'x' or -10 with robot 'o'; the human exactly in the other two cases |
| Game.WinnerOwnsLine | main.py:49-54 | no winner exactly when no line is complete; the robot is reported only with a line of its token, the human only with a line of the other token |
| Game.SwapCell | main.py:59 | the swap keeps '_' and only '_' |
| Game.SwapBoard | main.py:59-60 | the swapped board has its free cells where the board has them |
| Game.SwapInvolution | main.py:59-60 | swapping twice gives the board back |
| Game.SwapMovesLeft | main.py:59-60 | swapping keeps whether a move is left |
| Game.SwapLines | main.py:59-60 | swapping keeps which lines are complete and swaps each line's token |
| Game.SwapFirstLine | main.py:59-61 | when line k is the first complete line, the swapped board's score is the negated score |
| Game.SwapNegatesFrom | main.py:59-61 | the scan from any line before which none is complete finds the negated score |
| Game.SwapNegates | main.py:56-62 | the swapped board's score is the negated score |
| Game.SwapSet | main.py:59-60 | putting a token on a cell and swapping is swapping and putting the swapped token on that cell |
| Game.NegBound | ticTacToe.py:33-49 | negating a bound swaps -inf and +inf and negates a value |
| Game.CombineNeg | ticTacToe.py:40-49 | the max over negated values is the negated min, and the other way round |
| Game.MinimaxSwap | main.py:56-62 | minimax on the swapped board for one side is minus minimax on the real board for the other side, so searching for 'x' on the swapped board is searching for 'o' on the real board |
| Game.ScanSwap | ticTacToe.py:32-49 | part way through the search, the running best on the swapped board is the negated running best for the other side |
| Game.RobotViewValue | main.py:56-62 | every move's value in the search the robot runs is what that move of the robot's own token is worth to the robot on the real board |
| Game.RobotMoveSpec | main.py:56-62 | (-1, -1) exactly when the board is full; otherwise a free cell of the real board whose value for the robot's token on the real board is maximal over all free cells and strictly above every free cell before it |
| Game.BestMoveForRobot | main.py:56-62 | the move is the search's choice on the board, swapped when the robot plays 'o'; the caller's board is a value and cannot change |
| Game.DrawSymbol | main.py:64-68 | an X exactly for 'x', an O otherwise, at row i+1 and column j+1 |
| Game.DrawSymbolCells | main.py:64-68 | each board cell is drawn on one of the grid-map cells G11-G33, and different board cells on different ones |
| Game.TokensFor | main.py:140-147 | the two tokens are distinct and not '_'; whoever goes first plays 'x' |
| Game.Reconcile | main.py:185-199 | wait exactly when nothing differs; cheating (1) exactly when more than one cell differs; any cheating code is 1 or 2; an accepted move is a changed cell in range that was free and now holds the human's token |
| Game.DiffsSingle | main.py:185-194 | a board changed in one cell lists that cell alone |
| Game.ReconcileWait | main.py:185-187 | the verdict is to wait exactly when the detection equals `previous` |
| Game.ReconcileAccept | main.py:193-203 | the move at (r, c) is accepted exactly when that cell of `previous` was free and the detection is `previous` with the human's token there and nothing else changed |
| Game.ReconcileTwoChanges | main.py:188-192 | changes in two cells are cheating (1) |
| Game.ReconcileBadChange | main.py:194-199 | a single change that overwrites a mark, or puts anything other than the human's token, is cheating (2) |
| Game.HumanPoll | main.py:185-205 | waiting leaves the state as it was; cheating ends the game as cheating with both boards unchanged; an accepted move makes the detection the board, keeps the old board as `previous`, gives the robot the move, and differs from the old `previous` in that one cell only |
| Game.HumanTurn | main.py:175-210 | the human's turn draws nothing and reads the quit key; without a detection nothing else changes, with one the state is the poll's |
| Game.RobotTurn | main.py:213-227 | `previous` becomes the board and the quit key is read; nothing is drawn exactly when the board is full, and then it is a draw on an unchanged board; otherwise the robot's token goes on the free cell the search picked, that symbol is drawn, and the human is to move |
| Game.Turn | main.py:153-230 | a pass draws only in the robot's turn, and then hands the move to the human with the game going on; a pass that does not end the game reads the quit key |
| Game.MarksSet | main.py:222 | a token on a free cell adds one mark of that token and leaves the other count alone |
| Game.EmptyBoardNoLine | main.py:127 | the starting board has no complete line |
| Game.StartConsistent | main.py:126-147 | the game starts in the invariant state, whoever goes first |
| Game.MoveKeepsLines | main.py:222 | one token on a board with no lines never gives both tokens a line |
| Game.RobotTurnPlays | main.py:213-227 | on a board neither won nor full, the robot's token goes on the free cell the search picked; that symbol is drawn; the human is to move; `previous` is the new board; the defensive draw cannot happen |
| Game.HumanTurnAccepts | main.py:194-203 | a detection with one new human mark on a free cell becomes the board, the old board becomes `previous`, and the robot is to move |
| Game.TerminalKeepsConsistent | main.py:157-172 | a pass that finds a win or a full board ends the game with the winner evaluate names, or a draw, changing nothing else and drawing nothing; the result matches the board |
| Game.HumanTurnWaits | main.py:175-187 | in the human's turn, no detection or one equal to `previous` leaves the state as it was apart from the quit key |
| Game.HumanTurnCheats | main.py:188-199 | in the human's turn, a detection judged as cheating ends the game with code 1 or 2, both boards unchanged, nothing drawn |
| Game.PlaceKeepsConsistent | main.py:213-227 | the mover's token on a free cell of a board without lines, with the turn handed over, keeps the invariant |
| Game.PollKeepsConsistent | main.py:185-205 | a human poll (wait, cheat or accept) keeps the invariant |
| Game.RobotKeepsConsistent | main.py:213-227 | the robot's move keeps the invariant |
| Game.TurnKeepsConsistent | main.py:153-230 | every pass keeps the invariant: tokens, `previous` in the human turn, the mark balance, no two winners, and the announced result |
| Game.MarksStay | main.py:153-230 | a pass of a consistent game never changes or erases a mark |
| Game.RunExtend | main.py:153-230 | one more pass of a running game extends the run by that pass's state and drawing |
| Game.RunStopped | main.py:153-230 | once the game is over or quit was pressed, later passes change nothing |
| Game.RunConsistent | main.py:153-230 | the invariant holds after any number of passes |
| Game.TurnDrawsRobotSymbol | main.py:219-222 | a pass draws, if anything, the robot's symbol on a cell 1..3 by 1..3 |
| Game.RunDrawsRobotSymbols | main.py:153-230 | every symbol drawn over a game is the robot's symbol on a cell 1..3 by 1..3 |
| Game.Session.constructor | main.py:126-147 | blank boards, the robot to move exactly when it goes first, the tokens from the choice, and the invariant holds |
| Game.Session.Step | main.py:153-230 | one pass updates the loop variables to the next state of `Turn` and returns its drawing; the invariant is kept |
| Game.Session.HumanPlays | main.py:175-210 | the human turn's update, with `count_diffs` run as a loop, is the next state of the human turn |
| Game.Session.RobotPlays | main.py:213-230 | the robot turn's update, with the search run in place on a copy, is the next state and drawing of the robot turn |
| Game.Session.Advance | main.py:153-230 | one iteration of the loop extends the run, and the invariant is kept |
| Game.Session.Play | main.py:152-230 | the loop ends in the final state of `Run` over the passes with its drawings, and the invariant holds |

## Left out

- FrameGrabber (main.py:70-109) is left out. It is a background thread with a lock; the model has no concurrency.
- Camera and UI are left out: `open_camera`, every `cv2` window and key call, `show_board`, all printing, and the `input()` prompts. The first player is a constructor parameter; the 'q' key is the `quitPressed` input of a pass. The loop that repeats the prompt until "robot" or "human" is typed is not modelled.
- The polling clock (main.py:176-178) and `move_to_intermediate` are left out. An elapsed interval is a pass whose `seen` holds the detected board.
- `model.predict`, box extraction, the annotated frame and `save_debug_image` are left out. A detection is given as its grid cell, class id and confidence.
- `_cell_index_from_center` (detectGrid.py:14-18) is left out because it is floating point. Each detection carries its (row, col) already.
- Confidences are Dafny `real`s, not floating point.
- DetectGrid.Tally: requires every detection's cell in 0..2. The clamping in `_cell_index_from_center` guarantees that in the source.
- `draw_o`, `calculate_center` and `radius` (dobotGrid.py:20, 186-214) are left out because they use float division and trigonometry. An O is modelled only as the drawing command `DrawO(row, col)`.
- The pydobot calls (`move_to`, `home`, `speed`, `close`) and every `time.sleep` are left out. Motions are returned as data: `Home`, `MoveJ` for `MOVJ_XYZ`, `MoveL` for `MOVL_XYZ`.
- The JSON read of `generate_grid1` is left out. The grid map is a parameter, listed as entries in file order with distinct names, as a JSON object gives them.
- main.py:115 calls `generate_grid`, which dobotGrid.py does not define (only `generate_grid1`). The call is not modelled; `Dobot.DobotGrid.GenerateGrid1` stands for it.
- Dobot.Lower: lower-cases ASCII letters only, not the Unicode case mapping of `str.lower`.
- Dobot.DobotGrid.DrawX: a grid entry with fewer than four corners gives no motion, where the source would raise IndexError. `generate_grid1` never builds such an entry.
- The robot's move writes `current[i][j]` in place in the source. The model reassigns the board value, which is the same as long as no other name shares that list. In the source, `previous` is always a deep copy.
- `evaluate_next_move` on the empty board (the robot's first move) is not computed concretely. Its properties are proved for every board.
- The defensive draw of main.py:215-218 is kept as written, and `Game.RobotTurnPlays` proves it never fires. The terminal check runs first, so the board is never full there, and the search then always finds a move.
- dobotGrid_stubbings.py is not part of this model: it is a print-only stand-in for the arm.
- The terminal game's input parsing (ticTacToe.py:111-112) is left out. The row and column arrive as integers, and a line that does not parse is not modelled.

## Findings

| source | as written | input that shows it | evidently intended | confidence | as-written member | corrected member |
|---|---|---|---|---|---|---|
| ticTacToe.py:112-118 | the 1-based row and column are lowered by one and used directly as list indices, so 0, -1 and -2 become the negative indices -1, -2, -3 and address the last rows and columns instead of raising IndexError | typing "0 0" on an empty board puts 'o' in the bottom-right cell | only rows and columns 1..3 are accepted; anything else is an invalid entry | not executed | TicTacToe.EnterMoveZeroWraps | TicTacToe.EnterMove |
