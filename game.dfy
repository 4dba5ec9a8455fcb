/**
 * Game orchestration of main.py: how a detected board becomes an internal
 * board, how a new detection is reconciled with the last accepted board,
 * who won, the robot's move with swapped tokens when it plays 'o', the
 * drawing command, and the turn loop as a state machine.
 */
module Game {
  import opened Wrappers
  import opened TicTacToe
  import DetectGrid
  import Dobot

  // ---------------------------------------------------------------------------
  // detected_to_internal
  // ---------------------------------------------------------------------------

  /** A detected token as a board cell: "X" is 'x', "O" is 'o', anything else is '_'. */
  function ToCell(s: string): (c: Cell)
    ensures c == X <==> s == "X"
    ensures c == O <==> s == "O"
    ensures c == Blank <==> s != "X" && s != "O"
  {
    if s == "X" then X else if s == "O" then O else Blank
  }

  /** detected_to_internal: the detected board cell by cell, same shape. */
  function DetectedToInternal(g: DetectGrid.Grid): (b: Board)
    ensures forall i, j :: 0 <= i < 3 && 0 <= j < 3 ==>
      (b[i][j] == X <==> g[i][j] == "X") && (b[i][j] == O <==> g[i][j] == "O")
  {
    seq(3, i requires 0 <= i < 3 => seq(3, j requires 0 <= j < 3 => ToCell(g[i][j])))
  }

  /**
   * From class id to board cell: a detection of class 0 becomes 'x', of class
   * 1 becomes 'o', and of any other class '_'.
   */
  lemma ClassToCell(classId: int)
    ensures ToCell(DetectGrid.TokenOf(classId)) == (if classId == 0 then X else if classId == 1 then O else Blank)
  {
  }

  // ---------------------------------------------------------------------------
  // count_diffs
  // ---------------------------------------------------------------------------

  /** The cell visited n-th by the nested loops over rows and columns. */
  function CellAt(n: nat): (p: (int, int))
    requires n < 9
    ensures 0 <= p.0 < 3 && 0 <= p.1 < 3 && 3 * p.0 + p.1 == n
  {
    if n < 3 then (0, n) else if n < 6 then (1, n - 3) else (2, n - 6)
  }

  /** The cells among the first n visited where a and b differ, in visiting order. */
  function DiffsUpto(a: Board, b: Board, n: nat): seq<(int, int)>
    requires n <= 9
  {
    if n == 0 then []
    else
      var p := CellAt(n - 1);
      DiffsUpto(a, b, n - 1) + (if a[p.0][p.1] != b[p.0][p.1] then [p] else [])
  }

  /** count_diffs: every cell where a and b differ, in row-major order. */
  function Diffs(a: Board, b: Board): seq<(int, int)>
  {
    DiffsUpto(a, b, 9)
  }

  /** Cells listed in range and in strictly increasing row-major order. */
  predicate RowMajor(d: seq<(int, int)>)
  {
    && (forall k | 0 <= k < |d| :: 0 <= d[k].0 < 3 && 0 <= d[k].1 < 3)
    && (forall k, l | 0 <= k < l < |d| :: Before(d[k].0, d[k].1, d[l].0, d[l].1))
  }

  /** The loops reach cell (p, q) at step 3 * p + q. */
  lemma CellAtIndex(p: int, q: int)
    requires 0 <= p < 3 && 0 <= q < 3
    ensures CellAt(3 * p + q) == (p, q)
  {
  }

  /** Every cell of d is on the board and among the first n visited. */
  predicate VisitedBefore(d: seq<(int, int)>, n: int)
  {
    forall k | 0 <= k < |d| :: 0 <= d[k].0 < 3 && 0 <= d[k].1 < 3 && 3 * d[k].0 + d[k].1 < n
  }

  /** The cells of d come in strictly increasing visiting order. */
  predicate Increasing(d: seq<(int, int)>)
  {
    forall k, l | 0 <= k < l < |d| :: 3 * d[k].0 + d[k].1 < 3 * d[l].0 + d[l].1
  }

  /** The cells listed so far are in range, among the first n visited, and in visiting order. */
  lemma {:induction false} DiffsUptoOrdered(a: Board, b: Board, n: nat)
    requires n <= 9
    ensures VisitedBefore(DiffsUpto(a, b, n), n) && Increasing(DiffsUpto(a, b, n))
  {
    if n > 0 {
      DiffsUptoOrdered(a, b, n - 1);
      var d0 := DiffsUpto(a, b, n - 1);
      var c := CellAt(n - 1);
      if a[c.0][c.1] != b[c.0][c.1] {
        var d := d0 + [c];
        assert d == DiffsUpto(a, b, n);
        forall k, l | 0 <= k < l < |d|
          ensures 3 * d[k].0 + d[k].1 < 3 * d[l].0 + d[l].1
        {
          if l == |d0| {
            assert d[l] == c && d[k] == d0[k];
          } else {
            assert d[l] == d0[l] && d[k] == d0[k];
          }
        }
      }
    }
  }

  /** Each of the first n cells visited is listed exactly when the boards differ there. */
  lemma {:induction false} DiffsUptoMembers(a: Board, b: Board, n: nat)
    requires n <= 9
    ensures forall p, q | 0 <= p < 3 && 0 <= q < 3 && 3 * p + q < n :: (p, q) in DiffsUpto(a, b, n) <==> a[p][q] != b[p][q]
  {
    if n > 0 {
      DiffsUptoMembers(a, b, n - 1);
      DiffsUptoOrdered(a, b, n - 1);
      var d0 := DiffsUpto(a, b, n - 1);
      var c := CellAt(n - 1);
      var d := DiffsUpto(a, b, n);
      if a[c.0][c.1] != b[c.0][c.1] {
        assert d == d0 + [c];
        assert c in d;
      } else {
        assert d == d0;
        forall k | 0 <= k < |d0|
          ensures d0[k] != c
        {
        }
      }
      forall p, q | 0 <= p < 3 && 0 <= q < 3 && 3 * p + q < n
        ensures (p, q) in d <==> a[p][q] != b[p][q]
      {
        if 3 * p + q == n - 1 {
          assert (p, q) == c;
        } else {
          assert (p, q) != c;
        }
      }
    }
  }

  /** count_diffs lists cells of the board, each once, in row-major order. */
  lemma DiffsOrder(a: Board, b: Board)
    ensures RowMajor(Diffs(a, b))
  {
    DiffsUptoOrdered(a, b, 9);
    var d := Diffs(a, b);
    forall k, l | 0 <= k < l < |d|
      ensures Before(d[k].0, d[k].1, d[l].0, d[l].1)
    {
    }
  }

  /** count_diffs lists a cell exactly when the two boards differ there. */
  lemma DiffsCells(a: Board, b: Board)
    ensures forall p, q | 0 <= p < 3 && 0 <= q < 3 :: (p, q) in Diffs(a, b) <==> a[p][q] != b[p][q]
  {
    DiffsUptoMembers(a, b, 9);
  }

  /** count_diffs is empty exactly when the boards are equal. */
  lemma DiffsEmpty(a: Board, b: Board)
    ensures |Diffs(a, b)| == 0 <==> a == b
  {
    DiffsCells(a, b);
    DiffsOrder(a, b);
    var d := Diffs(a, b);
    if |d| == 0 {
      BoardExt(a, b);
    } else {
      assert d[0] in d;
    }
  }

  /**
   * count_diffs: nested loops over rows and columns append each cell where
   * the boards differ.
   */
  method CountDiffs(a: Board, b: Board) returns (diffs: seq<(int, int)>)
    ensures diffs == Diffs(a, b)
  {
    diffs := [];
    for i := 0 to 3
      invariant diffs == DiffsUpto(a, b, 3 * i)
    {
      for j := 0 to 3
        invariant diffs == DiffsUpto(a, b, 3 * i + j)
      {
        CellAtIndex(i, j);
        if a[i][j] != b[i][j] {
          diffs := diffs + [(i, j)];
        }
      }
    }
  }

  // ---------------------------------------------------------------------------
  // winner_from_evaluate
  // ---------------------------------------------------------------------------

  datatype Player = Robot | Human

  /** The token other than t: 'x' and 'o' trade places. */
  function Other(t: Cell): Cell
  {
    if t == X then O else if t == O then X else Blank
  }

  /** winner_from_evaluate: who owns the line evaluate found, if any. */
  function WinnerFromEvaluate(val: int, robotToken: Cell): (w: Option<Player>)
    ensures w.None? <==> val != 10 && val != -10
    ensures w == Some(Robot) <==> (val == 10 && robotToken == X) || (val == -10 && robotToken == O)
    ensures w == Some(Human) <==> (val == 10 && robotToken != X) || (val == -10 && robotToken != O)
  {
    if val == 10 then Some(if robotToken == X then Robot else Human)
    else if val == -10 then Some(if robotToken == O then Robot else Human)
    else None
  }

  /**
   * On any board, the winner reported is None exactly when no line is
   * complete; the robot is reported only with a complete line of its token,
   * the human only with one of the other token.
   */
  lemma WinnerOwnsLine(b: Board, robotToken: Cell)
    requires robotToken == X || robotToken == O
    ensures var w := WinnerFromEvaluate(Evaluate(b), robotToken);
      && (w == None <==> !HasLine(b, X) && !HasLine(b, O))
      && (w == Some(Robot) ==> HasLine(b, robotToken))
      && (w == Some(Human) ==> HasLine(b, Other(robotToken)))
  {
    EvaluateNonzero(b);
  }

  // ---------------------------------------------------------------------------
  // best_move_for_robot
  // ---------------------------------------------------------------------------

  function SwapCell(c: Cell): (d: Cell)
    ensures d == Blank <==> c == Blank
  {
    match c
    case X => O
    case O => X
    case Blank => Blank
  }

  /** The board with 'x' and 'o' exchanged and '_' kept. */
  function SwapBoard(b: Board): (r: Board)
    ensures forall i, j :: 0 <= i < 3 && 0 <= j < 3 ==> (r[i][j] == Blank <==> b[i][j] == Blank)
  {
    seq(3, i requires 0 <= i < 3 => seq(3, j requires 0 <= j < 3 => SwapCell(b[i][j])))
  }

  /** Swapping twice gives the board back. */
  lemma SwapInvolution(b: Board)
    ensures SwapBoard(SwapBoard(b)) == b
  {
    var s := SwapBoard(SwapBoard(b));
    forall i, j | 0 <= i < 3 && 0 <= j < 3 ensures s[i][j] == b[i][j] {
      assert SwapCell(SwapCell(b[i][j])) == b[i][j];
    }
    BoardExt(s, b);
  }

  /** Swapping keeps the free cells. */
  lemma SwapMovesLeft(b: Board)
    ensures MovesLeft(SwapBoard(b)) == MovesLeft(b)
  {
    var s := SwapBoard(b);
    if MovesLeft(b) {
      var i, j :| 0 <= i < 3 && 0 <= j < 3 && b[i][j] == Blank;
      assert s[i][j] == Blank;
    }
    if MovesLeft(s) {
      var i, j :| 0 <= i < 3 && 0 <= j < 3 && s[i][j] == Blank;
      assert b[i][j] == Blank;
    }
  }

  /** Swapping keeps which lines are complete and swaps the token each one is made of. */
  lemma SwapLines(b: Board)
    ensures forall k :: 0 <= k < 8 ==> Complete(SwapBoard(b), k) == Complete(b, k)
    ensures forall k :: 0 <= k < 8 ==> LineAt(SwapBoard(b), k, 0) == SwapCell(LineAt(b, k, 0))
  {
    var s := SwapBoard(b);
    forall k, m | 0 <= k < 8 && 0 <= m < 3
      ensures LineAt(s, k, m) == SwapCell(LineAt(b, k, m))
    {
    }
    forall x: Cell, y: Cell, z: Cell
      ensures Three(SwapCell(x), SwapCell(y), SwapCell(z)) == Three(x, y, z)
    {
    }
  }

  /** When line k is the first complete one, the swapped board scores it with the opposite sign. */
  lemma SwapFirstLine(b: Board, k: int)
    requires 0 <= k < 8 && Complete(b, k) && forall k' :: 0 <= k' < k ==> !Complete(b, k')
    ensures Evaluate(SwapBoard(b)) == -Evaluate(b)
  {
    SwapLines(b);
    EvaluateScansLines(b);
    EvaluateScansLines(SwapBoard(b));
    assert Score(SwapCell(LineAt(b, k, 0))) == -Score(LineAt(b, k, 0));
  }

  /** Scanning the lines from k on, with none complete before k, finds the score flipped. */
  lemma {:induction false} SwapNegatesFrom(b: Board, k: int)
    requires 0 <= k <= 8 && forall k' :: 0 <= k' < k ==> !Complete(b, k')
    ensures Evaluate(SwapBoard(b)) == -Evaluate(b)
    decreases 8 - k
  {
    if k == 8 {
      SwapLines(b);
      EvaluateScansLines(b);
      EvaluateScansLines(SwapBoard(b));
    } else if Complete(b, k) {
      SwapFirstLine(b, k);
    } else {
      SwapNegatesFrom(b, k + 1);
    }
  }

  /** Swapping turns the first complete line of one token into one of the other: the score flips sign. */
  lemma SwapNegates(b: Board)
    ensures Evaluate(SwapBoard(b)) == -Evaluate(b)
  {
    SwapNegatesFrom(b, 0);
  }

  /** Putting t on a cell and swapping is swapping and putting the swapped t there. */
  lemma SwapSet(b: Board, i: int, j: int, t: Cell)
    requires 0 <= i < 3 && 0 <= j < 3
    ensures SwapBoard(Set(b, i, j, t)) == Set(SwapBoard(b), i, j, SwapCell(t))
  {
    var l, r := SwapBoard(Set(b, i, j, t)), Set(SwapBoard(b), i, j, SwapCell(t));
    forall p, q | 0 <= p < 3 && 0 <= q < 3
      ensures l[p][q] == r[p][q]
    {
    }
    BoardExt(l, r);
  }

  /** A bound seen from the other side: -inf and +inf trade places and a value changes sign. */
  function NegBound(x: Bound): (y: Bound)
    ensures x.Val? <==> y.Val?
    ensures x.Val? ==> y.v == -x.v
    ensures x == NegInf <==> y == PosInf
  {
    match x
    case NegInf => PosInf
    case PosInf => NegInf
    case Val(v) => Val(-v)
  }

  /** max over negated values is the negated min, and the other way round. */
  lemma CombineNeg(m: bool, x: Bound, v: int)
    ensures Combine(m, NegBound(x), -v) == NegBound(Combine(!m, x, v))
  {
  }

  /**
   * The search is symmetric: minimax on the swapped board for one side is
   * minus minimax on the real board for the other side.
   */
  lemma {:induction false} MinimaxSwap(b: Board, m: bool)
    ensures Minimax(SwapBoard(b), m) == -Minimax(b, !m)
    decreases Empties(b), 1, 0, 0
  {
    SwapNegates(b);
    SwapMovesLeft(b);
    var score := Evaluate(b);
    if score != 10 && score != -10 && MovesLeft(b) {
      ScanSwap(b, m, 3, 0);
      var p, q :| 0 <= p < 3 && 0 <= q < 3 && b[p][q] == Blank;
      assert Before(p, q, 3, 0);
    }
  }

  /** The accumulator of the search on the swapped board is the negated accumulator for the other side. */
  lemma {:induction false} ScanSwap(b: Board, m: bool, i: nat, j: nat)
    requires i <= 3 && j <= 3
    ensures Scan(SwapBoard(b), m, i, j) == NegBound(Scan(b, !m, i, j))
    decreases Empties(b), 0, i, j
  {
    if j == 0 {
      if i > 0 {
        ScanSwap(b, m, i - 1, 3);
      }
    } else if i == 3 {
      ScanSwap(b, m, i, j - 1);
    } else {
      ScanSwap(b, m, i, j - 1);
      var sb := SwapBoard(b);
      assert sb[i][j - 1] == SwapCell(b[i][j - 1]);
      if b[i][j - 1] == Blank {
        var b' := Set(b, i, j - 1, Mark(!m));
        EmptiesDrop(b, i, j - 1, Mark(!m));
        SwapSet(b, i, j - 1, Mark(!m));
        assert SwapCell(Mark(!m)) == Mark(m);
        MinimaxSwap(b', !m);
        assert !!m == m;
        CombineNeg(m, Scan(b, !m, i, j - 1), Minimax(b', m));
      }
    }
  }

  /** The board the search sees: as is for robot 'x', swapped for robot 'o'. */
  function RobotView(b: Board, robotToken: Cell): Board
  {
    if robotToken == X then b else SwapBoard(b)
  }

  /** Row and column of the robot's choice, both 0 or more once the board has a free cell. */
  function RobotMoveRow(b: Board, robotToken: Cell): int
  {
    NextMove(RobotView(b, robotToken)).0
  }

  function RobotMoveCol(b: Board, robotToken: Cell): int
  {
    NextMove(RobotView(b, robotToken)).1
  }

  /**
   * What putting the robot's token on (p, q) of the real board is worth to
   * the robot, the opponent replying: minimax with 'x' to play next
   * for robot 'x', minus minimax with 'x' to reply for robot 'o'.
   */
  function RobotMoveValue(b: Board, robotToken: Cell, p: int, q: int): int
    requires 0 <= p < 3 && 0 <= q < 3
  {
    if robotToken == X then Minimax(Set(b, p, q, X), false) else -Minimax(Set(b, p, q, O), true)
  }

  /** Searching for 'x' on the swapped board values each move as the robot's 'o' on the real board. */
  lemma RobotViewValue(b: Board, robotToken: Cell, p: int, q: int)
    requires 0 <= p < 3 && 0 <= q < 3
    ensures MoveValue(RobotView(b, robotToken), p, q) == RobotMoveValue(b, robotToken, p, q)
  {
    if robotToken != X {
      SwapSet(b, p, q, O);
      MinimaxSwap(Set(b, p, q, O), false);
    }
  }

  /**
   * The robot's choice is (-1, -1) exactly when the board is full; otherwise
   * it is an empty cell of the real board, the best one for the robot's
   * token there, and strictly better than every empty cell before it.
   */
  lemma RobotMoveSpec(b: Board, robotToken: Cell)
    ensures NextMove(RobotView(b, robotToken)) == (-1, -1) <==> !MovesLeft(b)
    ensures MovesLeft(b) ==>
      (0 <= RobotMoveRow(b, robotToken) < 3 && 0 <= RobotMoveCol(b, robotToken) < 3
       && b[RobotMoveRow(b, robotToken)][RobotMoveCol(b, robotToken)] == Blank)
    ensures MovesLeft(b) ==> forall p, q :: 0 <= p < 3 && 0 <= q < 3 && b[p][q] == Blank ==>
      MoveValue(RobotView(b, robotToken), p, q)
        <= MoveValue(RobotView(b, robotToken), RobotMoveRow(b, robotToken), RobotMoveCol(b, robotToken))
    ensures MovesLeft(b) ==> forall p, q :: 0 <= p < 3 && 0 <= q < 3 && b[p][q] == Blank ==>
      RobotMoveValue(b, robotToken, p, q)
        <= RobotMoveValue(b, robotToken, RobotMoveRow(b, robotToken), RobotMoveCol(b, robotToken))
    ensures MovesLeft(b) ==> forall p, q ::
      (0 <= p < 3 && 0 <= q < 3 && b[p][q] == Blank && Before(p, q, RobotMoveRow(b, robotToken), RobotMoveCol(b, robotToken))) ==>
      RobotMoveValue(b, robotToken, p, q)
        < RobotMoveValue(b, robotToken, RobotMoveRow(b, robotToken), RobotMoveCol(b, robotToken))
  {
    var v := RobotView(b, robotToken);
    NextMoveSpec(v);
    SwapMovesLeft(b);
    if MovesLeft(b) {
      var i, j := RobotMoveRow(b, robotToken), RobotMoveCol(b, robotToken);
      assert v[i][j] == Blank;
      RobotViewValue(b, robotToken, i, j);
      forall p, q | 0 <= p < 3 && 0 <= q < 3 && b[p][q] == Blank
        ensures RobotMoveValue(b, robotToken, p, q) == MoveValue(v, p, q)
        ensures v[p][q] == Blank
      {
        RobotViewValue(b, robotToken, p, q);
      }
    }
  }

  /**
   * best_move_for_robot: the search runs on a fresh copy of the board,
   * swapped when the robot plays 'o', so the caller's board is untouched
   * and the search always maximises the robot's token.
   */
  method BestMoveForRobot(board: Board, robotToken: Cell) returns (move: (int, int))
    ensures move == NextMove(RobotView(board, robotToken))
  {
    var view := if robotToken == X then board else SwapBoard(board);
    var a := new Cell[3, 3]((i, j) requires 0 <= i < 3 && 0 <= j < 3 => view[i][j]);
    BoardExt(Cells(a), view);
    move := EvaluateNextMove(a);
  }

  // ---------------------------------------------------------------------------
  // draw_symbol
  // ---------------------------------------------------------------------------

  /** A drawing command sent to the arm, with 1-based cell coordinates. */
  datatype Drawing = DrawX(row: int, col: int) | DrawO(row: int, col: int)

  /** draw_symbol: an X for 'x', an O for any other token, one row and column up. */
  function DrawSymbol(token: Cell, i: int, j: int): (d: Drawing)
    ensures d.DrawX? <==> token == X
    ensures d.row == i + 1 && d.col == j + 1
  {
    if token == X then DrawX(i + 1, j + 1) else DrawO(i + 1, j + 1)
  }

  /**
   * The board cells map onto the grid-map cells G11 to G33: each drawing on
   * a board cell names a distinct grid-map cell.
   */
  lemma DrawSymbolCells(t1: Cell, i1: int, j1: int, t2: Cell, i2: int, j2: int)
    requires 0 <= i1 < 3 && 0 <= j1 < 3 && 0 <= i2 < 3 && 0 <= j2 < 3
    ensures 1 <= DrawSymbol(t1, i1, j1).row <= 3 && 1 <= DrawSymbol(t1, i1, j1).col <= 3
    ensures Dobot.CellName(DrawSymbol(t1, i1, j1).row, DrawSymbol(t1, i1, j1).col)
        == Dobot.CellName(DrawSymbol(t2, i2, j2).row, DrawSymbol(t2, i2, j2).col)
      <==> i1 == i2 && j1 == j2
  {
    var d1, d2 := DrawSymbol(t1, i1, j1), DrawSymbol(t2, i2, j2);
    Dobot.CellNameInjective(d1.row, d1.col, d2.row, d2.col);
  }

  // ---------------------------------------------------------------------------
  // The game loop of main
  // ---------------------------------------------------------------------------

  /** How the game ended, or that it goes on. */
  datatype Status = Playing | Won(winner: Player) | Draw | Cheater(code: int)

  /**
   * The loop variables of main: the accepted board, the board the next
   * detection is compared with, whose turn it is, whether the game is over,
   * whether the quit key was seen, and the result announced.
   */
  datatype State = State(current: Board, previous: Board, robotMove: bool, gameOver: bool, quit: bool, status: Status)

  /** The (robot, human) tokens: 'x' goes to whoever moves first. */
  function TokensFor(first: Player): (t: (Cell, Cell))
    ensures t.0 != Blank && t.1 != Blank && t.0 != t.1
    ensures t.0 == X <==> first.Robot?
    ensures t.1 == X <==> first.Human?
  {
    if first == Robot then (X, O) else (O, X)
  }

  /** The state before the first pass: a blank board, and the robot to move iff it goes first. */
  function Start(first: Player): State
  {
    State(EmptyBoard, EmptyBoard, first == Robot, false, false, Playing)
  }

  /** The outcome of comparing a detection with the last accepted board. */
  datatype Verdict = Wait | Accept(row: int, col: int) | Cheat(code: int)

  /**
   * The checks of the human turn: no change means wait, more than one
   * changed cell is cheating (1), and a single change must put the human's
   * token on a free cell, or it is cheating (2).
   */
  function Reconcile(previous: Board, detected: Board, humanToken: Cell): (v: Verdict)
    ensures v.Wait? <==> |Diffs(previous, detected)| == 0
    ensures v == Cheat(1) <==> |Diffs(previous, detected)| > 1
    ensures v.Cheat? ==> v.code == 1 || v.code == 2
    ensures v.Accept? ==> 0 <= v.row < 3 && 0 <= v.col < 3 && previous[v.row][v.col] == Blank
                          && detected[v.row][v.col] == humanToken && previous[v.row][v.col] != detected[v.row][v.col]
  {
    var diffs := Diffs(previous, detected);
    if |diffs| == 0 then Wait
    else if |diffs| > 1 then Cheat(1)
    else
      DiffsOrder(previous, detected);
      DiffsCells(previous, detected);
      var (ri, rj) := diffs[0];
      assert (ri, rj) in diffs;
      if previous[ri][rj] != Blank || detected[ri][rj] != humanToken then Cheat(2)
      else Accept(ri, rj)
  }

  /** A board that differs from b in one cell only lists that cell alone. */
  lemma DiffsSingle(b: Board, r: int, c: int, t: Cell)
    requires 0 <= r < 3 && 0 <= c < 3 && t != b[r][c]
    ensures Diffs(b, Set(b, r, c, t)) == [(r, c)]
  {
    var d := Diffs(b, Set(b, r, c, t));
    DiffsOrder(b, Set(b, r, c, t));
    assert |d| >= 2 ==> Before(d[0].0, d[0].1, d[1].0, d[1].1);
    DiffsCells(b, Set(b, r, c, t));
    assert (r, c) in d;
    forall k | 0 <= k < |d|
      ensures d[k] == (r, c)
    {
      assert d[k] in d;
    }
    assert d == [(r, c)];
  }

  /** Nothing changed on the paper exactly when the verdict is to wait. */
  lemma ReconcileWait(previous: Board, detected: Board, humanToken: Cell)
    ensures Reconcile(previous, detected, humanToken) == Wait <==> previous == detected
  {
    DiffsEmpty(previous, detected);
  }

  /**
   * An accepted move is the human's token on a cell that was free, with
   * every other cell as before; and every such move is accepted.
   */
  lemma ReconcileAccept(previous: Board, detected: Board, humanToken: Cell, r: int, c: int)
    ensures Reconcile(previous, detected, humanToken) == Accept(r, c) <==>
      (0 <= r < 3 && 0 <= c < 3 && previous[r][c] == Blank && humanToken != Blank
       && detected == Set(previous, r, c, humanToken))
  {
    if 0 <= r < 3 && 0 <= c < 3 && previous[r][c] == Blank && humanToken != Blank
       && detected == Set(previous, r, c, humanToken) {
      DiffsSingle(previous, r, c, humanToken);
    }
    if Reconcile(previous, detected, humanToken) == Accept(r, c) {
      var d := Diffs(previous, detected);
      DiffsCells(previous, detected);
      DiffsOrder(previous, detected);
      assert d == [(r, c)];
      var s := Set(previous, r, c, humanToken);
      forall p, q | 0 <= p < 3 && 0 <= q < 3
        ensures detected[p][q] == s[p][q]
      {
        if (p, q) != (r, c) {
          assert (p, q) !in d;
        }
      }
      BoardExt(detected, s);
    }
  }

  /** Changes in two different cells are cheating of the first kind. */
  lemma ReconcileTwoChanges(previous: Board, detected: Board, humanToken: Cell, r1: int, c1: int, r2: int, c2: int)
    requires 0 <= r1 < 3 && 0 <= c1 < 3 && 0 <= r2 < 3 && 0 <= c2 < 3 && (r1, c1) != (r2, c2)
    requires previous[r1][c1] != detected[r1][c1] && previous[r2][c2] != detected[r2][c2]
    ensures Reconcile(previous, detected, humanToken) == Cheat(1)
  {
    var d := Diffs(previous, detected);
    DiffsCells(previous, detected);
    var k1 :| 0 <= k1 < |d| && d[k1] == (r1, c1);
    var k2 :| 0 <= k2 < |d| && d[k2] == (r2, c2);
    assert k1 != k2;
  }

  /**
   * A single changed cell that does not put the human's token on a free cell
   * (an overwritten or erased mark, or the robot's token) is cheating of the
   * second kind.
   */
  lemma ReconcileBadChange(previous: Board, humanToken: Cell, r: int, c: int, t: Cell)
    requires 0 <= r < 3 && 0 <= c < 3 && t != previous[r][c]
    requires previous[r][c] != Blank || t != humanToken
    ensures Reconcile(previous, Set(previous, r, c, t), humanToken) == Cheat(2)
  {
    DiffsSingle(previous, r, c, t);
  }

  /**
   * A poll of the human turn: wait, stop the game on cheating, or take the
   * detected board as the new board, keep the old one as `previous`, and
   * give the robot the move.
   */
  function HumanPoll(s: State, humanToken: Cell, detected: Board): (s': State)
    ensures s'.quit == s.quit
    ensures Reconcile(s.previous, detected, humanToken).Wait? ==> s' == s
    ensures Reconcile(s.previous, detected, humanToken).Cheat? ==>
      s'.gameOver && s'.status.Cheater? && s'.current == s.current && s'.previous == s.previous
    ensures Reconcile(s.previous, detected, humanToken).Accept? ==>
      s'.gameOver == s.gameOver && s'.robotMove && s'.previous == s.current && s'.current == detected
      && Diffs(s.previous, s'.current) == [(Reconcile(s.previous, detected, humanToken).row,
                                            Reconcile(s.previous, detected, humanToken).col)]
  {
    match Reconcile(s.previous, detected, humanToken)
    case Wait => s
    case Cheat(code) => s.(gameOver := true, status := Cheater(code))
    case Accept(r, c) =>
      ReconcileAccept(s.previous, detected, humanToken, r, c);
      DiffsSingle(s.previous, r, c, humanToken);
      s.(previous := s.current, current := detected, robotMove := true)
  }

  /** One pass of the loop: the state after it, and the symbol the arm drew, if any. */
  datatype Turned = Turned(next: State, drawn: Option<Drawing>)

  /**
   * The human's turn: a detection, when the polling interval has elapsed,
   * is reconciled with `previous`; then the quit key is read.
   */
  function HumanTurn(s: State, humanToken: Cell, seen: Option<DetectGrid.Grid>, quitPressed: bool): (t: Turned)
    ensures t.drawn.None? && t.next.quit == quitPressed
    ensures seen.None? ==> t.next == s.(quit := quitPressed)
    ensures seen.Some? ==> t.next == HumanPoll(s, humanToken, DetectedToInternal(seen.value)).(quit := quitPressed)
  {
    var polled := if seen.None? then s else HumanPoll(s, humanToken, DetectedToInternal(seen.value));
    Turned(polled.(quit := quitPressed), None)
  }

  /**
   * The robot's turn: the search's move on the current board, or a draw
   * when it finds none; the new board becomes `previous`, then the quit key
   * is read.
   */
  function RobotTurn(s: State, robotToken: Cell, quitPressed: bool): (t: Turned)
    ensures t.next.previous == t.next.current && t.next.quit == quitPressed
    ensures t.drawn.None? <==> !MovesLeft(s.current)
    ensures t.drawn.None? ==> t.next.gameOver && t.next.status == Draw && t.next.current == s.current
    ensures t.drawn.Some? ==>
      && 0 <= RobotMoveRow(s.current, robotToken) < 3 && 0 <= RobotMoveCol(s.current, robotToken) < 3
      && s.current[RobotMoveRow(s.current, robotToken)][RobotMoveCol(s.current, robotToken)] == Blank
      && t.next.current == Set(s.current, RobotMoveRow(s.current, robotToken), RobotMoveCol(s.current, robotToken), robotToken)
      && t.drawn.value == DrawSymbol(robotToken, RobotMoveRow(s.current, robotToken), RobotMoveCol(s.current, robotToken))
      && !t.next.robotMove && t.next.gameOver == s.gameOver
  {
    var (i, j) := NextMove(RobotView(s.current, robotToken));
    if i == -1 || j == -1 || !MovesLeft(s.current) then
      Turned(s.(gameOver := true, status := Draw, previous := s.current, quit := quitPressed), None)
    else
      NextMoveSpec(RobotView(s.current, robotToken));
      var next := Set(s.current, i, j, robotToken);
      Turned(s.(current := next, previous := next, robotMove := false, quit := quitPressed),
             Some(DrawSymbol(robotToken, i, j)))
  }

  /**
   * One pass of the loop of main. `seen` is the detection of this pass, None
   * when the polling interval has not elapsed; `quitPressed` says whether the
   * quit key was read at the end of the pass. The pass first ends the game
   * on a win or a full board; otherwise the human's poll is reconciled, or
   * the robot moves.
   */
  function Turn(s: State, robotToken: Cell, humanToken: Cell, seen: Option<DetectGrid.Grid>, quitPressed: bool): (t: Turned)
    requires !s.gameOver && !s.quit
    ensures t.drawn.Some? ==> s.robotMove && !t.next.robotMove && !t.next.gameOver
    ensures !t.next.gameOver ==> t.next.quit == quitPressed
  {
    var w := WinnerFromEvaluate(Evaluate(s.current), robotToken);
    if w.Some? then Turned(s.(gameOver := true, status := Won(w.value)), None)
    else if !MovesLeft(s.current) then Turned(s.(gameOver := true, status := Draw), None)
    else if !s.robotMove then HumanTurn(s, humanToken, seen, quitPressed)
    else RobotTurn(s, robotToken, quitPressed)
  }

  // ---------------------------------------------------------------------------
  // What every pass keeps
  // ---------------------------------------------------------------------------

  /** The number of cells holding t. */
  function Marks(b: Board, t: Cell): nat
  {
    Count(b, 0, 0, t) + Count(b, 0, 1, t) + Count(b, 0, 2, t)
    + Count(b, 1, 0, t) + Count(b, 1, 1, t) + Count(b, 1, 2, t)
    + Count(b, 2, 0, t) + Count(b, 2, 1, t) + Count(b, 2, 2, t)
  }

  /** A token put on a free cell adds one mark of that token and leaves the other counts alone. */
  lemma MarksSet(b: Board, i: int, j: int, t: Cell)
    requires 0 <= i < 3 && 0 <= j < 3 && b[i][j] == Blank && t != Blank
    ensures Marks(Set(b, i, j, t), t) == Marks(b, t) + 1
    ensures forall u :: u != t && u != Blank ==> Marks(Set(b, i, j, t), u) == Marks(b, u)
  {
    var b' := Set(b, i, j, t);
    forall u, p, q | 0 <= p < 3 && 0 <= q < 3 && (p != i || q != j)
      ensures Count(b', p, q, u) == Count(b, p, q, u)
    {
    }
  }

  /** The token whose turn it is. */
  function Mover(s: State, robotToken: Cell, humanToken: Cell): Cell
  {
    if s.robotMove then robotToken else humanToken
  }

  /**
   * What holds before every pass of a game played by the rules: the tokens
   * are 'x' and 'o' one each; in the human's turn `previous` is the board;
   * 'x' has moved once more than 'o' exactly when it is 'o' to move; no two
   * lines of different tokens; and the announced result matches the board.
   */
  predicate Consistent(s: State, robotToken: Cell, humanToken: Cell)
  {
    && ((robotToken == X && humanToken == O) || (robotToken == O && humanToken == X))
    && (!s.robotMove ==> s.previous == s.current)
    && Marks(s.current, X) == Marks(s.current, O) + (if Mover(s, robotToken, humanToken) == X then 0 else 1)
    && !(HasLine(s.current, X) && HasLine(s.current, O))
    && (s.gameOver <==> !s.status.Playing?)
    && (s.status.Won? ==> HasLine(s.current, if s.status.winner == Robot then robotToken else humanToken))
    && (s.status.Draw? ==> !MovesLeft(s.current))
    && (s.status.Cheater? ==> s.status.code == 1 || s.status.code == 2)
  }

  /** The empty board has no complete line. */
  lemma EmptyBoardNoLine()
    ensures forall k :: 0 <= k < 8 ==> !Complete(EmptyBoard, k)
  {
    forall k | 0 <= k < 8
      ensures !Complete(EmptyBoard, k)
    {
      assert LineAt(EmptyBoard, k, 0) == Blank;
    }
  }

  /** The game starts consistent, whoever goes first. */
  lemma StartConsistent(first: Player)
    ensures Consistent(Start(first), TokensFor(first).0, TokensFor(first).1)
  {
    EmptyBoardNoLine();
    assert Marks(EmptyBoard, X) == 0 && Marks(EmptyBoard, O) == 0;
  }

  /** A token put on a free cell of a board without lines completes lines of that token only. */
  lemma MoveKeepsLines(b: Board, i: int, j: int, t: Cell)
    requires 0 <= i < 3 && 0 <= j < 3
    requires !HasLine(b, X) && !HasLine(b, O)
    ensures !(HasLine(Set(b, i, j, t), X) && HasLine(Set(b, i, j, t), O))
  {
    OneMoveLines(b, i, j, t);
  }

  /**
   * The robot's turn on a board that is neither won nor full: the robot puts
   * its token on the free cell the search picked, draws that symbol, and
   * hands the move to the human with `previous` brought up to date. The
   * draw declared when the search finds no move cannot happen here.
   */
  lemma RobotTurnPlays(s: State, robotToken: Cell, humanToken: Cell, seen: Option<DetectGrid.Grid>, quitPressed: bool)
    requires !s.gameOver && !s.quit && s.robotMove
    requires WinnerFromEvaluate(Evaluate(s.current), robotToken) == None && MovesLeft(s.current)
    ensures 0 <= RobotMoveRow(s.current, robotToken) < 3 && 0 <= RobotMoveCol(s.current, robotToken) < 3
    ensures s.current[RobotMoveRow(s.current, robotToken)][RobotMoveCol(s.current, robotToken)] == Blank
    ensures Turn(s, robotToken, humanToken, seen, quitPressed).next
      == s.(current := Set(s.current, RobotMoveRow(s.current, robotToken), RobotMoveCol(s.current, robotToken), robotToken),
            previous := Set(s.current, RobotMoveRow(s.current, robotToken), RobotMoveCol(s.current, robotToken), robotToken),
            robotMove := false, quit := quitPressed)
    ensures Turn(s, robotToken, humanToken, seen, quitPressed).drawn
      == Some(DrawSymbol(robotToken, RobotMoveRow(s.current, robotToken), RobotMoveCol(s.current, robotToken)))
  {
    RobotMoveSpec(s.current, robotToken);
  }

  /**
   * The human's turn with a detection that shows one new human token on a
   * free cell: the detected board is taken, the old board kept as
   * `previous`, and the robot is to move.
   */
  lemma HumanTurnAccepts(s: State, robotToken: Cell, humanToken: Cell, g: DetectGrid.Grid, quitPressed: bool, r: int, c: int)
    requires !s.gameOver && !s.quit && !s.robotMove
    requires WinnerFromEvaluate(Evaluate(s.current), robotToken) == None && MovesLeft(s.current)
    requires 0 <= r < 3 && 0 <= c < 3 && s.previous[r][c] == Blank && humanToken != Blank
    requires DetectedToInternal(g) == Set(s.previous, r, c, humanToken)
    ensures Turn(s, robotToken, humanToken, Some(g), quitPressed).next
      == s.(previous := s.current, current := Set(s.previous, r, c, humanToken), robotMove := true, quit := quitPressed)
    ensures Turn(s, robotToken, humanToken, Some(g), quitPressed).drawn == None
  {
    ReconcileAccept(s.previous, DetectedToInternal(g), humanToken, r, c);
  }

  /** A pass that finds a win or a full board ends the game consistently. */
  lemma TerminalKeepsConsistent(s: State, robotToken: Cell, humanToken: Cell, seen: Option<DetectGrid.Grid>, quitPressed: bool)
    requires Consistent(s, robotToken, humanToken) && !s.gameOver && !s.quit
    requires WinnerFromEvaluate(Evaluate(s.current), robotToken).Some? || !MovesLeft(s.current)
    ensures Consistent(Turn(s, robotToken, humanToken, seen, quitPressed).next, robotToken, humanToken)
    ensures var w := WinnerFromEvaluate(Evaluate(s.current), robotToken);
      Turn(s, robotToken, humanToken, seen, quitPressed)
        == Turned(s.(gameOver := true, status := if w.Some? then Won(w.value) else Draw), None)
  {
    WinnerOwnsLine(s.current, robotToken);
  }

  /**
   * The human's turn without a detection, or with one that shows the board
   * as it was: the state stays as it was apart from the quit key.
   */
  lemma HumanTurnWaits(s: State, robotToken: Cell, humanToken: Cell, seen: Option<DetectGrid.Grid>, quitPressed: bool)
    requires !s.gameOver && !s.quit && !s.robotMove
    requires WinnerFromEvaluate(Evaluate(s.current), robotToken) == None && MovesLeft(s.current)
    requires seen.Some? ==> DetectedToInternal(seen.value) == s.previous
    ensures Turn(s, robotToken, humanToken, seen, quitPressed) == Turned(s.(quit := quitPressed), None)
  {
    if seen.Some? {
      ReconcileWait(s.previous, DetectedToInternal(seen.value), humanToken);
    }
  }

  /**
   * The human's turn with a detection judged as cheating: the game is over
   * with cheating code 1 or 2, and both boards stay as they were.
   */
  lemma HumanTurnCheats(s: State, robotToken: Cell, humanToken: Cell, g: DetectGrid.Grid, quitPressed: bool)
    requires !s.gameOver && !s.quit && !s.robotMove
    requires WinnerFromEvaluate(Evaluate(s.current), robotToken) == None && MovesLeft(s.current)
    requires Reconcile(s.previous, DetectedToInternal(g), humanToken).Cheat?
    ensures var code := Reconcile(s.previous, DetectedToInternal(g), humanToken).code;
      && (code == 1 || code == 2)
      && Turn(s, robotToken, humanToken, Some(g), quitPressed)
        == Turned(s.(gameOver := true, status := Cheater(code), quit := quitPressed), None)
  {
  }

  /**
   * Putting the mover's token on a free cell of a board without lines, and
   * handing the turn to the other side, keeps the game consistent.
   */
  lemma PlaceKeepsConsistent(s: State, robotToken: Cell, humanToken: Cell, i: int, j: int, s': State)
    requires Consistent(s, robotToken, humanToken)
    requires !HasLine(s.current, X) && !HasLine(s.current, O)
    requires 0 <= i < 3 && 0 <= j < 3 && s.current[i][j] == Blank
    requires s'.current == Set(s.current, i, j, Mover(s, robotToken, humanToken))
    requires s'.robotMove == !s.robotMove && (!s'.robotMove ==> s'.previous == s'.current)
    requires s'.gameOver == s.gameOver && s'.status == s.status && s.status.Playing?
    ensures Consistent(s', robotToken, humanToken)
  {
    var t := Mover(s, robotToken, humanToken);
    MarksSet(s.current, i, j, t);
    assert Marks(s'.current, t) == Marks(s.current, t) + 1;
    assert Marks(s'.current, Other(t)) == Marks(s.current, Other(t));
    assert Mover(s', robotToken, humanToken) == Other(t);
    MoveKeepsLines(s.current, i, j, t);
  }

  /** A poll of the human's turn keeps the game consistent. */
  lemma PollKeepsConsistent(s: State, robotToken: Cell, humanToken: Cell, detected: Board)
    requires Consistent(s, robotToken, humanToken) && !s.robotMove && !s.gameOver
    requires !HasLine(s.current, X) && !HasLine(s.current, O)
    ensures Consistent(HumanPoll(s, humanToken, detected), robotToken, humanToken)
  {
    match Reconcile(s.previous, detected, humanToken)
    case Wait =>
    case Cheat(code) =>
    case Accept(r, c) =>
      ReconcileAccept(s.previous, detected, humanToken, r, c);
      PlaceKeepsConsistent(s, robotToken, humanToken, r, c, HumanPoll(s, humanToken, detected));
  }

  /** The robot's move keeps the game consistent. */
  lemma RobotKeepsConsistent(s: State, robotToken: Cell, humanToken: Cell, seen: Option<DetectGrid.Grid>, quitPressed: bool)
    requires Consistent(s, robotToken, humanToken) && !s.gameOver && !s.quit && s.robotMove
    requires WinnerFromEvaluate(Evaluate(s.current), robotToken) == None && MovesLeft(s.current)
    ensures Consistent(Turn(s, robotToken, humanToken, seen, quitPressed).next, robotToken, humanToken)
  {
    WinnerOwnsLine(s.current, robotToken);
    RobotTurnPlays(s, robotToken, humanToken, seen, quitPressed);
    PlaceKeepsConsistent(s, robotToken, humanToken, RobotMoveRow(s.current, robotToken), RobotMoveCol(s.current, robotToken),
      Turn(s, robotToken, humanToken, seen, quitPressed).next);
  }

  /** Every pass of the loop keeps the game consistent. */
  lemma TurnKeepsConsistent(s: State, robotToken: Cell, humanToken: Cell, seen: Option<DetectGrid.Grid>, quitPressed: bool)
    requires Consistent(s, robotToken, humanToken) && !s.gameOver && !s.quit
    ensures Consistent(Turn(s, robotToken, humanToken, seen, quitPressed).next, robotToken, humanToken)
  {
    if WinnerFromEvaluate(Evaluate(s.current), robotToken).Some? || !MovesLeft(s.current) {
      TerminalKeepsConsistent(s, robotToken, humanToken, seen, quitPressed);
    } else if s.robotMove {
      RobotKeepsConsistent(s, robotToken, humanToken, seen, quitPressed);
    } else if seen.Some? {
      WinnerOwnsLine(s.current, robotToken);
      PollKeepsConsistent(s, robotToken, humanToken, DetectedToInternal(seen.value));
    }
  }

  /** A mark on the board of a consistent game is never changed or erased by a pass. */
  lemma MarksStay(s: State, robotToken: Cell, humanToken: Cell, seen: Option<DetectGrid.Grid>, quitPressed: bool)
    requires Consistent(s, robotToken, humanToken) && !s.gameOver && !s.quit
    ensures forall p, q :: 0 <= p < 3 && 0 <= q < 3 && s.current[p][q] != Blank ==>
      Turn(s, robotToken, humanToken, seen, quitPressed).next.current[p][q] == s.current[p][q]
  {
    var w := WinnerFromEvaluate(Evaluate(s.current), robotToken);
    if w.None? && MovesLeft(s.current) {
      if !s.robotMove {
        if seen.Some? {
          var d := DetectedToInternal(seen.value);
          if Reconcile(s.previous, d, humanToken).Accept? {
            var r, c := Reconcile(s.previous, d, humanToken).row, Reconcile(s.previous, d, humanToken).col;
            ReconcileAccept(s.previous, d, humanToken, r, c);
          }
        }
      } else {
        RobotTurnPlays(s, robotToken, humanToken, seen, quitPressed);
      }
    }
  }

  // ---------------------------------------------------------------------------
  // Several passes
  // ---------------------------------------------------------------------------

  /** The input of one pass: the detection, if the board was polled, and whether quit was pressed. */
  datatype Pass = Pass(seen: Option<DetectGrid.Grid>, quitPressed: bool)

  /** The symbol a pass drew, as a sequence of zero or one drawings. */
  function Emitted(t: Turned): seq<Drawing>
  {
    if t.drawn.Some? then [t.drawn.value] else []
  }

  /**
   * The loop of main over the given passes: each pass runs until the game
   * is over or quit was pressed, and the passes after that change nothing.
   * The final state and the symbols drawn, in order.
   */
  function Run(s: State, robotToken: Cell, humanToken: Cell, passes: seq<Pass>): (State, seq<Drawing>)
    decreases |passes|
  {
    if |passes| == 0 then (s, [])
    else
      var r := Run(s, robotToken, humanToken, passes[..|passes| - 1]);
      var p := passes[|passes| - 1];
      if r.0.gameOver || r.0.quit then r
      else
        var t := Turn(r.0, robotToken, humanToken, p.seen, p.quitPressed);
        (t.next, r.1 + Emitted(t))
  }

  /** One more pass of a game still going: the pass's turn extends the run. */
  lemma RunExtend(s: State, robotToken: Cell, humanToken: Cell, passes: seq<Pass>, k: int,
                  before: State, acc: seq<Drawing>, after: State, drawn: Option<Drawing>)
    requires 0 <= k < |passes|
    requires (before, acc) == Run(s, robotToken, humanToken, passes[..k])
    requires !before.gameOver && !before.quit
    requires after == Turn(before, robotToken, humanToken, passes[k].seen, passes[k].quitPressed).next
    requires drawn == Turn(before, robotToken, humanToken, passes[k].seen, passes[k].quitPressed).drawn
    ensures Run(s, robotToken, humanToken, passes[..k + 1]) == (after, acc + Emitted(Turned(after, drawn)))
  {
    assert passes[..k + 1][..k] == passes[..k] && passes[..k + 1][k] == passes[k];
  }

  /** Once the game is over or quit was pressed, further passes change nothing. */
  lemma {:induction false} RunStopped(s: State, robotToken: Cell, humanToken: Cell, passes: seq<Pass>, k: int)
    requires 0 <= k <= |passes|
    requires Run(s, robotToken, humanToken, passes[..k]).0.gameOver || Run(s, robotToken, humanToken, passes[..k]).0.quit
    ensures Run(s, robotToken, humanToken, passes) == Run(s, robotToken, humanToken, passes[..k])
    decreases |passes|
  {
    if |passes| > k {
      assert passes[..|passes| - 1][..k] == passes[..k];
      RunStopped(s, robotToken, humanToken, passes[..|passes| - 1], k);
    } else {
      assert passes[..k] == passes;
    }
  }

  /** A consistent game stays consistent over any passes. */
  lemma {:induction false} RunConsistent(s: State, robotToken: Cell, humanToken: Cell, passes: seq<Pass>)
    requires Consistent(s, robotToken, humanToken)
    ensures Consistent(Run(s, robotToken, humanToken, passes).0, robotToken, humanToken)
    decreases |passes|
  {
    if |passes| > 0 {
      var r := Run(s, robotToken, humanToken, passes[..|passes| - 1]);
      var p := passes[|passes| - 1];
      RunConsistent(s, robotToken, humanToken, passes[..|passes| - 1]);
      if !(r.0.gameOver || r.0.quit) {
        TurnKeepsConsistent(r.0, robotToken, humanToken, p.seen, p.quitPressed);
      }
    }
  }

  /** Each drawing is an X exactly when the robot plays 'x', on one of the cells 1 to 3 by 1 to 3. */
  predicate RobotSymbols(ds: seq<Drawing>, robotToken: Cell)
  {
    forall k :: 0 <= k < |ds| ==> (ds[k].DrawX? <==> robotToken == X) && 1 <= ds[k].row <= 3 && 1 <= ds[k].col <= 3
  }

  /** A pass draws, if anything, the robot's symbol on a cell 1 to 3 by 1 to 3. */
  lemma TurnDrawsRobotSymbol(s: State, robotToken: Cell, humanToken: Cell, seen: Option<DetectGrid.Grid>, quitPressed: bool)
    requires !s.gameOver && !s.quit
    ensures Turn(s, robotToken, humanToken, seen, quitPressed).drawn.Some? ==>
      RobotSymbols([Turn(s, robotToken, humanToken, seen, quitPressed).drawn.value], robotToken)
  {
    var w := WinnerFromEvaluate(Evaluate(s.current), robotToken);
    if w == None && MovesLeft(s.current) && s.robotMove {
      RobotTurnPlays(s, robotToken, humanToken, seen, quitPressed);
    }
  }

  /**
   * Every symbol the arm draws is the robot's (an X exactly when the robot
   * plays 'x'), on one of the cells 1 to 3 by 1 to 3.
   */
  lemma {:induction false} RunDrawsRobotSymbols(s: State, robotToken: Cell, humanToken: Cell, passes: seq<Pass>)
    ensures RobotSymbols(Run(s, robotToken, humanToken, passes).1, robotToken)
    decreases |passes|
  {
    if |passes| > 0 {
      var r := Run(s, robotToken, humanToken, passes[..|passes| - 1]);
      var p := passes[|passes| - 1];
      RunDrawsRobotSymbols(s, robotToken, humanToken, passes[..|passes| - 1]);
      if !(r.0.gameOver || r.0.quit) {
        var t := Turn(r.0, robotToken, humanToken, p.seen, p.quitPressed);
        TurnDrawsRobotSymbol(r.0, robotToken, humanToken, p.seen, p.quitPressed);
        var now := Emitted(t);
        forall k | 0 <= k < |r.1 + now|
          ensures ((r.1 + now)[k].DrawX? <==> robotToken == X) && 1 <= (r.1 + now)[k].row <= 3 && 1 <= (r.1 + now)[k].col <= 3
        {
          if k < |r.1| {
            assert (r.1 + now)[k] == r.1[k];
          } else {
            assert (r.1 + now)[k] == now[k - |r.1|];
          }
        }
      }
    }
  }

  // ---------------------------------------------------------------------------
  // The loop state of main, updated in place
  // ---------------------------------------------------------------------------

  /** The variables main updates on each pass, with the tokens fixed at the start. */
  class Session {
    var current: Board
    var previous: Board
    var robotMove: bool
    var gameOver: bool
    var quit: bool
    var status: Status
    const robotToken: Cell
    const humanToken: Cell

    function Snapshot(): State
      reads this
    {
      State(current, previous, robotMove, gameOver, quit, status)
    }

    predicate Valid()
      reads this
    {
      Consistent(Snapshot(), robotToken, humanToken)
    }

    /** The initial state of main once the first player is chosen. */
    constructor (first: Player)
      ensures Snapshot() == Start(first) && (robotToken, humanToken) == TokensFor(first)
      ensures Valid()
    {
      current := EmptyBoard;
      previous := EmptyBoard;
      robotMove := first == Robot;
      gameOver := false;
      quit := false;
      status := Playing;
      if first == Robot {
        robotToken, humanToken := X, O;
      } else {
        robotToken, humanToken := O, X;
      }
      StartConsistent(first);
    }

    /**
     * One pass of the loop of main: the terminal check, then the human's
     * poll or the robot's move, each ending with the quit key. Returns the
     * symbol the arm drew, if any.
     */
    method Step(seen: Option<DetectGrid.Grid>, quitPressed: bool) returns (drawn: Option<Drawing>)
      requires Valid() && !gameOver && !quit
      modifies this
      ensures Snapshot() == Turn(old(Snapshot()), robotToken, humanToken, seen, quitPressed).next
      ensures drawn == Turn(old(Snapshot()), robotToken, humanToken, seen, quitPressed).drawn
      ensures Valid()
    {
      TurnKeepsConsistent(Snapshot(), robotToken, humanToken, seen, quitPressed);
      var w := WinnerFromEvaluate(Evaluate(current), robotToken);
      if w.Some? {
        gameOver := true;
        status := Won(w.value);
        drawn := None;
      } else if !MovesLeft(current) {
        gameOver := true;
        status := Draw;
        drawn := None;
      } else if !robotMove {
        HumanPlays(seen, quitPressed);
        drawn := None;
      } else {
        drawn := RobotPlays(quitPressed);
      }
    }

    /** The human turn of main: reconcile a detection, if one was taken, then read the quit key. */
    method HumanPlays(seen: Option<DetectGrid.Grid>, quitPressed: bool)
      modifies this
      ensures Snapshot() == HumanTurn(old(Snapshot()), humanToken, seen, quitPressed).next
    {
      if seen.Some? {
        var detected := DetectedToInternal(seen.value);
        var diffs := CountDiffs(previous, detected);
        if |diffs| == 0 {
        } else if |diffs| > 1 {
          gameOver := true;
          status := Cheater(1);
        } else {
          DiffsOrder(previous, detected);
          var (ri, rj) := diffs[0];
          if previous[ri][rj] != Blank || detected[ri][rj] != humanToken {
            gameOver := true;
            status := Cheater(2);
          } else {
            previous := current;
            current := detected;
            robotMove := true;
          }
        }
      }
      quit := quitPressed;
    }

    /**
     * The robot turn of main: search a move on a copy of the board, draw the
     * robot's symbol there and record it, or declare a draw when the search
     * finds nothing; then `previous` catches up and the quit key is read.
     */
    method RobotPlays(quitPressed: bool) returns (drawn: Option<Drawing>)
      modifies this
      ensures Snapshot() == RobotTurn(old(Snapshot()), robotToken, quitPressed).next
      ensures drawn == RobotTurn(old(Snapshot()), robotToken, quitPressed).drawn
    {
      var move := BestMoveForRobot(current, robotToken);
      var (i, j) := move;
      if i == -1 || j == -1 || !MovesLeft(current) {
        gameOver := true;
        status := Draw;
        drawn := None;
      } else {
        NextMoveSpec(RobotView(current, robotToken));
        drawn := Some(DrawSymbol(robotToken, i, j));
        current := Set(current, i, j, robotToken);
        robotMove := false;
      }
      previous := current;
      quit := quitPressed;
    }

    /** One iteration of the loop of Play: a pass on a game still going, its drawing appended. */
    method Advance(ghost s0: State, passes: seq<Pass>, k: int, drawings: seq<Drawing>) returns (drawings': seq<Drawing>)
      requires Valid() && !gameOver && !quit && 0 <= k < |passes|
      requires (Snapshot(), drawings) == Run(s0, robotToken, humanToken, passes[..k])
      modifies this
      ensures Valid()
      ensures (Snapshot(), drawings') == Run(s0, robotToken, humanToken, passes[..k + 1])
    {
      ghost var before := Snapshot();
      var drawn := Step(passes[k].seen, passes[k].quitPressed);
      RunExtend(s0, robotToken, humanToken, passes, k, before, drawings, Snapshot(), drawn);
      drawings' := drawings;
      if drawn.Some? {
        drawings' := drawings' + [drawn.value];
      }
      assert drawings' == drawings + Emitted(Turned(Snapshot(), drawn));
    }

    /**
     * The loop of main over the given passes: it runs until the game is
     * over, quit is pressed or the passes run out, and returns the symbols
     * drawn.
     */
    method Play(passes: seq<Pass>) returns (drawings: seq<Drawing>)
      requires Valid()
      modifies this
      ensures (Snapshot(), drawings) == Run(old(Snapshot()), robotToken, humanToken, passes)
      ensures Valid()
    {
      drawings := [];
      var k := 0;
      while k < |passes| && !gameOver && !quit
        invariant 0 <= k <= |passes|
        invariant Valid()
        invariant (Snapshot(), drawings) == Run(old(Snapshot()), robotToken, humanToken, passes[..k])
        decreases |passes| - k
      {
        drawings := Advance(old(Snapshot()), passes, k, drawings);
        k := k + 1;
      }
      if k < |passes| {
        RunStopped(old(Snapshot()), robotToken, humanToken, passes, k);
      } else {
        assert passes[..k] == passes;
      }
    }
  }
}
