/**
 * The decision engine of ticTacToe.py: line scans over a 3x3 board, the
 * exhaustive minimax search that maximises for 'x', and the row-major move
 * selection with a strict-improvement tie-break.
 */
module TicTacToe {
  import opened Wrappers

  /** A board cell: the tokens 'x' and 'o', or the empty marker '_'. */
  datatype Cell = X | O | Blank

  /** A 3x3 board, row-major, as the nested lists of the source. */
  type Board = b: seq<seq<Cell>> | |b| == 3 && forall i | 0 <= i < |b| :: |b[i]| == 3
    witness [[Blank, Blank, Blank], [Blank, Blank, Blank], [Blank, Blank, Blank]]

  const EmptyBoard: Board := [[Blank, Blank, Blank], [Blank, Blank, Blank], [Blank, Blank, Blank]]

  /** `board[i][j] = t` as a value. */
  function Set(b: Board, i: int, j: int, t: Cell): (r: Board)
    requires 0 <= i < 3 && 0 <= j < 3
    ensures r[i][j] == t
    ensures forall p, q :: 0 <= p < 3 && 0 <= q < 3 && (p != i || q != j) ==> r[p][q] == b[p][q]
  {
    b[i := b[i][j := t]]
  }

  /** Number of '_' cells; every trial move of the search lowers it by one. */
  function Empties(b: Board): nat
  {
    Count(b, 0, 0, Blank) + Count(b, 0, 1, Blank) + Count(b, 0, 2, Blank)
    + Count(b, 1, 0, Blank) + Count(b, 1, 1, Blank) + Count(b, 1, 2, Blank)
    + Count(b, 2, 0, Blank) + Count(b, 2, 1, Blank) + Count(b, 2, 2, Blank)
  }

  /** 1 if cell (i, j) holds t, else 0. */
  function Count(b: Board, i: int, j: int, t: Cell): nat
    requires 0 <= i < 3 && 0 <= j < 3
  {
    if b[i][j] == t then 1 else 0
  }

  lemma EmptiesDrop(b: Board, i: int, j: int, t: Cell)
    requires 0 <= i < 3 && 0 <= j < 3 && b[i][j] == Blank && t != Blank
    ensures Empties(Set(b, i, j, t)) == Empties(b) - 1
  {
    var b' := Set(b, i, j, t);
    assert forall p, q :: 0 <= p < 3 && 0 <= q < 3 && (p != i || q != j) ==> Count(b', p, q, Blank) == Count(b, p, q, Blank);
    assert Count(b', i, j, Blank) == 0 && Count(b, i, j, Blank) == 1;
  }

  /** is_moves_left: some row still contains '_'. */
  function MovesLeft(b: Board): (r: bool)
    ensures r <==> exists i, j :: 0 <= i < 3 && 0 <= j < 3 && b[i][j] == Blank
  {
    Blank in b[0] || Blank in b[1] || Blank in b[2]
  }

  // ---------------------------------------------------------------------------
  // Lines and evaluate

  /**
   * The m-th cell of line k, in the order evaluate scans the lines:
   * rows 0..2, columns 0..2, the main diagonal, the anti-diagonal.
   */
  function LinePos(k: nat, m: nat): (p: (int, int))
    requires k < 8 && m < 3
    ensures 0 <= p.0 < 3 && 0 <= p.1 < 3
  {
    if k < 3 then (k, m)
    else if k < 6 then (m, k - 3)
    else if k == 6 then (m, m)
    else (m, 2 - m)
  }

  function LineAt(b: Board, k: nat, m: nat): Cell
    requires k < 8 && m < 3
  {
    b[LinePos(k, m).0][LinePos(k, m).1]
  }

  /** Line k holds three equal tokens other than '_'. */
  predicate Complete(b: Board, k: nat)
    requires k < 8
  {
    LineAt(b, k, 0) == LineAt(b, k, 1) && LineAt(b, k, 1) == LineAt(b, k, 2) && LineAt(b, k, 2) != Blank
  }

  /** Some complete line is made of token t. */
  predicate HasLine(b: Board, t: Cell)
  {
    exists k :: 0 <= k < 8 && Complete(b, k) && LineAt(b, k, 0) == t
  }

  /** The chained test `a == b == c != '_'` of the source. */
  predicate Three(a: Cell, b: Cell, c: Cell)
  {
    a == b && b == c && c != Blank
  }

  /** 10 for a line of 'x', -10 for a line of any other token. */
  function Score(t: Cell): int
  {
    if t == X then 10 else -10
  }

  /** evaluate: the score of the first complete line found, or 0. */
  function Evaluate(b: Board): (r: int)
    ensures r == 10 || r == -10 || r == 0
  {
    if Three(b[0][0], b[0][1], b[0][2]) then Score(b[0][0])
    else if Three(b[1][0], b[1][1], b[1][2]) then Score(b[1][0])
    else if Three(b[2][0], b[2][1], b[2][2]) then Score(b[2][0])
    else if Three(b[0][0], b[1][0], b[2][0]) then Score(b[0][0])
    else if Three(b[0][1], b[1][1], b[2][1]) then Score(b[0][1])
    else if Three(b[0][2], b[1][2], b[2][2]) then Score(b[0][2])
    else if Three(b[0][0], b[1][1], b[2][2]) then Score(b[0][0])
    else if Three(b[0][2], b[1][1], b[2][0]) then Score(b[0][2])
    else 0
  }

  /**
   * Evaluate is 0 exactly when no line is complete; otherwise it is 10 or -10
   * according to the token of the first complete line in scan order.
   */
  lemma EvaluateScansLines(b: Board)
    ensures Evaluate(b) == 0 <==> forall k :: 0 <= k < 8 ==> !Complete(b, k)
    ensures forall k :: 0 <= k < 8 && Complete(b, k) && (forall k' :: 0 <= k' < k ==> !Complete(b, k')) ==>
      Evaluate(b) == Score(LineAt(b, k, 0))
  {
    assert Complete(b, 0) <==> Three(b[0][0], b[0][1], b[0][2]);
    assert Complete(b, 1) <==> Three(b[1][0], b[1][1], b[1][2]);
    assert Complete(b, 2) <==> Three(b[2][0], b[2][1], b[2][2]);
    assert Complete(b, 3) <==> Three(b[0][0], b[1][0], b[2][0]);
    assert Complete(b, 4) <==> Three(b[0][1], b[1][1], b[2][1]);
    assert Complete(b, 5) <==> Three(b[0][2], b[1][2], b[2][2]);
    assert Complete(b, 6) <==> Three(b[0][0], b[1][1], b[2][2]);
    assert Complete(b, 7) <==> Three(b[0][2], b[1][1], b[2][0]);
  }

  /** A nonzero evaluation comes from a complete line of the token it scores. */
  lemma EvaluateWitness(b: Board)
    requires Evaluate(b) != 0
    ensures exists k :: 0 <= k < 8 && Complete(b, k) && Evaluate(b) == Score(LineAt(b, k, 0))
  {
    if Three(b[0][0], b[0][1], b[0][2]) { assert Complete(b, 0); }
    else if Three(b[1][0], b[1][1], b[1][2]) { assert Complete(b, 1); }
    else if Three(b[2][0], b[2][1], b[2][2]) { assert Complete(b, 2); }
    else if Three(b[0][0], b[1][0], b[2][0]) { assert Complete(b, 3); }
    else if Three(b[0][1], b[1][1], b[2][1]) { assert Complete(b, 4); }
    else if Three(b[0][2], b[1][2], b[2][2]) { assert Complete(b, 5); }
    else if Three(b[0][0], b[1][1], b[2][2]) { assert Complete(b, 6); }
    else { assert Complete(b, 7); }
  }

  /** Evaluate is nonzero exactly when some token has a complete line. */
  lemma EvaluateNonzero(b: Board)
    ensures Evaluate(b) == 0 <==> !HasLine(b, X) && !HasLine(b, O)
    ensures Evaluate(b) == 10 ==> HasLine(b, X)
    ensures Evaluate(b) == -10 ==> HasLine(b, O)
  {
    EvaluateScansLines(b);
    if Evaluate(b) != 0 {
      EvaluateWitness(b);
      var k :| 0 <= k < 8 && Complete(b, k) && Evaluate(b) == Score(LineAt(b, k, 0));
      assert LineAt(b, k, 0) == X || LineAt(b, k, 0) == O;
    }
  }

  /**
   * On a board with no complete line, setting one cell to t can complete
   * lines of t only.
   */
  lemma OneMoveLines(b: Board, i: int, j: int, t: Cell)
    requires 0 <= i < 3 && 0 <= j < 3
    requires forall k :: 0 <= k < 8 ==> !Complete(b, k)
    ensures forall k :: 0 <= k < 8 && Complete(Set(b, i, j, t), k) ==> LineAt(Set(b, i, j, t), k, 0) == t
  {
    var b' := Set(b, i, j, t);
    forall k | 0 <= k < 8 && Complete(b', k)
      ensures LineAt(b', k, 0) == t
    {
      assert !Complete(b, k);
    }
  }

  // ---------------------------------------------------------------------------
  // minimax

  /** The accumulator `best` of minimax, which starts at -inf or +inf. */
  datatype Bound = NegInf | PosInf | Val(v: int)

  /** The token a player tries: 'x' when maximising, 'o' when minimising. */
  function Mark(maximizing: bool): Cell
  {
    if maximizing then X else O
  }

  function Init(maximizing: bool): Bound
  {
    if maximizing then NegInf else PosInf
  }

  /** `max(best, v)` when maximising, `min(best, v)` when minimising. */
  function Combine(maximizing: bool, best: Bound, v: int): Bound
  {
    match best
    case NegInf => if maximizing then Val(v) else NegInf
    case PosInf => if maximizing then PosInf else Val(v)
    case Val(w) => Val(if maximizing then (if w >= v then w else v) else (if w <= v then w else v))
  }

  /** Cell (p, q) comes before cell (i, j) in row-major order. */
  predicate Before(p: int, q: int, i: int, j: int)
  {
    p < i || (p == i && q < j)
  }

  /**
   * The value minimax returns: the score of a won board, 0 for a full board,
   * otherwise the best value over the trial moves on empty cells.
   */
  function Minimax(b: Board, maximizing: bool): (v: int)
    ensures v == 10 || v == 0 || v == -10
    decreases Empties(b), 1, 0, 0
  {
    var score := Evaluate(b);
    if score == 10 || score == -10 then score
    else if !MovesLeft(b) then 0
    else Scan(b, maximizing, 3, 0).v
  }

  /**
   * The accumulator of minimax's search loop once it reaches cell (i, j), or
   * (3, 0) at the end: each empty cell before it, in row-major order, was
   * tried with Mark(maximizing) and the value of the opponent's reply folded in.
   */
  function Scan(b: Board, maximizing: bool, i: nat, j: nat): (r: Bound)
    requires i <= 3 && j <= 3
    ensures r == Init(maximizing) || (r.Val? && (r.v == 10 || r.v == 0 || r.v == -10))
    ensures (exists p, q :: 0 <= p < 3 && 0 <= q < 3 && Before(p, q, i, j) && b[p][q] == Blank) ==> r.Val?
    decreases Empties(b), 0, i, j
  {
    if j == 0 then
      (if i == 0 then Init(maximizing) else Scan(b, maximizing, i - 1, 3))
    else if i == 3 then Scan(b, maximizing, i, j - 1)
    else
      var best := Scan(b, maximizing, i, j - 1);
      if b[i][j - 1] == Blank then
        EmptiesDrop(b, i, j - 1, Mark(maximizing));
        Combine(maximizing, best, Minimax(Set(b, i, j - 1, Mark(maximizing)), !maximizing))
      else best
  }

  /** A snapshot of a 3x3 array as a board. */
  function Cells(a: array2<Cell>): (b: Board)
    requires a.Length0 == 3 && a.Length1 == 3
    reads a
  {
    [[a[0, 0], a[0, 1], a[0, 2]], [a[1, 0], a[1, 1], a[1, 2]], [a[2, 0], a[2, 1], a[2, 2]]]
  }

  /** Two boards with the same cells are equal. */
  lemma BoardExt(a: Board, b: Board)
    requires forall i, j :: 0 <= i < 3 && 0 <= j < 3 ==> a[i][j] == b[i][j]
    ensures a == b
  {
    assert a[0] == b[0] && a[1] == b[1] && a[2] == b[2];
  }

  /**
   * minimax: tries every empty cell in place, recurses for the opponent and
   * resets the cell. The board comes back exactly as it was, and the value
   * does not depend on `depth`, which is only passed along.
   */
  method MinimaxSearch(board: array2<Cell>, depth: int, isMaximizing: bool) returns (best: int)
    requires board.Length0 == 3 && board.Length1 == 3
    modifies board
    ensures forall r, c :: 0 <= r < 3 && 0 <= c < 3 ==> board[r, c] == old(board[r, c])
    ensures best == Minimax(old(Cells(board)), isMaximizing)
    decreases Empties(Cells(board)), 1
  {
    ghost var b0 := Cells(board);
    var score := Evaluate(Cells(board));
    if score == 10 || score == -10 {
      return score;
    }
    if !MovesLeft(Cells(board)) {
      return 0;
    }
    var mark := Mark(isMaximizing);
    var acc := Init(isMaximizing);
    for i := 0 to 3
      invariant forall r, c :: 0 <= r < 3 && 0 <= c < 3 ==> board[r, c] == b0[r][c]
      invariant acc == Scan(b0, isMaximizing, i, 0)
    {
      for j := 0 to 3
        invariant forall r, c :: 0 <= r < 3 && 0 <= c < 3 ==> board[r, c] == b0[r][c]
        invariant acc == Scan(b0, isMaximizing, i, j)
      {
        if board[i, j] == Blank {
          BoardExt(Cells(board), b0);
          var v := TryMove(board, i, j, mark, depth + 1, !isMaximizing);
          acc := Combine(isMaximizing, acc, v);
        }
      }
    }
    best := acc.v;
  }

  /**
   * One trial move of the search loops: write t on the empty cell (i, j),
   * run minimax with the other side to move, and reset the cell to '_'.
   */
  method TryMove(board: array2<Cell>, i: int, j: int, t: Cell, depth: int, isMaximizing: bool) returns (v: int)
    requires board.Length0 == 3 && board.Length1 == 3
    requires 0 <= i < 3 && 0 <= j < 3 && board[i, j] == Blank && t != Blank
    modifies board
    ensures forall r, c :: 0 <= r < 3 && 0 <= c < 3 ==> board[r, c] == old(board[r, c])
    ensures v == Minimax(Set(old(Cells(board)), i, j, t), isMaximizing)
    decreases Empties(Cells(board)), 0
  {
    ghost var b0 := Cells(board);
    board[i, j] := t;
    BoardExt(Cells(board), Set(b0, i, j, t));
    EmptiesDrop(b0, i, j, t);
    v := MinimaxSearch(board, depth, isMaximizing);
    board[i, j] := Blank;
  }

  // ---------------------------------------------------------------------------
  // evaluate_next_move

  /** The minimax value of putting 'x' on empty cell (i, j), 'o' to reply. */
  function MoveValue(b: Board, i: int, j: int): int
    requires 0 <= i < 3 && 0 <= j < 3
  {
    Minimax(Set(b, i, j, X), false)
  }

  /** `move_val > best_val`, where best_val may still be -inf. */
  predicate Exceeds(v: int, best: Bound)
  {
    match best
    case NegInf => true
    case PosInf => false
    case Val(w) => v > w
  }

  /**
   * The pair (best_val, best_move) of evaluate_next_move once its scan
   * reaches cell (i, j), or (3, 0) at the end.
   */
  function Pick(b: Board, i: nat, j: nat): (Bound, (int, int))
    requires i <= 3 && j <= 3
    decreases i, j
  {
    if j == 0 then
      (if i == 0 then (NegInf, (-1, -1)) else Pick(b, i - 1, 3))
    else if i == 3 then Pick(b, i, j - 1)
    else
      var (bestVal, bestMove) := Pick(b, i, j - 1);
      if b[i][j - 1] == Blank && Exceeds(MoveValue(b, i, j - 1), bestVal) then (Val(MoveValue(b, i, j - 1)), (i, j - 1))
      else (bestVal, bestMove)
  }

  /** The move evaluate_next_move returns. */
  function NextMove(b: Board): (m: (int, int))
    ensures m == (-1, -1) || (0 <= m.0 < 3 && 0 <= m.1 < 3 && b[m.0][m.1] == Blank)
  {
    PickSpec(b, 3, 0);
    Pick(b, 3, 0).1
  }

  /**
   * Once the scan reaches (i, j), Pick holds (-1, -1) iff no earlier cell is
   * empty; otherwise an earlier empty cell of maximal move value, the first
   * such one in row-major order.
   */
  lemma {:induction false} PickSpec(b: Board, i: nat, j: nat)
    requires i <= 3 && j <= 3
    ensures var (bestVal, (m, n)) := Pick(b, i, j);
      && ((m, n) == (-1, -1) <==> forall p, q :: 0 <= p < 3 && 0 <= q < 3 && Before(p, q, i, j) ==> b[p][q] != Blank)
      && ((m, n) == (-1, -1) ==> bestVal == NegInf)
      && ((m, n) != (-1, -1) ==>
            && 0 <= m < 3 && 0 <= n < 3 && Before(m, n, i, j) && b[m][n] == Blank
            && bestVal == Val(MoveValue(b, m, n))
            && (forall p, q :: 0 <= p < 3 && 0 <= q < 3 && Before(p, q, i, j) && b[p][q] == Blank ==>
                  MoveValue(b, p, q) <= MoveValue(b, m, n))
            && (forall p, q :: 0 <= p < 3 && 0 <= q < 3 && Before(p, q, m, n) && b[p][q] == Blank ==>
                  MoveValue(b, p, q) < MoveValue(b, m, n)))
    decreases i, j
  {
    if j == 0 {
      if i > 0 {
        PickSpec(b, i - 1, 3);
      }
    } else {
      PickSpec(b, i, j - 1);
    }
  }

  /**
   * evaluate_next_move returns (-1, -1) iff the board has no '_'; otherwise
   * an empty cell whose move value is maximal over all empty cells and
   * strictly greater than that of every earlier empty cell in row-major order.
   */
  lemma NextMoveSpec(b: Board)
    ensures NextMove(b) == (-1, -1) <==> !MovesLeft(b)
    ensures var (i, j) := NextMove(b);
      (i, j) != (-1, -1) ==>
        && 0 <= i < 3 && 0 <= j < 3 && b[i][j] == Blank
        && (forall p, q :: 0 <= p < 3 && 0 <= q < 3 && b[p][q] == Blank ==> MoveValue(b, p, q) <= MoveValue(b, i, j))
        && (forall p, q :: 0 <= p < 3 && 0 <= q < 3 && Before(p, q, i, j) && b[p][q] == Blank ==>
              MoveValue(b, p, q) < MoveValue(b, i, j))
  {
    PickSpec(b, 3, 0);
  }

  /** An immediate win for 'x' on some empty cell makes the chosen move a win. */
  lemma NextMoveTakesWin(b: Board, r: int, c: int)
    requires 0 <= r < 3 && 0 <= c < 3 && b[r][c] == Blank && Evaluate(Set(b, r, c, X)) == 10
    ensures var (i, j) := NextMove(b); 0 <= i < 3 && 0 <= j < 3 && MoveValue(b, i, j) == 10
  {
    NextMoveSpec(b);
    assert MoveValue(b, r, c) == 10;
  }

  /**
   * With 'x' on (0, 0) and (0, 1) and (0, 2) empty, the chosen move is (0, 2):
   * it is the first empty cell and it wins at once.
   */
  lemma NextMoveCompletesTopRow(b: Board)
    requires b[0][0] == X && b[0][1] == X && b[0][2] == Blank
    ensures NextMove(b) == (0, 2)
  {
    var b' := Set(b, 0, 2, X);
    assert Three(b'[0][0], b'[0][1], b'[0][2]);
    NextMoveTakesWin(b, 0, 2);
    NextMoveSpec(b);
  }

  /**
   * evaluate_next_move: tries 'x' on every empty cell in place, asks minimax
   * for the reply value, resets the cell, and keeps the first cell whose value
   * strictly exceeds the best so far. The board comes back unchanged.
   */
  method EvaluateNextMove(board: array2<Cell>) returns (move: (int, int))
    requires board.Length0 == 3 && board.Length1 == 3
    modifies board
    ensures forall r, c :: 0 <= r < 3 && 0 <= c < 3 ==> board[r, c] == old(board[r, c])
    ensures move == NextMove(old(Cells(board)))
  {
    ghost var b0 := Cells(board);
    var bestVal := NegInf;
    move := (-1, -1);
    for i := 0 to 3
      invariant forall r, c :: 0 <= r < 3 && 0 <= c < 3 ==> board[r, c] == b0[r][c]
      invariant (bestVal, move) == Pick(b0, i, 0)
    {
      for j := 0 to 3
        invariant forall r, c :: 0 <= r < 3 && 0 <= c < 3 ==> board[r, c] == b0[r][c]
        invariant (bestVal, move) == Pick(b0, i, j)
      {
        if board[i, j] == Blank {
          BoardExt(Cells(board), b0);
          var moveVal := TryMove(board, i, j, X, 0, false);
          if Exceeds(moveVal, bestVal) {
            move := (i, j);
            bestVal := Val(moveVal);
          }
        }
      }
    }
  }

  // ---------------------------------------------------------------------------
  // check_winner and the terminal game's move entry

  /**
   * check_winner: "Robot wins!" for a first complete line of 'x', "Human wins!"
   * for one of 'o', "It's a draw!" for a full board without a line, else None.
   */
  function CheckWinner(b: Board): (r: Option<string>)
    ensures r == Some("Robot wins!") <==> HasLine(b, X) && Evaluate(b) == 10
    ensures r == Some("Human wins!") <==> HasLine(b, O) && Evaluate(b) == -10
    ensures r == Some("It's a draw!") <==> !HasLine(b, X) && !HasLine(b, O) && !MovesLeft(b)
    ensures r == None <==> !HasLine(b, X) && !HasLine(b, O) && MovesLeft(b)
  {
    EvaluateNonzero(b);
    var val := Evaluate(b);
    if val == 10 then Some("Robot wins!")
    else if val == -10 then Some("Human wins!")
    else if !MovesLeft(b) then Some("It's a draw!")
    else None
  }

  /** The outcome of typing "row col" in the terminal game. */
  datatype Entry = Placed(board: Board) | Taken | Rejected

  /** Python's `board[i]` for an index in -3..2: negative indices count from the end. */
  function PyIndex(i: int): int
  {
    if i < 0 then i + 3 else i
  }

  /**
   * The human move of the terminal game as written: the 1-based input is
   * shifted down by one and used as a Python index, so an IndexError (a
   * rejected entry) happens only outside -3..2.
   */
  function EnterMoveAsWritten(b: Board, row: int, col: int): (r: Entry)
    ensures r.Rejected? <==> !(-2 <= row <= 3 && -2 <= col <= 3)
    ensures r.Placed? ==> r.board == Set(b, (row - 1) % 3, (col - 1) % 3, O)
    ensures r.Taken? <==> -2 <= row <= 3 && -2 <= col <= 3 && b[(row - 1) % 3][(col - 1) % 3] != Blank
  {
    var i, j := row - 1, col - 1;
    if !(-3 <= i < 3 && -3 <= j < 3) then Rejected
    else if b[PyIndex(i)][PyIndex(j)] == Blank then Placed(Set(b, PyIndex(i), PyIndex(j), O))
    else Taken
  }

  /** Typing "0 0" on an empty board places 'o' in the bottom-right cell. */
  lemma EnterMoveZeroWraps()
    ensures EnterMoveAsWritten(EmptyBoard, 0, 0) == Placed(Set(EmptyBoard, 2, 2, O))
  {
  }

  /** The human move with the intended range check: rows and columns 1..3 only. */
  function EnterMove(b: Board, row: int, col: int): (r: Entry)
    ensures r.Placed? <==> 1 <= row <= 3 && 1 <= col <= 3 && b[row - 1][col - 1] == Blank
    ensures r.Placed? ==> r.board == Set(b, row - 1, col - 1, O)
    ensures r.Taken? <==> 1 <= row <= 3 && 1 <= col <= 3 && b[row - 1][col - 1] != Blank
  {
    if !(1 <= row <= 3 && 1 <= col <= 3) then Rejected
    else if b[row - 1][col - 1] == Blank then Placed(Set(b, row - 1, col - 1, O))
    else Taken
  }

  /** Inside the intended range the corrected entry agrees with the source. */
  lemma EnterMoveAgrees(b: Board, row: int, col: int)
    requires 1 <= row <= 3 && 1 <= col <= 3
    ensures EnterMove(b, row, col) == EnterMoveAsWritten(b, row, col)
  {
  }
}
