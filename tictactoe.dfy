/** Tic-Tac-Toe on a 3 x 3 board of squares numbered 0..8 row by row. */
module TicTacToe {
  import opened Wrappers

  datatype Mark = X | O

  /** An empty square is `None`. */
  type Square = Option<Mark>

  /** The status line: still playing, won by a mark, or drawn. */
  datatype Verdict = Playing | Won(player: Mark) | Draw

  /** The rows, the columns and the two diagonals, in this order. */
  const WinningCombinations: seq<seq<nat>> := [
    [0, 1, 2], [3, 4, 5], [6, 7, 8],
    [0, 3, 6], [1, 4, 7], [2, 5, 8],
    [0, 4, 8], [2, 4, 6]
  ]

  /** Eight triples of distinct squares of the board. */
  lemma CombinationsWellFormed()
    ensures |WinningCombinations| == 8
    ensures forall k | 0 <= k < 8 :: |WinningCombinations[k]| == 3
    ensures forall k, i | 0 <= k < 8 && 0 <= i < 3 :: WinningCombinations[k][i] < 9
    ensures forall k, i, j | 0 <= k < 8 && 0 <= i < j < 3 :: WinningCombinations[k][i] != WinningCombinations[k][j]
  {
  }

  /** Combination `k` has the same mark `p` on all three of its squares. */
  predicate Complete(squares: seq<Square>, k: nat, p: Mark)
    requires |squares| == 9 && k < 8
  {
    CombinationsWellFormed();
    var combo := WinningCombinations[k];
    squares[combo[0]] == Some(p) && squares[combo[1]] == Some(p) && squares[combo[2]] == Some(p)
  }

  /** Combination `k` has one mark, whichever it is, on all three squares. */
  predicate Filled(squares: seq<Square>, k: nat)
    requires |squares| == 9 && k < 8
  {
    CombinationsWellFormed();
    var combo := WinningCombinations[k];
    squares[combo[0]].Some? && Complete(squares, k, squares[combo[0]].value)
  }

  /** A winning line and the mark on it. */
  datatype Win = Win(player: Mark, line: seq<nat>)

  /** The first combination from `k` on, in table order, that one mark fills. */
  function FirstFrom(squares: seq<Square>, k: nat): (r: Option<nat>)
    requires |squares| == 9 && k <= 8
    ensures r.Some? ==> k <= r.value < 8 && Filled(squares, r.value)
    ensures r.Some? ==> forall j | k <= j < r.value :: !Filled(squares, j)
    ensures r.None? ==> forall j | k <= j < 8 :: !Filled(squares, j)
    decreases 8 - k
  {
    CombinationsWellFormed();
    if k == 8 then None
    else
      var combo := WinningCombinations[k];
      var a := squares[combo[0]];
      if a.Some? && a == squares[combo[1]] && a == squares[combo[2]] then Some(k)
      else FirstFrom(squares, k + 1)
  }

  /** The winner of `squares`: the mark and the line of the first
      combination, in table order, whose three squares hold the same mark;
      `None` when no combination does. */
  function CalculateWinner(squares: seq<Square>): (r: Option<Win>)
    requires |squares| == 9
    ensures r.None? <==> forall k | 0 <= k < 8 :: !Filled(squares, k)
    ensures r.Some? ==> exists k | 0 <= k < 8 ::
              && Complete(squares, k, r.value.player)
              && r.value.line == WinningCombinations[k]
              && forall j | 0 <= j < k :: !Filled(squares, j)
  {
    CombinationsWellFormed();
    match FirstFrom(squares, 0)
    case None => None
    case Some(k) =>
      var p := squares[WinningCombinations[k][0]].value;
      assert Complete(squares, k, p);
      Some(Win(p, WinningCombinations[k]))
  }

  /** Everything a click reads or changes. */
  datatype State = State(board: seq<Square>, isXNext: bool, winner: Verdict, winningLine: seq<nat>)

  /** An empty board with X to move. */
  const Initial: State := State(seq(9, _ => None), true, Playing, [])

  function MarkFor(isXNext: bool): Mark { if isXNext then X else O }

  /** A click on square `index`: ignored when the square is taken or the game
      is decided; otherwise the mover's mark goes on the square, then a
      winning line ends the game, a full board is a draw, and otherwise the
      other mark moves next. */
  function Click(s: State, index: nat): State
    requires |s.board| == 9 && index < 9
  {
    if s.board[index].Some? || s.winner != Playing then s
    else
      var newBoard := s.board[index := Some(MarkFor(s.isXNext))];
      match CalculateWinner(newBoard)
      case Some(result) => s.(board := newBoard, winner := Won(result.player), winningLine := result.line)
      case None =>
        if None !in newBoard then s.(board := newBoard, winner := Draw)
        else s.(board := newBoard, isXNext := !s.isXNext)
  }

  /** How many squares of `board` hold `m`. */
  function Count(board: seq<Square>, m: Mark): nat {
    if board == [] then 0 else Count(board[..|board| - 1], m) + (if board[|board| - 1] == Some(m) then 1 else 0)
  }

  /** Marking an empty square adds one to that mark's count and leaves the
      other mark's count alone. */
  lemma {:induction false} CountMark(board: seq<Square>, i: nat, m: Mark, other: Mark)
    requires i < |board| && board[i] == None
    ensures Count(board[i := Some(m)], m) == Count(board, m) + 1
    ensures other != m ==> Count(board[i := Some(m)], other) == Count(board, other)
  {
    var n := |board| - 1;
    var b := board[i := Some(m)];
    if i == n {
      assert b[..n] == board[..n];
    } else {
      assert b[..n] == board[..n][i := Some(m)];
      CountMark(board[..n], i, m, other);
    }
  }

  lemma {:induction false} CountEmpty(board: seq<Square>, m: Mark)
    requires forall i | 0 <= i < |board| :: board[i] == None
    ensures Count(board, m) == 0
  {
    if board != [] {
      CountEmpty(board[..|board| - 1], m);
    }
  }

  /** What holds of every state reachable from `Initial`: the verdict agrees
      with the board, and X leads O by one mark when X made the last move
      and is level with O otherwise. */
  ghost predicate Inv(s: State) {
    && |s.board| == 9
    && (s.winner == Playing ==> CalculateWinner(s.board) == None && None in s.board)
    && (s.winner == Draw ==> CalculateWinner(s.board) == None && None !in s.board)
    && (s.winner.Won? ==> CalculateWinner(s.board) == Some(Win(s.winner.player, s.winningLine)))
    && var lead := if (s.winner == Playing) == s.isXNext then 0 else 1;
       Count(s.board, X) == Count(s.board, O) + lead
  }

  lemma InitialInv()
    ensures Inv(Initial)
  {
    CountEmpty(Initial.board, X);
    CountEmpty(Initial.board, O);
    assert Initial.board[0] == None;
    assert CalculateWinner(Initial.board) == None by {
      forall k | 0 <= k < 8 ensures !Filled(Initial.board, k) {
        CombinationsWellFormed();
      }
    }
  }

  /** Every click keeps the invariant. */
  lemma ClickKeepsInv(s: State, index: nat)
    requires Inv(s) && index < 9
    ensures Inv(Click(s, index))
  {
    if s.board[index] == None && s.winner == Playing {
      CountMark(s.board, index, MarkFor(s.isXNext), if s.isXNext then O else X);
    }
  }

  /** X never has fewer marks than O, nor more than one extra. */
  lemma MarkBalance(s: State)
    requires Inv(s)
    ensures Count(s.board, O) <= Count(s.board, X) <= Count(s.board, O) + 1
  {
  }

  /** A click on a taken square, or once the game is decided, changes nothing. */
  lemma ClickRejected(s: State, index: nat)
    requires |s.board| == 9 && index < 9
    requires s.board[index].Some? || s.winner != Playing
    ensures Click(s, index) == s
  {
  }

  /** A legal click writes the mover's mark on the clicked square and on no
      other square. */
  lemma ClickWritesOneSquare(s: State, index: nat)
    requires |s.board| == 9 && index < 9
    requires s.board[index] == None && s.winner == Playing
    ensures var t := Click(s, index);
            && |t.board| == 9
            && t.board[index] == Some(if s.isXNext then X else O)
            && forall i | 0 <= i < 9 && i != index :: t.board[i] == s.board[i]
  {
  }

  /** After a legal click: a winning line decides the game for the mover
      without passing the turn; otherwise a full board is a draw, again
      without passing the turn; otherwise the other mark moves next. */
  lemma ClickVerdict(s: State, index: nat)
    requires Inv(s) && index < 9
    requires s.board[index] == None && s.winner == Playing
    ensures var t := Click(s, index);
            var w := CalculateWinner(t.board);
            && (w.Some? ==> t.winner == Won(MarkFor(s.isXNext)) && t.winningLine == w.value.line && t.isXNext == s.isXNext)
            && (w.None? && None !in t.board ==> t.winner == Draw && t.isXNext == s.isXNext)
            && (w.None? && None in t.board ==> t.winner == Playing && t.isXNext == !s.isXNext)
  {
    var t := Click(s, index);
    var w := CalculateWinner(t.board);
    if w.Some? {
      // only the mover's mark is new, so a fresh win is made of it
      var k :| 0 <= k < 8 && Complete(t.board, k, w.value.player) && w.value.line == WinningCombinations[k]
                 && forall j | 0 <= j < k :: !Filled(t.board, j);
      NoEarlierWin(s.board, index, MarkFor(s.isXNext), k, w.value.player);
    }
  }

  /** Before the click no combination was filled, so one that is filled after
      it holds the mark just written. */
  lemma NoEarlierWin(board: seq<Square>, index: nat, m: Mark, k: nat, p: Mark)
    requires |board| == 9 && index < 9 && k < 8
    requires board[index] == None
    requires CalculateWinner(board) == None
    requires Complete(board[index := Some(m)], k, p)
    ensures p == m
  {
    CombinationsWellFormed();
    assert !Filled(board, k);
  }

  /** The game as the page holds it. */
  class Game {
    var board: seq<Square>
    var isXNext: bool
    var winner: Verdict
    var winningLine: seq<nat>

    function Snapshot(): State
      reads this
    {
      State(board, isXNext, winner, winningLine)
    }

    ghost predicate Valid()
      reads this
    {
      Inv(Snapshot())
    }

    constructor ()
      ensures Valid() && Snapshot() == Initial
    {
      board := seq(9, _ => None);
      isXNext := true;
      winner := Playing;
      winningLine := [];
      InitialInv();
    }

    method HandleClick(index: nat)
      requires Valid() && index < 9
      modifies this
      ensures Valid()
      ensures Snapshot() == Click(old(Snapshot()), index)
    {
      ClickKeepsInv(Snapshot(), index);
      if board[index].Some? || winner != Playing {
        return;
      }
      var newBoard := board[index := Some(if isXNext then X else O)];
      board := newBoard;
      var result := CalculateWinner(newBoard);
      if result.Some? {
        winner := Won(result.value.player);
        winningLine := result.value.line;
      } else if None !in newBoard {
        winner := Draw;
      } else {
        isXNext := !isXNext;
      }
    }

    /** An empty board, X to move, no winner and no winning line. */
    method ResetGame()
      modifies this
      ensures Valid() && Snapshot() == Initial
    {
      board := seq(9, _ => None);
      isXNext := true;
      winner := Playing;
      winningLine := [];
      InitialInv();
    }
  }
}
