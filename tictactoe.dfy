/** The tic-tac-toe rules of the game hub: the board, win detection and the
    move transition of the two-player / versus-computer game. */
module TicTacToe {

  /** One square of the board; `Empty` stands for the source's `null`. */
  datatype Cell = Empty | X | O

  /** A position on the 3x3 board, row-major. */
  type Index = i: nat | i < 9

  /** The board is always nine squares long. */
  type Board = b: seq<Cell> | |b| == 9
    witness [Empty, Empty, Empty, Empty, Empty, Empty, Empty, Empty, Empty]

  const EmptyBoard: Board := [Empty, Empty, Empty, Empty, Empty, Empty, Empty, Empty, Empty]

  /** The eight winning lines, in the order in which they are scanned:
      three rows, three columns, two diagonals. */
  const Lines: seq<(Index, Index, Index)> :=
    [(0, 1, 2), (3, 4, 5), (6, 7, 8), (0, 3, 6), (1, 4, 7), (2, 5, 8), (0, 4, 8), (2, 4, 6)]

  /** Line `k` holds three equal, non-empty marks. */
  predicate LineWon(b: Board, k: nat)
    requires k < |Lines|
  {
    var (p, q, r) := Lines[k];
    b[p] != Empty && b[p] == b[q] && b[p] == b[r]
  }

  /** The mark in the first square of line `k`. */
  function LineMark(b: Board, k: nat): Cell
    requires k < |Lines|
  {
    b[Lines[k].0]
  }

  /** No line from `lo` up to (not including) `hi` is won. */
  predicate NoLineWonIn(b: Board, lo: nat, hi: nat)
    requires hi <= |Lines|
  {
    forall j :: lo <= j < hi ==> !LineWon(b, j)
  }

  /** Line `k` is won and no earlier line is. */
  predicate FirstWonLine(b: Board, k: nat)
    requires k < |Lines|
  {
    LineWon(b, k) && NoLineWonIn(b, 0, k)
  }

  /** A line that is not won extends a stretch of lines that are not won. */
  lemma NoLineWonExtend(b: Board, k: nat, j: nat)
    requires k < j <= |Lines|
    requires !LineWon(b, k) && NoLineWonIn(b, k + 1, j)
    ensures NoLineWonIn(b, k, j)
  {
  }

  /** The scan of `calculateWinner` from line `k` onwards. */
  function WinnerFrom(b: Board, k: nat): (r: Cell)
    requires k <= |Lines|
    decreases |Lines| - k
    ensures r == Empty <==> NoLineWonIn(b, k, |Lines|)
    ensures r != Empty ==>
      exists j :: k <= j < |Lines| && LineWon(b, j) && NoLineWonIn(b, k, j) && r == LineMark(b, j)
  {
    if k == |Lines| then Empty
    else if LineWon(b, k) then LineMark(b, k)
    else
      var r := WinnerFrom(b, k + 1);
      assert r != Empty ==>
        exists j :: k <= j < |Lines| && LineWon(b, j) && NoLineWonIn(b, k, j) && r == LineMark(b, j)
      by {
        if r != Empty {
          var j :| k + 1 <= j < |Lines| && LineWon(b, j) && NoLineWonIn(b, k + 1, j) && r == LineMark(b, j);
          NoLineWonExtend(b, k, j);
        }
      }
      r
  }

  /** `calculateWinner`: the mark of the first won line, or `Empty` (the
      source's `null`) when no line is won. */
  function Winner(b: Board): (r: Cell)
    ensures r == Empty <==> NoLineWonIn(b, 0, |Lines|)
    ensures r != Empty ==> exists j :: 0 <= j < |Lines| && FirstWonLine(b, j) && r == LineMark(b, j)
    ensures forall j :: 0 <= j < |Lines| && FirstWonLine(b, j) ==> r == LineMark(b, j)
  {
    var r := WinnerFrom(b, 0);
    assert forall j, j' :: 0 <= j < j' < |Lines| && FirstWonLine(b, j') ==> !LineWon(b, j);
    r
  }

  /** Number of squares of `s` holding `c`. */
  function Count(s: seq<Cell>, c: Cell): nat
  {
    if s == [] then 0 else Count(s[..|s| - 1], c) + (if s[|s| - 1] == c then 1 else 0)
  }

  /** Writing `v` into square `i` moves one square from the count of `s[i]`
      to the count of `v`. */
  lemma {:induction false} CountUpdate(s: seq<Cell>, i: nat, v: Cell, c: Cell)
    requires i < |s|
    ensures Count(s[i := v], c) == Count(s, c) - (if s[i] == c then 1 else 0) + (if v == c then 1 else 0)
  {
    var n := |s| - 1;
    if i == n {
      assert s[i := v][..n] == s[..n];
    } else {
      CountUpdate(s[..n], i, v, c);
      assert s[i := v][..n] == s[..n][i := v];
    }
  }

  /** A mark that appears nowhere in `s` has count zero. */
  lemma {:induction false} CountAbsent(s: seq<Cell>, c: Cell)
    requires forall i :: 0 <= i < |s| ==> s[i] != c
    ensures Count(s, c) == 0
  {
    if s != [] {
      CountAbsent(s[..|s| - 1], c);
    }
  }

  /** `emptyIndices` / the `avail` fold: the indices of the empty squares,
      in ascending order. */
  function EmptyIndices(s: seq<Cell>): (r: seq<nat>)
    ensures |r| == Count(s, Empty)
    ensures forall k :: 0 <= k < |r| ==> r[k] < |s| && s[r[k]] == Empty
    ensures forall i :: 0 <= i < |s| && s[i] == Empty ==> i in r
    ensures forall j, k :: 0 <= j < k < |r| ==> r[j] < r[k]
  {
    if s == [] then []
    else
      var n := |s| - 1;
      var front := s[..n];
      var p := EmptyIndices(front);
      assert forall i :: 0 <= i < n ==> front[i] == s[i];
      if s[n] == Empty then p + [n] else p
  }

  /** The state of `TicTacToeGame`: the board and whose turn it is. */
  datatype Game = Game(board: Board, xIsNext: bool)

  /** `reset`: an empty board with X to move. */
  function Reset(): (g: Game)
    ensures g.xIsNext
    ensures forall i: Index :: g.board[i] == Empty
    ensures Winner(g.board) == Empty
  {
    assert forall j :: 0 <= j < |Lines| ==> !LineWon(EmptyBoard, j);
    Game(EmptyBoard, true)
  }

  /** `play(i)`: ignored when square `i` is taken or the game is already won;
      otherwise the mover's mark goes into square `i` and the turn passes. */
  function Play(g: Game, i: Index): (r: Game)
    ensures g.board[i] != Empty || Winner(g.board) != Empty ==> r == g
    ensures g.board[i] == Empty && Winner(g.board) == Empty ==>
      && r.xIsNext == !g.xIsNext
      && r.board[i] == (if g.xIsNext then X else O)
      && forall j: Index :: j != i ==> r.board[j] == g.board[j]
  {
    if g.board[i] != Empty || Winner(g.board) != Empty then g
    else Game(g.board[i := if g.xIsNext then X else O], !g.xIsNext)
  }

  /** A sequence of clicks, applied one after the other. */
  function PlayAll(g: Game, moves: seq<Index>): Game
    decreases |moves|
  {
    if moves == [] then g else PlayAll(Play(g, moves[0]), moves[1..])
  }

  /** X moves first, so X has one mark more than O exactly when O is to move. */
  predicate Balanced(g: Game)
  {
    Count(g.board, X) == Count(g.board, O) + (if g.xIsNext then 0 else 1)
  }

  /** `play` keeps the mark counts in step with the turn. */
  lemma PlayKeepsBalance(g: Game, i: Index)
    requires Balanced(g)
    ensures Balanced(Play(g, i))
  {
    if g.board[i] == Empty && Winner(g.board) == Empty {
      var m := if g.xIsNext then X else O;
      CountUpdate(g.board, i, m, X);
      CountUpdate(g.board, i, m, O);
    }
  }

  /** A balanced game stays balanced whatever is clicked. */
  lemma {:induction false} PlayAllKeepsBalance(g: Game, moves: seq<Index>)
    requires Balanced(g)
    ensures Balanced(PlayAll(g, moves))
    decreases |moves|
  {
    if moves != [] {
      PlayKeepsBalance(g, moves[0]);
      PlayAllKeepsBalance(Play(g, moves[0]), moves[1..]);
    }
  }

  /** Every game reached from `reset` by clicks is balanced. */
  lemma ReachableIsBalanced(moves: seq<Index>)
    ensures Balanced(PlayAll(Reset(), moves))
  {
    CountAbsent(Reset().board, X);
    CountAbsent(Reset().board, O);
    PlayAllKeepsBalance(Reset(), moves);
  }

  /** `play` never erases or overwrites a mark. */
  lemma {:induction false} PlayAllKeepsMarks(g: Game, moves: seq<Index>, j: Index)
    requires g.board[j] != Empty
    ensures PlayAll(g, moves).board[j] == g.board[j]
    decreases |moves|
  {
    if moves != [] {
      PlayAllKeepsMarks(Play(g, moves[0]), moves[1..], j);
    }
  }

  /** A finished game is never changed by further clicks. */
  lemma {:induction false} FinishedGameIsFrozen(g: Game, moves: seq<Index>)
    requires Winner(g.board) != Empty
    ensures PlayAll(g, moves) == g
    decreases |moves|
  {
    if moves != [] {
      FinishedGameIsFrozen(Play(g, moves[0]), moves[1..]);
    }
  }
}
