/** Concrete boards worked through by hand: win detection on a finished and
    on an unfinished board, and the computer blocking a line. */
module Scenarios {
  import opened TicTacToe
  import opened MinimaxSearch

  /** Square by square, `b` holds `cells`. */
  predicate Shows(b: Board, cells: seq<Cell>)
  {
    |cells| == 9 && forall i :: 0 <= i < 9 ==> b[i] == cells[i]
  }

  /** Writing one square of a board writes the same square of its picture. */
  lemma ShowsUpdate(b: Board, cells: seq<Cell>, i: Index, v: Cell)
    requires Shows(b, cells)
    ensures Shows(b[i := v], cells[i := v])
  {
  }

  /** A board on which no line is won has no winner. */
  lemma NoLineNoWinner(b: Board)
    requires !LineWon(b, 0) && !LineWon(b, 1) && !LineWon(b, 2) && !LineWon(b, 3)
    requires !LineWon(b, 4) && !LineWon(b, 5) && !LineWon(b, 6) && !LineWon(b, 7)
    ensures Winner(b) == Empty
  {
  }

  /** A full board without a line: no winner, so the search scores it 0. */
  lemma FullBoardWithoutLine(b: Board)
    requires Shows(b, [X, O, X, X, O, O, O, X, X])
    ensures Winner(b) == Empty
    ensures Minimax(b, O, O) == Leaf(0)
  {
    NoLineNoWinner(b);
    CountAbsent(b, Empty);
    MinimaxShape(b, O, O);
  }

  /** The top row wins for X although squares are still free, and the search
      scores the board -10 without looking at the free squares. */
  lemma TopRowWins(b: Board)
    requires Shows(b, [X, X, X, O, O, Empty, Empty, Empty, Empty])
    ensures Winner(b) == X
    ensures Minimax(b, O, O) == Leaf(-10)
  {
    assert FirstWonLine(b, 0);
    MinimaxShape(b, O, O);
  }

  /** X threatens the top row; squares 2 and 8 are free and O is to move. */
  lemma ThreatHasNoWinner(b: Board)
    requires Shows(b, [X, X, Empty, O, O, X, X, O, Empty])
    ensures Winner(b) == Empty && b[2] == Empty && b[8] == Empty
    ensures b[0] != Empty && b[1] != Empty && b[3] != Empty && b[4] != Empty
    ensures b[5] != Empty && b[6] != Empty && b[7] != Empty
  {
    NoLineNoWinner(b);
  }

  /** O has taken square 8; only square 2 is free. */
  lemma EightTakenHasNoWinner(b: Board)
    requires Shows(b, [X, X, Empty, O, O, X, X, O, O])
    ensures Winner(b) == Empty && b[2] == Empty
    ensures forall j: Index :: j != 2 ==> b[j] != Empty
  {
    NoLineNoWinner(b);
  }

  /** O has taken square 2; only square 8 is free. */
  lemma TwoTakenHasNoWinner(b: Board)
    requires Shows(b, [X, X, O, O, O, X, X, O, Empty])
    ensures Winner(b) == Empty && b[8] == Empty
    ensures forall j: Index :: j != 8 ==> b[j] != Empty
  {
    NoLineNoWinner(b);
  }

  /** X has completed the top row. */
  lemma TopRowScore(b: Board)
    requires Shows(b, [X, X, X, O, O, X, X, O, O])
    ensures Minimax(b, O, O) == Leaf(-10)
  {
    assert FirstWonLine(b, 0);
    MinimaxShape(b, O, O);
  }

  /** The board is full and no line is won. */
  lemma DrawScore(b: Board)
    requires Shows(b, [X, X, O, O, O, X, X, O, X])
    ensures Minimax(b, O, O) == Leaf(0)
  {
    NoLineNoWinner(b);
    CountAbsent(b, Empty);
    MinimaxShape(b, O, O);
  }

  /** After O takes square 8, X's only reply, square 2, completes the top
      row. */
  lemma EightTakenScore(b: Board)
    requires Shows(b, [X, X, Empty, O, O, X, X, O, O])
    ensures Minimax(b, X, O).score == -10
  {
    assert ChildScore(b, 2, X, O) == -10 by {
      var x: Board := b[2 := X];
      ShowsUpdate(b, [X, X, Empty, O, O, X, X, O, O], 2, X);
      TopRowScore(x);
    }
    assert Minimax(b, X, O) == Chosen(2, ChildScore(b, 2, X, O)) by {
      EightTakenHasNoWinner(b);
      OnlyMove(b, 2, X, O);
    }
  }

  /** After O takes square 2, X's only reply, square 8, fills the board
      without a line. */
  lemma TwoTakenScore(b: Board)
    requires Shows(b, [X, X, O, O, O, X, X, O, Empty])
    ensures Minimax(b, X, O).score == 0
  {
    assert ChildScore(b, 8, X, O) == 0 by {
      var x: Board := b[8 := X];
      ShowsUpdate(b, [X, X, O, O, O, X, X, O, Empty], 8, X);
      DrawScore(x);
    }
    assert Minimax(b, X, O) == Chosen(8, ChildScore(b, 8, X, O)) by {
      TwoTakenHasNoWinner(b);
      OnlyMove(b, 8, X, O);
    }
  }

  /** O taking square 8 of the threatened board scores -10. */
  lemma TakingEightLoses(b: Board)
    requires Shows(b, [X, X, Empty, O, O, X, X, O, Empty])
    ensures ChildScore(b, 8, O, O) == -10
  {
    var b8: Board := b[8 := O];
    ShowsUpdate(b, [X, X, Empty, O, O, X, X, O, Empty], 8, O);
    EightTakenScore(b8);
  }

  /** O taking square 2 of the threatened board scores 0. */
  lemma TakingTwoDraws(b: Board)
    requires Shows(b, [X, X, Empty, O, O, X, X, O, Empty])
    ensures ChildScore(b, 2, O, O) == 0
  {
    var b2: Board := b[2 := O];
    ShowsUpdate(b, [X, X, Empty, O, O, X, X, O, Empty], 2, O);
    TwoTakenScore(b2);
  }

  /** A free square of a board on which only squares 2 and 8 may be free. */
  lemma FreeSquares(b: Board, i: nat)
    requires b[0] != Empty && b[1] != Empty && b[3] != Empty && b[4] != Empty
    requires b[5] != Empty && b[6] != Empty && b[7] != Empty
    requires i < 9 && b[i] == Empty
    ensures i == 2 || i == 8
  {
  }

  /** With only squares 2 and 8 free, a draw behind square 2 and a loss
      behind square 8, the maximiser takes square 2. */
  lemma PrefersDrawToLoss(b: Board)
    requires Winner(b) == Empty && b[2] == Empty && b[8] == Empty
    requires b[0] != Empty && b[1] != Empty && b[3] != Empty && b[4] != Empty
    requires b[5] != Empty && b[6] != Empty && b[7] != Empty
    requires ChildScore(b, 8, O, O) == -10 && ChildScore(b, 2, O, O) == 0
    ensures BestMove(b, O) == 2
  {
    assert 2 in EmptyIndices(b);
    MinimaxShape(b, O, O);
    var r := Minimax(b, O, O);
    ChoiceIsFree(b, O, O);
    ChoiceBeats(b, O, O, 2);
    FreeSquares(b, r.index);
  }

  /** Taking square 8 loses (-10) and taking square 2 draws (0): the computer
      takes square 2 and blocks the top row. */
  lemma ComputerBlocks(b: Board)
    requires Shows(b, [X, X, Empty, O, O, X, X, O, Empty])
    ensures BestMove(b, O) == 2
  {
    ThreatHasNoWinner(b);
    TakingEightLoses(b);
    TakingTwoDraws(b);
    PrefersDrawToLoss(b);
  }
}
