/** The computer opponent of the tic-tac-toe game: `computeBestMove`, an
    exhaustive minimax search without pruning or depth discount. The pure
    functions below define the value of the search; the methods carry out the
    search the way the source does, marking and unmarking squares of one
    private copy of the board. */
module MinimaxSearch {
  import opened TicTacToe

  /** A mark a player can place. */
  type Mark = c: Cell | c != Empty witness X

  /** `huPlayer`: the side the search plays against. */
  function Opponent(ai: Mark): (hu: Mark)
    ensures hu != ai
  {
    if ai == O then X else O
  }

  /** The side that moves after `player`. */
  function NextPlayer(player: Mark, ai: Mark): Mark
  {
    if player == ai then Opponent(ai) else ai
  }

  /** One entry of the `moves` list: a square and the score found for it. */
  datatype ScoredMove = ScoredMove(index: nat, score: int)

  /** What `minmax` returns: a bare `{score}` at a finished board, or the
      chosen `{index, score}` otherwise. */
  datatype SearchResult = Leaf(score: int) | Chosen(index: nat, score: int)

  /** `score` beats `best` for the maximiser (strict `>`) or the minimiser
      (strict `<`). */
  predicate Improves(score: int, best: int, maximize: bool)
  {
    if maximize then score > best else score < best
  }

  /** The selection loop over `moves`: the position of the first move whose
      score no other move improves on. */
  function Pick(moves: seq<ScoredMove>, maximize: bool): (k: nat)
    requires |moves| > 0
    ensures k < |moves|
    ensures forall j :: 0 <= j < |moves| ==> !Improves(moves[j].score, moves[k].score, maximize)
    ensures forall j :: 0 <= j < k ==> Improves(moves[k].score, moves[j].score, maximize)
  {
    if |moves| == 1 then 0
    else
      var n := |moves| - 1;
      var k := Pick(moves[..n], maximize);
      assert forall j :: 0 <= j < n ==> moves[..n][j] == moves[j];
      if Improves(moves[n].score, moves[k].score, maximize) then n else k
  }

  /** The value `minmax(b, player)` returns. Leaf scores depend on the mark,
      not on `ai`: an X line is -10, an O line +10, a full board 0, and the
      winner is looked at before fullness. */
  function Minimax(b: Board, player: Mark, ai: Mark): SearchResult
    decreases Count(b, Empty), 2
  {
    var winner := Winner(b);
    if winner == X then Leaf(-10)
    else if winner == O then Leaf(10)
    else if EmptyIndices(b) == [] then Leaf(0)
    else
      var moves := Explore(b, EmptyIndices(b), player, ai);
      var k := Pick(moves, player == ai);
      Chosen(moves[k].index, moves[k].score)
  }

  /** The `moves` list built by the loop over `avail`: for each empty square,
      in the given order, the score of the board with `player` placed there. */
  function Explore(b: Board, avail: seq<nat>, player: Mark, ai: Mark): (moves: seq<ScoredMove>)
    requires forall j :: 0 <= j < |avail| ==> avail[j] < 9 && b[avail[j]] == Empty
    decreases Count(b, Empty), 1, |avail|
    ensures |moves| == |avail|
    ensures forall j :: 0 <= j < |avail| ==> moves[j].index == avail[j]
  {
    if avail == [] then []
    else
      var n := |avail| - 1;
      Explore(b, avail[..n], player, ai) + [ScoredMove(avail[n], ChildScore(b, avail[n], player, ai))]
  }

  /** The score the search finds for `player` taking square `i`. */
  function ChildScore(b: Board, i: Index, player: Mark, ai: Mark): int
    requires b[i] == Empty
    decreases Count(b, Empty), 0
  {
    CountUpdate(b, i, player, Empty);
    Minimax(b[i := player], NextPlayer(player, ai), ai).score
  }

  /** Exploring one more square appends that square's entry. */
  lemma ExploreStep(b: Board, avail: seq<nat>, k: nat, player: Mark, ai: Mark)
    requires forall j :: 0 <= j < |avail| ==> avail[j] < 9 && b[avail[j]] == Empty
    requires k < |avail|
    ensures Explore(b, avail[..k + 1], player, ai) ==
      Explore(b, avail[..k], player, ai) + [ScoredMove(avail[k], ChildScore(b, avail[k], player, ai))]
  {
    assert avail[..k + 1][..k] == avail[..k];
  }

  /** Each entry of `moves` carries the score of its own child board. */
  lemma {:induction false} ExploreScoreAt(b: Board, avail: seq<nat>, player: Mark, ai: Mark, m: nat)
    requires forall j :: 0 <= j < |avail| ==> avail[j] < 9 && b[avail[j]] == Empty
    requires m < |avail|
    ensures Explore(b, avail, player, ai)[m] == ScoredMove(avail[m], ChildScore(b, avail[m], player, ai))
    decreases |avail|
  {
    if m < |avail| - 1 {
      ExploreScoreAt(b, avail[..|avail| - 1], player, ai, m);
    }
  }

  /** The search returns a move exactly when nobody has won and a square is
      free; otherwise the leaf score of the finished board. */
  lemma MinimaxShape(b: Board, player: Mark, ai: Mark)
    ensures Minimax(b, player, ai).Chosen? <==> Winner(b) == Empty && Count(b, Empty) > 0
    ensures Winner(b) == X ==> Minimax(b, player, ai) == Leaf(-10)
    ensures Winner(b) == O ==> Minimax(b, player, ai) == Leaf(10)
    ensures Winner(b) == Empty && Count(b, Empty) == 0 ==> Minimax(b, player, ai) == Leaf(0)
  {
  }

  /** The chosen move is a free square and its score is that of its child
      board. */
  lemma ChoiceIsFree(b: Board, player: Mark, ai: Mark)
    requires Minimax(b, player, ai).Chosen?
    ensures var r := Minimax(b, player, ai);
      r.index < 9 && b[r.index] == Empty && r.score == ChildScore(b, r.index, player, ai)
  {
    var avail := EmptyIndices(b);
    var k := Pick(Explore(b, avail, player, ai), player == ai);
    ExploreScoreAt(b, avail, player, ai, k);
  }

  /** No free square `j` scores better than the chosen move for the side to
      move, and if `j` comes before the chosen move it scores strictly worse. */
  lemma ChoiceBeats(b: Board, player: Mark, ai: Mark, j: Index)
    requires Minimax(b, player, ai).Chosen? && b[j] == Empty
    ensures var r := Minimax(b, player, ai);
      && !Improves(ChildScore(b, j, player, ai), r.score, player == ai)
      && (j < r.index ==> Improves(r.score, ChildScore(b, j, player, ai), player == ai))
  {
    var avail := EmptyIndices(b);
    var k := Pick(Explore(b, avail, player, ai), player == ai);
    var m :| 0 <= m < |avail| && avail[m] == j;
    ExploreScoreAt(b, avail, player, ai, m);
    ExploreScoreAt(b, avail, player, ai, k);
    if j < avail[k] {
      AscendingOrder(avail, m, k);
    }
  }

  /** In a strictly ascending sequence, a smaller entry sits at an earlier
      position. */
  lemma AscendingOrder(s: seq<nat>, m: nat, k: nat)
    requires forall p, q :: 0 <= p < q < |s| ==> s[p] < s[q]
    requires m < |s| && k < |s| && s[m] < s[k]
    ensures m < k
  {
  }

  /** The chosen move is a free square, its score is that of its child board,
      no free square scores better for the side to move, and every free
      square before it scores strictly worse (first best wins ties). */
  lemma ChoiceIsOptimal(b: Board, player: Mark, ai: Mark)
    requires Minimax(b, player, ai).Chosen?
    ensures var r := Minimax(b, player, ai);
      && r.index < 9 && b[r.index] == Empty
      && r.score == ChildScore(b, r.index, player, ai)
      && (forall j: Index :: b[j] == Empty ==>
            !Improves(ChildScore(b, j, player, ai), r.score, player == ai))
      && (forall j: Index :: j < r.index && b[j] == Empty ==>
            Improves(r.score, ChildScore(b, j, player, ai), player == ai))
  {
    ChoiceIsFree(b, player, ai);
    forall j: Index | b[j] == Empty
      ensures !Improves(ChildScore(b, j, player, ai), Minimax(b, player, ai).score, player == ai)
      ensures j < Minimax(b, player, ai).index ==>
        Improves(Minimax(b, player, ai).score, ChildScore(b, j, player, ai), player == ai)
    {
      ChoiceBeats(b, player, ai, j);
    }
  }

  /** With a single free square and no winner, the search takes that square. */
  lemma OnlyMove(b: Board, i: Index, player: Mark, ai: Mark)
    requires Winner(b) == Empty && b[i] == Empty
    requires forall j: Index :: j != i ==> b[j] != Empty
    ensures Minimax(b, player, ai) == Chosen(i, ChildScore(b, i, player, ai))
  {
    assert i in EmptyIndices(b);
    MinimaxShape(b, player, ai);
    ChoiceIsOptimal(b, player, ai);
  }

  /** Every score of the search lies between -10 and 10. */
  lemma {:induction false} ScoreBounds(b: Board, player: Mark, ai: Mark)
    ensures -10 <= Minimax(b, player, ai).score <= 10
    decreases Count(b, Empty), 1
  {
    MinimaxShape(b, player, ai);
    if Winner(b) == Empty && Count(b, Empty) > 0 {
      ChoiceIsFree(b, player, ai);
      ChildScoreBounds(b, Minimax(b, player, ai).index, player, ai);
    }
  }

  /** The score of taking a free square lies between -10 and 10. */
  lemma {:induction false} ChildScoreBounds(b: Board, i: Index, player: Mark, ai: Mark)
    requires b[i] == Empty
    ensures -10 <= ChildScore(b, i, player, ai) <= 10
    decreases Count(b, Empty), 0
  {
    CountUpdate(b, i, player, Empty);
    ScoreBounds(b[i := player], NextPlayer(player, ai), ai);
  }

  /** What `computeBestMove(board, ai)` returns. */
  function BestMove(b: Board, ai: Mark): int
  {
    if EmptyIndices(b) == [] then -1
    else
      match Minimax(b, ai, ai)
      case Chosen(i, _) => i
      case Leaf(_) => -1
  }

  /** The loop that picks the best entry of `moves`; "no best move yet"
      stands for the source's initial `bestScore` of minus or plus infinity,
      which every score beats. */
  method SelectBest(moves: seq<ScoredMove>, maximize: bool) returns (best: nat)
    requires |moves| > 0
    ensures best == Pick(moves, maximize)
  {
    var found := false;
    var bestScore := 0;
    best := 0;
    for k := 0 to |moves|
      invariant found <==> k > 0
      invariant found ==> best == Pick(moves[..k], maximize) && bestScore == moves[best].score
    {
      if !found || Improves(moves[k].score, bestScore, maximize) {
        best, bestScore := k, moves[k].score;
      }
      found := true;
      assert moves[..k + 1][..k] == moves[..k];
    }
    assert moves[..|moves|] == moves;
  }

  /** `minmax(newBoard, player)`: the leaf scores of a finished board,
      otherwise the best entry of the `moves` list built by `ExploreInPlace`. */
  method Minmax(a: array<Cell>, player: Mark, ai: Mark) returns (r: SearchResult)
    requires a.Length == 9
    modifies a
    decreases Count(a[..], Empty), 2
    ensures a[..] == old(a[..])
    ensures r == Minimax(old(a[..]), player, ai)
  {
    var b: Board := a[..];
    var avail := EmptyIndices(b);
    var winner := Winner(b);
    if winner == X { return Leaf(-10); }
    if winner == O { return Leaf(10); }
    if |avail| == 0 { return Leaf(0); }
    var moves := ExploreInPlace(a, avail, player, ai);
    var k := SelectBest(moves, player == ai);
    r := Chosen(moves[k].index, moves[k].score);
  }

  /** The loop of `minmax` over `avail`: for each free square, mark it with
      `player`, search the resulting board for the other side, and clear the
      square again, so that the board is the same after every round. */
  method ExploreInPlace(a: array<Cell>, avail: seq<nat>, player: Mark, ai: Mark)
      returns (moves: seq<ScoredMove>)
    requires a.Length == 9
    requires forall j :: 0 <= j < |avail| ==> avail[j] < 9 && a[avail[j]] == Empty
    modifies a
    decreases Count(a[..], Empty), 1
    ensures a[..] == old(a[..])
    ensures moves == Explore(old(a[..]), avail, player, ai)
  {
    var b: Board := a[..];
    moves := [];
    for k := 0 to |avail|
      invariant a[..] == b
      invariant moves == Explore(b, avail[..k], player, ai)
    {
      var i := avail[k];
      var score := TrySquare(a, i, player, ai);
      ExploreStep(b, avail, k, player, ai);
      moves := moves + [ScoredMove(i, score)];
    }
    assert avail[..|avail|] == avail;
  }

  /** One round of the loop: mark square `i` with `player`, search the
      resulting board for the other side, and clear the square again. */
  method TrySquare(a: array<Cell>, i: Index, player: Mark, ai: Mark) returns (score: int)
    requires a.Length == 9 && a[i] == Empty
    modifies a
    decreases Count(a[..], Empty), 0
    ensures a[..] == old(a[..])
    ensures score == ChildScore(old(a[..]), i, player, ai)
  {
    var b: Board := a[..];
    a[i] := player;
    assert a[..] == b[i := player];
    CountUpdate(b, i, player, Empty);
    var result;
    if player == ai {
      result := Minmax(a, Opponent(ai), ai);
    } else {
      result := Minmax(a, ai, ai);
    }
    a[i] := Empty;
    assert a[..] == b[i := player][i := Empty] == b;
    score := result.score;
  }

  /** `computeBestMove(board, ai)`: -1 when there is no free square or the
      board is already won, otherwise a free square that is best for `ai`
      under the search, the first such square in ascending order. */
  method ComputeBestMove(board: Board, ai: Mark) returns (move: int)
    ensures move == BestMove(board, ai)
    ensures move == -1 <==> Count(board, Empty) == 0 || Winner(board) != Empty
    ensures move != -1 ==>
      && 0 <= move < 9 && board[move] == Empty
      && (forall j: Index :: board[j] == Empty ==> ChildScore(board, j, ai, ai) <= ChildScore(board, move, ai, ai))
      && (forall j: Index :: j < move && board[j] == Empty ==> ChildScore(board, j, ai, ai) < ChildScore(board, move, ai, ai))
  {
    var avail := EmptyIndices(board);
    if |avail| == 0 { return -1; }
    var a := new Cell[9](i requires 0 <= i < 9 => board[i]);
    assert a[..] == board;
    var result := Minmax(a, ai, ai);
    move := if result.Chosen? then result.index else -1;
    MinimaxShape(board, ai, ai);
    if result.Chosen? {
      ChoiceIsOptimal(board, ai, ai);
    }
  }
}
