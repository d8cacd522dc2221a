# Game hub: tic-tac-toe engine and snake step in Dafny

This project models the two pieces of game logic in the game hub's single
React file, `src/GameHub.jsx`:

- the tic-tac-toe engine of `TicTacToeGame`:
  - `calculateWinner`;
  - the `play` / `reset` transition on `(board, xIsNext)`;
  - the computer opponent `computeBestMove` with its inner `minmax` search.
- one tick of the snake game's `loop`: the head moves on a 30 by 20 torus
  (a 600 by 400 canvas in squares of 20), the tail grows and is cut back,
  food is eaten and self-collision is detected.

Files:

- `tictactoe.dfy` (module `TicTacToe`):
  - the board is nine `Cell`s, with `Empty` for the source's `null`;
  - `Winner` scans the eight lines in the source's order;
  - `EmptyIndices` is the `avail` fold;
  - `Play`, `Reset` and `PlayAll` give the game state machine;
  - lemmas show that the mark counts stay in step with the turn, that marks are never overwritten, and that a won game is frozen.
- `minimax.dfy` (module `MinimaxSearch`):
  - a pure specification of the search: `Minimax`, `Explore` and `Pick`;
  - the search as the source runs it: `Minmax`, `ExploreInPlace` and `TrySquare` mark and unmark squares of one array, and `SelectBest` is the selection loop;
  - each method is proved to return the value of the specification and to leave the array as it found it;
  - `ComputeBestMove` is `computeBestMove` on a private copy of the board;
  - lemmas give the leaf scores, the bound [-10, 10], and the first-best choice in ascending order.
- `snake.dfy` (module `Snake`): the class `SnakeGame` holds the state that the game loop closes over, and `Step` is one call of `loop`. It preserves these facts:
  - the head is on the field;
  - every tail square is on the field;
  - the tail starts at the head;
  - the tail holds at most `5 + score` squares.
- `scenarios.dfy` (module `Scenarios`): boards worked through by hand:
  - a full board without a line;
  - a board won by the top row while squares are still free;
  - a board where the computer (O) has to block X's top row, proved to take square 2.

`computeBestMove` returns -1 when the board has no free square, and also
when the board already has a winner. In that second case `minmax` returns a
bare `{score}` without an `index`. The model follows the code:
`ComputeBestMove` returns -1 exactly when no square is free or a line is
already won.

## Model

| member | source | states |
|---|---|---|
| TicTacToe.Winner | src/GameHub.jsx:431-435 | The result is empty exactly when no line is won. Otherwise it is the mark of a line that is won with no earlier line won, and every such first won line carries that mark. |
| TicTacToe.WinnerFrom | src/GameHub.jsx:433 | The scan from line k on returns empty exactly when no line from k on is won. Otherwise it returns the mark of a won line with no won line between k and it. |
| TicTacToe.EmptyIndices | src/GameHub.jsx:394 | The `avail` list has as many entries as the board has empty squares. Each entry is an empty square, every empty square appears, and the entries are strictly ascending. |
| TicTacToe.CountUpdate | src/GameHub.jsx:404 | Writing a mark into one square moves exactly one square from the count of the old content to the count of the new one. |
| TicTacToe.Reset | src/GameHub.jsx:364 | X is to move, every square is empty and there is no winner. |
| TicTacToe.Play | src/GameHub.jsx:356-362 | The game is unchanged when the square is taken or the game is won. Otherwise the square gets X when X is next and O otherwise, every other square is unchanged, and the turn flips. |
| TicTacToe.PlayKeepsBalance | src/GameHub.jsx:356-362 | A move keeps the number of X marks equal to the number of O marks, plus one when O is to move. |
| TicTacToe.PlayAllKeepsBalance | src/GameHub.jsx:356-362 | Any sequence of clicks keeps that balance. |
| TicTacToe.ReachableIsBalanced | src/GameHub.jsx:356-364 | Every game reached from `reset` by clicks is balanced. |
| TicTacToe.PlayAllKeepsMarks | src/GameHub.jsx:357-359 | A square that holds a mark keeps it, whatever is clicked afterwards. |
| TicTacToe.FinishedGameIsFrozen | src/GameHub.jsx:357 | Once a line is won, no click changes the game. |
| MinimaxSearch.Opponent | src/GameHub.jsx:391 | `huPlayer` is the other mark from `aiPlayer`. |
| MinimaxSearch.Pick | src/GameHub.jsx:416-422 | The chosen entry is one of the moves. No move beats it for the side to move, and it strictly beats every earlier move, so the first best wins ties. |
| MinimaxSearch.SelectBest | src/GameHub.jsx:416-422 | The selection loop, starting with no best move (the source's infinite `bestScore`), returns the entry `Pick` specifies. |
| MinimaxSearch.Explore | src/GameHub.jsx:400-414 | The `moves` list has one entry per square of `avail`, with the squares in the same order. |
| MinimaxSearch.ExploreStep | src/GameHub.jsx:400-414 | One more round of the loop appends the entry of that square, scored by searching its child board. |
| MinimaxSearch.ExploreScoreAt | src/GameHub.jsx:402-410 | Each entry of `moves` holds its square and the score of the board with `player` placed there, searched for the other side. |
| MinimaxSearch.MinimaxShape | src/GameHub.jsx:395-398 | The search returns a move exactly when nobody has won and a square is free. An X line scores -10 and an O line +10, even on a full board. A full board with no line scores 0. |
| MinimaxSearch.ChoiceIsFree | src/GameHub.jsx:400-422 | The chosen index is a free square, and its score is the score of its child board. |
| MinimaxSearch.ChoiceBeats | src/GameHub.jsx:416-422 | No free square scores better than the choice for the side to move. A free square before the choice scores strictly worse. |
| MinimaxSearch.ChoiceIsOptimal | src/GameHub.jsx:400-422 | The chosen move is free and scores its child's score. It is the best of all free squares for the side to move, and the first best in ascending order. |
| MinimaxSearch.OnlyMove | src/GameHub.jsx:400-422 | With a single free square and no winner, the search takes that square. |
| MinimaxSearch.ScoreBounds | src/GameHub.jsx:395-422 | Every score of the search lies in [-10, 10]. |
| MinimaxSearch.ChildScoreBounds | src/GameHub.jsx:402-410 | The score recorded for any free square lies in [-10, 10]. |
| MinimaxSearch.Minmax | src/GameHub.jsx:393-423 | The in-place search leaves the board array as it found it and returns the value of the pure specification. |
| MinimaxSearch.TrySquare | src/GameHub.jsx:402-412 | One round marks the square, searches the child board for the other side, and clears the square. The board is as before, and the score is the child's search score. |
| MinimaxSearch.ExploreInPlace | src/GameHub.jsx:400-414 | The loop over `avail` leaves the board as it found it and builds exactly the specified `moves` list. |
| MinimaxSearch.ComputeBestMove | src/GameHub.jsx:390-429 | The result is -1 exactly when no square is free or a line is already won. Otherwise it is a free square whose child score is maximal for the computer, strictly above every earlier free square. |
| Snake.Wrap | src/GameHub.jsx:287-288 | The two edge checks applied to a coordinate that moved one step put it back on the field, equal to the coordinate modulo the field size. |
| Snake.Trim | src/GameHub.jsx:291 | `pop` when the tail is longer than the limit: the result is a prefix of the tail, one square shorter exactly when the tail was over the limit. |
| Snake.HitsTail | src/GameHub.jsx:302 | The collision loop reports a hit exactly when some tail square from index 1 on equals the head. |
| Snake.SnakeGame.constructor | src/GameHub.jsx:266-270 | A fresh game has its head at (10, 10), no tail, score 0, and is running; the invariant holds. |
| Snake.SnakeGame.Step | src/GameHub.jsx:284-302 | The invariant is kept: head and tail on the field, tail starting at the head, at most `5 + score` squares. A stopped game is unchanged. Otherwise the head moves by the direction modulo 30 / 20, and the tail is the new head in front of the old tail, cut to `5 + score`. The score grows by one exactly when the head lands on the food. The game keeps running exactly when the head is not on the tail after its first square. |
| Scenarios.FullBoardWithoutLine | src/GameHub.jsx:395-398 | A full board with no line has no winner and scores 0. |
| Scenarios.TopRowWins | src/GameHub.jsx:431-435 | A board with X's top row and free squares has winner X and scores -10 without a move. |
| Scenarios.ComputerBlocks | src/GameHub.jsx:390-429 | X threatens the top row with squares 2 and 8 free. Square 8 loses and square 2 draws, so the computer (O) takes square 2. |

## Left out

- The shooter, Geometry Dash and slot-machine games: floating-point physics, timing and random choices.
- The tab and view shell, the project listing, and the snippet download and copy helpers: user interface, DOM and clipboard calls.
- The React state hooks and the `useEffect` that makes the computer move when O is next. These are UI plumbing: `Play` and `ComputeBestMove` are the operations that effect combines.
- The unused helper `emptyIndices`: it computes the same list as the `avail` fold that the search uses, which `EmptyIndices` models.
- TicTacToe.Play: the index is restricted to 0..8. The source does no range check, and every caller passes a square of the board.
- The source's `-Infinity` / `Infinity` starting scores: they are modelled as "no best move yet", which every score beats, the role they play in the loop.
- Snake `placeFood`, the arrow-key and restart handlers, and `setInterval`: randomness and browser events. The food and the direction are inputs of `Step`, and the direction has each component in {-1, 0, 1}.
- Snake.SnakeGame.Step: the model stops the game at once on a collision and keeps the final state. In the source, `setRunning(false)` ends the game only when React re-runs the effect. That re-run clears the interval and rebuilds fresh local state, which the stopped loop never shows.
- The canvas drawing of the snake, the food, the score and the game-over text.
- Two properties of the search are not proved: that optimal play from the empty board is a draw, and what the computer opens with on an empty board. Both need the search over the full game tree, which is beyond what the verifier can unfold.
