/** One tick of the snake game: the head moves one square on a 30 by 20
    torus, the new head is pushed onto the front of the tail, the tail is cut
    back to `5 + score` squares, eating the food scores a point, and the game
    stops when the head runs into the rest of the tail. */
module Snake {

  /** The canvas is 600 by 400 pixels in squares of 20 pixels. */
  const Width := 600
  const Height := 400
  const Grid := 20
  const Cols := Width / Grid
  const Rows := Height / Grid

  /** A square of the playing field. */
  datatype Pos = Pos(x: int, y: int)

  predicate OnGrid(p: Pos)
  {
    0 <= p.x < Cols && 0 <= p.y < Rows
  }

  /** The two edge checks applied to a coordinate that has just moved by at
      most one square off a field of size `n`: leaving on one side re-enters
      on the other, which is the coordinate modulo `n`. */
  method Wrap(c: int, n: int) returns (r: int)
    requires 0 < n && -1 <= c <= n
    ensures 0 <= r < n
    ensures r == c % n
  {
    r := c;
    if r < 0 { r := n - 1; }
    if r >= n { r := 0; }
  }

  /** The head `p` lies on the tail at some index from 1 on. */
  predicate Collides(tail: seq<Pos>, p: Pos)
  {
    exists i :: 1 <= i < |tail| && tail[i] == p
  }

  /** `tail.pop()` when the tail is longer than `limit`. */
  function Trim(tail: seq<Pos>, limit: int): (r: seq<Pos>)
    requires tail != []
    ensures |r| == if |tail| > limit then |tail| - 1 else |tail|
    ensures r == tail[..|r|]
  {
    if |tail| > limit then tail[..|tail| - 1] else tail
  }

  /** The self-collision loop: does any tail square after the first one
      equal the head? */
  method HitsTail(tail: seq<Pos>, p: Pos) returns (hit: bool)
    ensures hit <==> Collides(tail, p)
  {
    hit := false;
    var i := 1;
    while i < |tail|
      invariant 1 <= i <= |tail| || (tail == [] && i == 1)
      invariant hit <==> exists j :: 1 <= j < i && tail[j] == p
    {
      if tail[i] == p {
        hit := true;
      }
      i := i + 1;
    }
  }

  /** The state the game loop closes over. */
  class SnakeGame {
    var px: int
    var py: int
    var tail: seq<Pos>
    var score: nat
    var running: bool

    /** The head is on the field, every tail square is on the field, the
        tail starts at the head and holds at most `5 + score` squares. */
    ghost predicate Valid()
      reads this
    {
      && OnGrid(Pos(px, py))
      && |tail| <= 5 + score
      && (forall k :: 0 <= k < |tail| ==> OnGrid(tail[k]))
      && (tail != [] ==> tail[0] == Pos(px, py))
    }

    /** A fresh game: head at (10, 10), no tail, no score. */
    constructor ()
      ensures Valid()
      ensures px == 10 && py == 10 && tail == [] && score == 0 && running
    {
      px, py := 10, 10;
      tail := [];
      score := 0;
      running := true;
    }

    /** One call of `loop` with direction `(vx, vy)` and the food at `food`.
        A stopped game is left as it is. Otherwise the head moves by the
        direction modulo the field size, the tail gains the new head and
        loses its last square if it grew past `5 + score`, the score grows by
        one when the head is on the food, and the game stops exactly when the
        head lies on the tail after its first square. */
    method Step(vx: int, vy: int, food: Pos)
      requires Valid()
      requires -1 <= vx <= 1 && -1 <= vy <= 1
      modifies this
      ensures Valid()
      ensures !old(running) ==>
        px == old(px) && py == old(py) && tail == old(tail) && score == old(score) && !running
      ensures old(running) ==>
        && px == (old(px) + vx) % Cols
        && py == (old(py) + vy) % Rows
        && tail == Trim([Pos(px, py)] + old(tail), 5 + old(score))
        && tail[0] == Pos(px, py)
        && score == old(score) + (if Pos(px, py) == food then 1 else 0)
        && running == !Collides(tail, Pos(px, py))
    {
      if !running {
        return;
      }
      var x := Wrap(px + vx, Cols);
      var y := Wrap(py + vy, Rows);
      var head := Pos(x, y);

      var t := Trim([head] + tail, 5 + score);
      assert forall k :: 0 <= k < |t| ==> t[k] == ([head] + tail)[k];

      var s := score;
      if x == food.x && y == food.y {
        s := s + 1;
      }

      var hit := HitsTail(t, head);
      px, py, tail, score := x, y, t, s;
      if hit {
        running := false;
      }
    }
  }
}
