/** Piece geometry: the seven shapes, the cyclic four-state orientation
    machine, the cell-offset table of the `I` piece, and the tetromino value
    (a shape with an orientation) that rotation replaces rather than mutates. */
module Pieces {

  datatype Shape = I | J | L | O | S | T | Z

  datatype Orientation = North | East | South | West

  /** A cell offset relative to the piece's position, `[i32; 2]` as (x, y). */
  type Offset = (int, int)

  /** The place of an orientation in the clockwise cycle North, East, South, West. */
  function Step(o: Orientation): (n: nat)
    ensures n < 4
  {
    match o
    case North => 0
    case East => 1
    case South => 2
    case West => 3
  }

  lemma StepInjective(a: Orientation, b: Orientation)
    requires Step(a) == Step(b)
    ensures a == b
  {
  }

  /** `rotate_clockwise` on an orientation: one clockwise quarter turn, which
      advances one place in the cycle and wraps from West back to North. */
  function Clockwise(o: Orientation): (r: Orientation)
    ensures Step(r) == (Step(o) + 1) % 4
  {
    match o
    case North => East
    case East => South
    case South => West
    case West => North
  }

  /** `n` successive clockwise quarter turns. */
  function RotateTimes(o: Orientation, n: nat): Orientation
    decreases n
  {
    if n == 0 then o else RotateTimes(Clockwise(o), n - 1)
  }

  lemma {:induction false} RotateTimesStep(o: Orientation, n: nat)
    ensures Step(RotateTimes(o, n)) == (Step(o) + n) % 4
    decreases n
  {
    if n > 0 {
      RotateTimesStep(Clockwise(o), n - 1);
    }
  }

  /** `n` clockwise turns give back the starting orientation exactly when
      `n` is a multiple of four: four turns are the identity, and one, two
      or three turns never are. */
  lemma RotateTimesIdentity(o: Orientation, n: nat)
    ensures RotateTimes(o, n) == o <==> n % 4 == 0
  {
    RotateTimesStep(o, n);
    if n % 4 == 0 {
      StepInjective(RotateTimes(o, n), o);
    }
  }

  /** The offsets of the four cells of a shape in an orientation. Only the `I`
      piece has a table. */
  function Blocks(s: Shape, o: Orientation): (r: seq<Offset>)
    requires s == I
    ensures |r| == 4
    ensures forall i, j :: 0 <= i < j < 4 ==> r[i] != r[j]
    // North and South lie in one row, East and West in one column
    ensures o == North ==> forall i :: 0 <= i < 4 ==> r[i].1 == 0
    ensures o == South ==> forall i :: 0 <= i < 4 ==> r[i].1 == 1
    ensures o == East ==> forall i :: 0 <= i < 4 ==> r[i].0 == 1
    ensures o == West ==> forall i :: 0 <= i < 4 ==> r[i].0 == 0
    // each spans four consecutive cells along its line, in order
    ensures o in {North, South} ==> forall i :: 0 < i < 4 ==> r[i].0 == r[i - 1].0 + 1
    ensures o in {East, West} ==> forall i :: 0 < i < 4 ==> r[i].1 == r[i - 1].1 + 1
  {
    match o
    case North => [(-1, 0), (0, 0), (1, 0), (2, 0)]
    case East => [(1, -1), (1, 0), (1, 1), (1, 2)]
    case South => [(-1, 1), (0, 1), (1, 1), (2, 1)]
    case West => [(0, -1), (0, 0), (0, 1), (0, 2)]
  }

  /** A quarter turn of an offset about the cell corner (0.5, 0.5): relative to
      that pivot, (u, v) becomes (-v, u). With y growing upward (pieces spawn
      near the top line, 22 of 24) that is a counter-clockwise turn; it is
      clockwise only when y grows downward. */
  function TurnAboutPivot(b: Offset): Offset
  {
    (1 - b.1, b.0)
  }

  /** Every offset of a table turned about (0.5, 0.5). */
  function TurnAll(cells: seq<Offset>): seq<Offset>
  {
    seq(|cells|, i requires 0 <= i < |cells| => TurnAboutPivot(cells[i]))
  }

  /** The `I` table is rotation-consistent: the cells of the next orientation
      are exactly the cells of the previous one given the quarter turn
      `TurnAboutPivot` about (0.5, 0.5). */
  lemma BlocksRotateAboutPivot(o: Orientation)
    ensures forall b :: b in Blocks(I, Clockwise(o)) <==> b in TurnAll(Blocks(I, o))
  {
    var turned := TurnAll(Blocks(I, o));
    match o
    case North => assert turned == [(1, -1), (1, 0), (1, 1), (1, 2)];
    case East => assert turned == [(2, 1), (1, 1), (0, 1), (-1, 1)];
    case South => assert turned == [(0, -1), (0, 0), (0, 1), (0, 2)];
    case West => assert turned == [(2, 0), (1, 0), (0, 0), (-1, 0)];
  }

  /** A piece: its shape and its current orientation. */
  datatype Tetromino = Tetromino(shape: Shape, orientation: Orientation) {

    /** A fresh piece of the given shape always starts facing North. */
    static function New(s: Shape): (t: Tetromino)
      ensures t.shape == s && t.orientation == North
    {
      Tetromino(s, North)
    }

    /** The piece turned one quarter clockwise: same shape, next orientation. */
    function RotateClockwise(): (t: Tetromino)
      ensures t.shape == shape
      ensures Step(t.orientation) == (Step(orientation) + 1) % 4
    {
      Tetromino(shape, Clockwise(orientation))
    }
  }

  /** Turning a new piece three times visits East, South and West in order,
      and a fourth turn brings it back to the piece it started as. */
  lemma RotateTetrominoCycle(s: Shape)
    ensures Tetromino.New(s).RotateClockwise().orientation == East
    ensures Tetromino.New(s).RotateClockwise().RotateClockwise().orientation == South
    ensures Tetromino.New(s).RotateClockwise().RotateClockwise().RotateClockwise().orientation == West
    ensures Tetromino.New(s).RotateClockwise().RotateClockwise().RotateClockwise().RotateClockwise() == Tetromino.New(s)
  {
  }
}
