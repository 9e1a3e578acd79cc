/** Spawning: the starting piece is always an `I` facing North at column 4,
    line 22, which ties the piece geometry to the board. */
module Game {
  import opened Pieces
  import opened Grid
  import opened Wrappers

  /** The position a new piece appears at. */
  const SpawnPosition: Coord := (4, 22)

  /** `spawn`: a new `I` piece, facing North, and where it appears. */
  function Spawn(): (r: (Tetromino, Coord))
    ensures r.0.shape == Shape.I && r.0.orientation == North
    ensures r.1 == (4, 22)
    ensures BoardPosition(r.1) == Some((4, 22))
  {
    (Tetromino.New(Shape.I), SpawnPosition)
  }

  /** The board cells a piece covers: its position plus each offset of its
      table. */
  function Cells(position: Coord, offsets: seq<Offset>): (r: seq<Coord>)
    ensures |r| == |offsets|
    ensures forall i :: 0 <= i < |offsets| ==> r[i] == (position.0 + offsets[i].0, position.1 + offsets[i].1)
  {
    seq(|offsets|, i requires 0 <= i < |offsets| => (position.0 + offsets[i].0, position.1 + offsets[i].1))
  }

  /** The spawned piece covers the four cells (3, 22) to (6, 22) of one line,
      all on the board, and on an empty board all of them are empty. */
  lemma SpawnCellsFree(board: Board)
    requires board.Valid() && AllEmpty(board)
    ensures Cells(Spawn().1, Blocks(Shape.I, Spawn().0.orientation)) == [(3, 22), (4, 22), (5, 22), (6, 22)]
    ensures forall c :: c in Cells(Spawn().1, Blocks(Shape.I, Spawn().0.orientation)) ==> OnBoard(c) && IsEmpty(board, c)
  {
    var cells := Cells(Spawn().1, Blocks(Shape.I, Spawn().0.orientation));
    assert cells == [(3, 22), (4, 22), (5, 22), (6, 22)];
    EmptyBoardIsEmpty(board);
  }
}
