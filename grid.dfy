/** The playing field: 24 lines of 10 cells, each cell holding a cell tag.
    Reads are total (anything off the board reads as `Blocked`), and writes
    off the board are dropped. */
module Grid {
  import opened Wrappers

  /** `board_width()`: the number of cells in a line. */
  const Width: nat := 10
  /** `board_height()`: the number of lines on the board. */
  const Height: nat := 24

  /** What a cell holds. `Blocked` is what an off-board read answers; nothing
      stops a write from storing it. */
  datatype TetrominoType = Empty | Blocked | I | L | T | Z | S | J | O

  /** One horizontal line of cells, indexed by column. */
  type Line = seq<TetrominoType>

  /** A signed board coordinate `[i32; 2]`: `.0` is the column x, `.1` the line y. */
  type Coord = (int, int)

  /** A checked coordinate `[usize; 2]`, in the same (column, line) order. */
  type BoardCoord = (nat, nat)

  /** A coordinate that addresses a cell of the board. */
  predicate OnBoard(p: Coord)
  {
    0 <= p.0 < Width && 0 <= p.1 < Height
  }

  /** `empty_line`: a full-width line of empty cells. */
  function EmptyLine(): (l: Line)
    ensures |l| == Width
    ensures forall x :: 0 <= x < |l| ==> l[x] == Empty
  {
    seq(Width, _ => Empty)
  }

  class Board {
    /** `lines[y][x]` is the cell in column x of line y. */
    var lines: array<Line>

    ghost predicate Valid()
      reads this, lines
    {
      lines.Length == Height &&
      forall y :: 0 <= y < lines.Length ==> |lines[y]| == Width
    }

    /** `empty_board`: every line is an empty line. */
    constructor EmptyBoard()
      ensures Valid() && fresh(lines)
      ensures forall y :: 0 <= y < Height ==> lines[y] == EmptyLine()
      ensures AllEmpty(this)
    {
      lines := new Line[Height](_ => EmptyLine());
    }

    /** `Board::len`: the number of lines. */
    function Len(): (n: nat)
      reads this, lines
      requires Valid()
      ensures n == Height
    {
      lines.Length
    }

    /** `Board::get`: the cell at column `index` of line `line`. The original
        indexes without a check, so the caller must stay on the board. */
    function Get(line: nat, index: nat): (t: TetrominoType)
      reads this, lines
      requires Valid()
      requires line < Height && index < Width
      ensures t == lines[line][index]
    {
      lines[line][index]
    }

    /** `Board::set`: overwrites one cell in place; nothing else changes. */
    method Set(line: nat, index: nat, t: TetrominoType)
      requires Valid()
      requires line < Height && index < Width
      modifies lines
      ensures Valid()
      ensures lines[..] == old(lines[..])[line := old(lines[line])[index := t]]
      ensures Get(line, index) == t
      ensures forall y: nat, x: nat :: y < Height && x < Width && (y, x) != (line, index) ==>
        Get(y, x) == old(Get(y, x))
    {
      lines[line] := lines[line][index := t];
    }
  }

  /** `check_array_bounds`: whether a signed index addresses one of `max` slots. */
  function CheckArrayBounds(index: int, max: nat): (r: bool)
    ensures r <==> 0 <= index < max
  {
    if index < 0 then false else index < max
  }

  /** `board_position`: the checked coordinate, present exactly when the
      coordinate is on the board, and then with the same column and line. */
  function BoardPosition(p: Coord): (r: Option<BoardCoord>)
    ensures r.Some? <==> OnBoard(p)
    ensures r.Some? ==> r.value.0 == p.0 && r.value.1 == p.1
  {
    if !CheckArrayBounds(p.0, Width) then None
    else if !CheckArrayBounds(p.1, Height) then None
    else Some((p.0, p.1))
  }

  /** `content`: `Blocked` anywhere off the board; on it, the stored cell, with
      the line chosen by y and the column by x. */
  function Content(board: Board, p: Coord): (r: TetrominoType)
    reads board, board.lines
    requires board.Valid()
    ensures !OnBoard(p) ==> r == Blocked
    ensures OnBoard(p) ==> r == board.lines[p.1][p.0]
  {
    match BoardPosition(p)
    case None => Blocked
    case Some(bp) => board.Get(bp.1, bp.0)
  }

  /** `is_empty`: the cell reads as `Empty`; so no off-board coordinate is empty. */
  function IsEmpty(board: Board, p: Coord): (r: bool)
    reads board, board.lines
    requires board.Valid()
    ensures r <==> Content(board, p) == Empty
    ensures r ==> OnBoard(p)
  {
    Content(board, p) == Empty
  }

  /** The free `set`: on the board, the addressed cell becomes `t` and every
      other cell keeps its content; off the board, nothing changes. */
  method Set(board: Board, p: Coord, t: TetrominoType)
    requires board.Valid()
    modifies board.lines
    ensures board.Valid()
    ensures OnBoard(p) ==> board.lines[..] == old(board.lines[..])[p.1 := old(board.lines[p.1])[p.0 := t]]
    ensures !OnBoard(p) ==> board.lines[..] == old(board.lines[..])
    ensures Content(board, p) == if OnBoard(p) then t else Blocked
    ensures forall q :: q != p && OnBoard(q) ==> Content(board, q) == old(board.lines[q.1][q.0])
  {
    match BoardPosition(p)
    case Some(safe) => board.Set(safe.1, safe.0, t);
    case None =>
  }

  /** Every line of the board is an empty line. */
  ghost predicate AllEmpty(board: Board)
    reads board, board.lines
  {
    forall y :: 0 <= y < board.lines.Length ==> board.lines[y] == EmptyLine()
  }

  /** On an empty board a coordinate is empty exactly when it is on the board. */
  lemma EmptyBoardIsEmpty(board: Board)
    requires board.Valid() && AllEmpty(board)
    ensures forall p :: IsEmpty(board, p) <==> OnBoard(p)
  {
    forall p | OnBoard(p)
      ensures IsEmpty(board, p)
    {
      assert board.lines[p.1] == EmptyLine();
    }
  }
}
