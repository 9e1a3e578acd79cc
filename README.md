# Falling-block puzzle rules core, modelled in Dafny

This project models the rules core of a small Rust falling-block puzzle game
(`rust-tetris`):

- the playing field of 24 lines × 10 columns, with total reads and bounds-checked writes (`src/board.rs`);
- the 2D integer vector with its arithmetic operators (`src/position.rs`);
- the piece geometry: the orientation cycle and the `I` piece's offset table (`src/tetromino.rs`);
- the 14-slot piece bag and its cursor (`src/randombag.rs`);
- the spawn rule (`src/game.rs`).

Modules follow the source files:

| module | file | form |
|---|---|---|
| `Wrappers` | — | Rust's `Option` |
| `Vector` | `vector.dfy` | functions over a `Position(x, y)` datatype |
| `Pieces` | `pieces.dfy` | datatypes, table functions and lemmas |
| `Grid` | `grid.dfy` | class `Board` over an `array<Line>`; the free functions are functions and a method over it |
| `Bag` | `bag.dfy` | class `RandomBag` over an `array<Shape>` with a cursor field; the functions that specify `get`, and lemmas about them, beside it |
| `Game` | `game.dfy` | the constant `Spawn` and its link to the board |

All coordinates are pairs of `int`s. The board's raw position `[i32; 2]` is
the tuple `Grid.Coord` (`.0` is the column x, `.1` the line y). The vector
struct is the `Vector.Position` datatype. Integers are unbounded.

Facts about the code that the model keeps as they are:

- The bag's buffer is the constant `I J L O S T Z I J L O S T Z`, and `get` never reshuffles it: it only moves the cursor.
- Nothing stops `set` from storing `Blocked` or `Empty` in a cell, so the model claims no "`Blocked` is never stored" invariant.
- Each step of the `I` table's orientation cycle is the quarter turn (x, y) ↦ (1 − y, x) about the cell corner (0.5, 0.5). No fixed translation of (x, y) ↦ (y, −x) relates the table's entries. Relative to the pivot, the turn maps (u, v) to (−v, u). That is counter-clockwise when y grows upward, which is how the code uses it: pieces spawn at line 22 of 24. It is clockwise only when y grows downward. So `rotate_clockwise` turns the `I` cells clockwise only under that downward convention. `Pieces.BlocksRotateAboutPivot` proves the turn as the code has it.
- `Shape` has the seven variants the bag uses, although `src/tetromino.rs` declares only `I`. The cell tag on the board is a separate nine-variant type, `Grid.TetrominoType`, as in the source.

## Model

| member | source | states |
|---|---|---|
| `Vector.New` | src/position.rs:10-12 | both coordinates are stored unchanged |
| `Vector.Add` | src/position.rs:18-20 | the sum is componentwise |
| `Vector.AddPair` | src/position.rs:26-28 | adding a raw `[x, y]` pair equals adding `Position::new(x, y)`, and is componentwise |
| `Vector.Sub` | src/position.rs:34-36 | subtraction, defined as adding the negation, is the componentwise difference, and adding `b` back returns `a` |
| `Vector.SubPair` | src/position.rs:42-44 | subtracting a raw pair equals subtracting the position built from it, componentwise |
| `Vector.Mul` | src/position.rs:50-52 | both components are scaled by the factor |
| `Vector.TruncDiv` | src/position.rs:62 | the quotient's magnitude is the largest whose multiple of the divisor's magnitude does not exceed the dividend's; it is positive only for operands of equal sign and negative only for opposite signs (truncation toward zero) |
| `Vector.TruncDivUnique` | src/position.rs:62 | any quotient with TruncDiv's three properties equals TruncDiv, so the contract pins the result down |
| `Vector.Div` | src/position.rs:58-63 | a zero divisor is excluded (the original panics); otherwise each component is divided with truncation toward zero |
| `Vector.AddThenSub` | src/position.rs:18-36 | `(a + b) - b == a` for every `a` and `b` |
| `Vector.MulThenDiv` | src/position.rs:50-63 | `(a * k) / k == a` for every non-zero `k` |
| `Vector.DivTruncatesTowardZero` | src/position.rs:103-107 | `(12, -10) / 4 == (3, -2)`: the negative component rounds toward zero |
| `Pieces.Clockwise` | src/tetromino.rs:19-26 | one turn advances the orientation one place in the cycle North, East, South, West, wrapping to North |
| `Pieces.RotateTimesStep` | src/tetromino.rs:19-26 | `n` turns advance the orientation `n` places modulo 4 |
| `Pieces.RotateTimesIdentity` | src/tetromino.rs:19-26 | `n` turns give back the starting orientation if and only if `n` is a multiple of 4: four turns are the identity and one turn never is |
| `Pieces.Blocks` | src/tetromino.rs:28-37 | each `I` orientation has four pairwise-distinct offsets. North lies in row 0 and South in row 1. East lies in column 1 and West in column 0. Each spans four consecutive cells |
| `Pieces.BlocksRotateAboutPivot` | src/tetromino.rs:31-34 | the cells of the next orientation are exactly the cells of the previous one given the quarter turn (x, y) ↦ (1 − y, x) about (0.5, 0.5) |
| `Pieces.Tetromino.New` | src/tetromino.rs:40-45 | a new piece has the given shape and faces North |
| `Pieces.Tetromino.RotateClockwise` | src/tetromino.rs:47-52 | turning a piece keeps its shape and advances only its orientation |
| `Pieces.RotateTetrominoCycle` | src/tetromino.rs:55-65 | a new piece turned once, twice and three times faces East, South and West, and a fourth turn returns the piece it started as |
| `Grid.EmptyLine` | src/board.rs:26 | a line has 10 cells, all `Empty` |
| `Grid.Board.EmptyBoard` | src/board.rs:27 | the new board has 24 lines, each an empty line |
| `Grid.Board.Len` | src/board.rs:11 | a board has 24 lines |
| `Grid.Board.Get` | src/board.rs:12 | the cell in column `index` of line `line`; `Board.Set` reads back through it |
| `Grid.Board.Set` | src/board.rs:13 | writes one cell of one line in place: `Get` then returns the new tag there and the old content at every other cell |
| `Grid.CheckArrayBounds` | src/board.rs:57-60 | true if and only if `0 <= index < max` |
| `Grid.BoardPosition` | src/board.rs:62-67 | present if and only if `0 <= x < 10` and `0 <= y < 24`, and then with the same coordinates |
| `Grid.Content` | src/board.rs:69-75 | `Blocked` for every off-board coordinate; on the board, the stored cell of line y, column x |
| `Grid.IsEmpty` | src/board.rs:77-80 | true if and only if the content is `Empty`, so never off the board |
| `Grid.Set` | src/board.rs:82-88 | on the board, the addressed cell becomes the new tag and every other cell keeps its content; off the board, the whole board is unchanged |
| `Grid.EmptyBoardIsEmpty` | src/board.rs:90-102 | on an empty board, a coordinate is empty if and only if it is on the board (so `[9,0]` and `[0,23]` are, and `[-1,0]`, `[0,-1]`, `[10,0]` and `[0,24]` are not) |
| `Bag.SevenIsRun` | src/randombag.rs:11-25 | the starting run holds each of the seven shapes exactly once |
| `Bag.RandomBag.Default` | src/randombag.rs:9-29 | slots 0-6 and 7-13 both hold I, J, L, O, S, T, Z, the cursor is 0, and the bag invariant holds |
| `Bag.RandomBag.Peek` | src/randombag.rs:31-33 | the shape in the cursor slot (a function, so no state changes) |
| `Bag.RandomBag.Get` | src/randombag.rs:35-39 | returns what `Peek` returned in the same state, moves the cursor to `(index + 1) % 14` and leaves the buffer untouched, so both halves stay runs of the seven shapes |
| `Bag.DrawsAt` | src/randombag.rs:35-38 | the k-th of successive draws is the slot `(index + k) % 14` |
| `Bag.CursorAfterIs` | src/randombag.rs:37 | after `n` draws the cursor is `(index + n) % 14` |
| `Bag.CursorPeriod` | src/randombag.rs:37 | any 14 further draws return the cursor to where it was |
| `Bag.DrawsSplit` | src/randombag.rs:35-38 | `a + b` draws are `a` draws followed by `b` draws from the cursor they leave |
| `Bag.DrawsPeriodic` | src/randombag.rs:35-38 | a draw repeats the one made fourteen draws earlier |
| `Bag.DefaultDraws` | src/randombag.rs:47-64 | from the default bag, the k-th draw is the (k mod 7)-th of I, J, L, O, S, T, Z |
| `Bag.DrawMany` | src/randombag.rs:35-39 | `n` successive `get`s on any valid bag hand out the specified draws from the starting cursor and leave the cursor at `CursorAfter(start, n)`; a multiple of 14 `get`s returns the cursor to its start; the buffer is untouched |
| `Bag.DrawFromDefault` | src/randombag.rs:47-64 | drawing `n` times from a fresh default bag with `Get` yields exactly the specified draws, three runs in order for `n = 21` |
| `Game.Spawn` | src/game.rs:4-6 | the spawned piece is an `I` facing North, at `[4, 22]`, which is a board position |
| `Game.SpawnCellsFree` | src/game.rs:4-12 | the spawned piece covers (3,22), (4,22), (5,22) and (6,22), all on the board and all empty on an empty board |

## Left out

- `src/main.rs` is not part of this model. Its `spawn` duplicates the one in `src/game.rs`, and its `main` is empty.
- Integer widths: coordinates are unbounded `int`s. The i32 overflow panics are not modelled: those of `+`, `-` and `*`, of the negation `-rhs.x` in `Sub` (src/position.rs:35), and of `i32::MIN / -1` in `Div` (src/position.rs:62). Nor are the i32-to-usize casts.
- Randomness: the original bag's buffer is constant and `get` never reshuffles, so no shuffle is modelled.
- Placement over a whole piece, committing a piece, row clearing, wall kicks, movement, dropping, ticking, game-over detection and counter-clockwise rotation are absent from the code, so they are absent from the model.
- Pieces.Blocks: requires the shape `I`, because `src/tetromino.rs` has an offset table only for `I`.
- Grid.Board.Get: indexes without a bounds check in the original, so the model requires an on-board line and column instead of modelling the panic.
- Grid.Board.Set: likewise requires an on-board line and column instead of modelling the out-of-range panic of src/board.rs:13.
- Vector.Div: requires a non-zero divisor instead of modelling the panic.
- Compile-level inconsistencies of the original are not modelled. These are the one-variant `Shape` enum used with seven variants, the two `Position` types, and non-`pub` items used across modules.
