/** A 2D integer vector (the `Position` struct) with componentwise addition and
    subtraction, scalar multiplication and scalar division that truncates
    toward zero and rejects a zero divisor. Integers are unbounded here: the
    i32 overflow panics of the original are not modelled. */
module Vector {

  /** A raw two-component offset, `[i32; 2]`: `.0` is element 0 (x), `.1` is element 1 (y). */
  type Pair = (int, int)

  datatype Position = Position(x: int, y: int)

  /** `Position::new`: stores both coordinates unchanged. */
  function New(x: int, y: int): (p: Position)
    ensures p.x == x && p.y == y
  {
    Position(x, y)
  }

  /** `Position + Position`. */
  function Add(a: Position, b: Position): (r: Position)
    ensures r.x == a.x + b.x && r.y == a.y + b.y
  {
    New(a.x + b.x, a.y + b.y)
  }

  /** `Position + [i32; 2]`: the same as adding the position built from the pair. */
  function AddPair(a: Position, rhs: Pair): (r: Position)
    ensures r == Add(a, Position(rhs.0, rhs.1))
    ensures r.x == a.x + rhs.0 && r.y == a.y + rhs.1
  {
    Add(a, New(rhs.0, rhs.1))
  }

  /** `Position - Position`, defined by adding the negated right operand:
      the result is the componentwise difference, and adding `b` back gives `a`. */
  function Sub(a: Position, b: Position): (r: Position)
    ensures r.x == a.x - b.x && r.y == a.y - b.y
    ensures Add(r, b) == a
  {
    Add(a, New(-b.x, -b.y))
  }

  /** `Position - [i32; 2]`: agrees with subtracting the position built from the pair. */
  function SubPair(a: Position, rhs: Pair): (r: Position)
    ensures r == Sub(a, Position(rhs.0, rhs.1))
    ensures r.x == a.x - rhs.0 && r.y == a.y - rhs.1
  {
    Sub(a, New(rhs.0, rhs.1))
  }

  /** `Position * i32`: scales both components. */
  function Mul(a: Position, k: int): (r: Position)
    ensures r.x == a.x * k && r.y == a.y * k
  {
    New(a.x * k, a.y * k)
  }

  function Abs(n: int): nat
  {
    if n < 0 then -n else n
  }

  /** Integer division rounding toward zero, as Rust's `/` on i32 does
      (Dafny's own `/` rounds toward negative infinity for a positive divisor).
      The quotient's magnitude is the largest whose multiple of `|d|` does not
      exceed `|n|`, and the quotient is negative only when `n` and `d` have
      opposite signs. */
  function TruncDiv(n: int, d: int): (q: int)
    requires d != 0
    ensures Abs(q) * Abs(d) <= Abs(n) < Abs(q) * Abs(d) + Abs(d)
    ensures q > 0 ==> (n > 0) == (d > 0)
    ensures q < 0 ==> (n > 0) != (d > 0)
  {
    var m := Abs(n) / Abs(d);
    var q := if (n < 0) == (d < 0) then m else -(m as int);
    TruncDivBounds(n, d, m, q);
    q
  }

  lemma TruncDivBounds(n: int, d: int, m: nat, q: int)
    requires d != 0 && m == Abs(n) / Abs(d)
    requires q == if (n < 0) == (d < 0) then m else -(m as int)
    ensures Abs(q) * Abs(d) <= Abs(n) < Abs(q) * Abs(d) + Abs(d)
    ensures q > 0 ==> (n > 0) == (d > 0)
    ensures q < 0 ==> (n > 0) != (d > 0)
  {
    DivBounds(Abs(n), Abs(d), m);
    assert Abs(q) == m;
  }

  lemma DivBounds(n: nat, d: nat, m: nat)
    requires d > 0 && m == n / d
    ensures m * d <= n < m * d + d
    ensures m > 0 ==> n > 0
  {
    assert n == m * d + n % d;
    if n == 0 {
      assert m == 0;
    }
  }

  /** The properties in TruncDiv's contract determine the quotient: any
      quotient that satisfies them is TruncDiv's. */
  lemma TruncDivUnique(n: int, d: int, q: int)
    requires d != 0
    requires Abs(q) * Abs(d) <= Abs(n) < Abs(q) * Abs(d) + Abs(d)
    requires q > 0 ==> (n > 0) == (d > 0)
    requires q < 0 ==> (n > 0) != (d > 0)
    ensures q == TruncDiv(n, d)
  {
    var t := TruncDiv(n, d);
    MagnitudeUnique(Abs(n), Abs(d), Abs(q), Abs(t));
  }

  lemma MagnitudeUnique(n: nat, d: nat, a: nat, b: nat)
    requires d > 0
    requires a * d <= n < a * d + d
    requires b * d <= n < b * d + d
    ensures a == b
  {
    MulCancelLess(b, a + 1, d);
    MulCancelLess(a, b + 1, d);
  }

  lemma MulCancelLess(x: nat, y: nat, d: nat)
    requires d > 0
    requires x * d < y * d
    ensures x < y
  {
    if y <= x {
      MulMono(y, x, d);
    }
  }

  lemma MulMono(x: nat, y: nat, d: nat)
    requires x <= y
    ensures x * d <= y * d
  {
    assert y * d == x * d + (y - x) * d;
  }

  /** `Position / i32`: a zero divisor is a fatal error in the original (a panic),
      so it is excluded; otherwise each component is divided, truncating toward zero. */
  function Div(a: Position, k: int): (r: Position)
    requires k != 0
    ensures r.x == TruncDiv(a.x, k) && r.y == TruncDiv(a.y, k)
  {
    New(TruncDiv(a.x, k), TruncDiv(a.y, k))
  }

  /** Subtracting after adding the same vector gives back the original. */
  lemma AddThenSub(a: Position, b: Position)
    ensures Sub(Add(a, b), b) == a
  {
  }

  /** Dividing by a non-zero scalar undoes multiplying by it. */
  lemma MulThenDiv(a: Position, k: int)
    requires k != 0
    ensures Div(Mul(a, k), k) == a
  {
    TruncDivOfMultiple(a.x, k);
    TruncDivOfMultiple(a.y, k);
  }

  lemma TruncDivOfMultiple(n: int, k: int)
    requires k != 0
    ensures TruncDiv(n * k, k) == n
  {
    AbsMul(n, k);
    TruncDivUnique(n * k, k, n);
  }

  lemma AbsMul(a: int, b: int)
    ensures Abs(a * b) == Abs(a) * Abs(b)
  {
    if a < 0 && b < 0 {
      assert a * b == (-a) * (-b);
    } else if a < 0 {
      assert -(a * b) == (-a) * b;
    } else if b < 0 {
      assert -(a * b) == a * (-b);
    }
  }

  /** Truncation differs from Dafny's Euclidean division on a negative dividend:
      `(12, -10) / 4` is `(3, -2)`, whereas `-10 / 4` is `-3` in Dafny. */
  lemma DivTruncatesTowardZero()
    ensures Div(Position(12, -10), 4) == Position(3, -2)
  {
    TruncDivUnique(12, 4, 3);
    TruncDivUnique(-10, 4, -2);
  }
}
