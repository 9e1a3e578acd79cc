/** The piece bag: a 14-slot buffer holding two runs of the seven shapes and a
    cursor. `Get` hands out the shape under the cursor and moves the cursor
    on, wrapping after the last slot; the buffer itself never changes. */
module Bag {
  import opened Pieces

  /** The number of slots, `contents.len()`. */
  const Slots: nat := 14

  /** One run of the seven shapes, in the order the bag starts with. */
  const Seven: seq<Shape> := [Shape.I, Shape.J, Shape.L, Shape.O, Shape.S, Shape.T, Shape.Z]

  /** The buffer of `RandomBag::default`: the seven shapes twice over. */
  const DefaultContents: seq<Shape> := Seven + Seven

  /** `run` holds each of the seven shapes exactly once. */
  predicate IsRun(run: seq<Shape>)
  {
    |run| == 7 &&
    (forall i, j :: 0 <= i < j < |run| ==> run[i] != run[j]) &&
    (forall sh: Shape :: sh in run)
  }

  /** The run the bag starts with holds each shape exactly once. */
  lemma SevenIsRun()
    ensures IsRun(Seven)
  {
    forall sh: Shape
      ensures sh in Seven
    {
      match sh
      case I => assert Seven[0] == sh;
      case J => assert Seven[1] == sh;
      case L => assert Seven[2] == sh;
      case O => assert Seven[3] == sh;
      case S => assert Seven[4] == sh;
      case T => assert Seven[5] == sh;
      case Z => assert Seven[6] == sh;
    }
  }

  /** The shapes that `n` successive draws hand out from a buffer whose
      cursor stands at `index`. */
  function Draws(contents: seq<Shape>, index: nat, n: nat): (r: seq<Shape>)
    requires |contents| == Slots && index < Slots
    ensures |r| == n
    decreases n
  {
    if n == 0 then [] else [contents[index]] + Draws(contents, (index + 1) % Slots, n - 1)
  }

  /** The cursor after `n` successive draws from `index`. */
  function CursorAfter(index: nat, n: nat): (r: nat)
    requires index < Slots
    ensures r < Slots
    decreases n
  {
    if n == 0 then index else CursorAfter((index + 1) % Slots, n - 1)
  }

  /** Stepping the cursor once and then `m` more places is stepping it
      `m + 1` places. */
  lemma AdvanceMod(index: nat, m: nat)
    requires index < Slots
    ensures ((index + 1) % Slots + m) % Slots == (index + 1 + m) % Slots
  {
    if index + 1 == Slots {
      assert (Slots + m) % Slots == m % Slots;
    }
  }

  /** The k-th of `n` draws is the slot k places past the starting cursor,
      counted round the buffer. */
  lemma {:induction false} DrawsAt(contents: seq<Shape>, index: nat, n: nat, k: nat)
    requires |contents| == Slots && index < Slots
    requires k < n
    ensures Draws(contents, index, n)[k] == contents[(index + k) % Slots]
    decreases n
  {
    if k > 0 {
      DrawsAt(contents, (index + 1) % Slots, n - 1, k - 1);
      AdvanceMod(index, k - 1);
    }
  }

  /** After `n` draws the cursor has moved `n` places round the buffer. */
  lemma {:induction false} CursorAfterIs(index: nat, n: nat)
    requires index < Slots
    ensures CursorAfter(index, n) == (index + n) % Slots
    decreases n
  {
    if n > 0 {
      CursorAfterIs((index + 1) % Slots, n - 1);
      AdvanceMod(index, n - 1);
    }
  }

  /** Any fourteen further draws bring the cursor back where it was. */
  lemma CursorPeriod(index: nat, n: nat)
    requires index < Slots
    ensures CursorAfter(index, n + Slots) == CursorAfter(index, n)
  {
    CursorAfterIs(index, n + Slots);
    CursorAfterIs(index, n);
  }

  /** Draws split at any point: `a + b` draws are `a` draws followed by `b`
      draws from where the cursor then stands. */
  lemma {:induction false} DrawsSplit(contents: seq<Shape>, index: nat, a: nat, b: nat)
    requires |contents| == Slots && index < Slots
    ensures Draws(contents, index, a + b) == Draws(contents, index, a) + Draws(contents, (index + a) % Slots, b)
    decreases a
  {
    if a > 0 {
      DrawsSplit(contents, (index + 1) % Slots, a - 1, b);
      AdvanceMod(index, a - 1);
      assert a + b - 1 == (a - 1) + b;
    }
  }

  /** One more draw appends the slot the cursor has then reached. */
  lemma DrawsLast(contents: seq<Shape>, index: nat, n: nat)
    requires |contents| == Slots && index < Slots
    ensures Draws(contents, index, n + 1) == Draws(contents, index, n) + [contents[(index + n) % Slots]]
  {
    DrawsSplit(contents, index, n, 1);
    assert Draws(contents, (index + n) % Slots, 1) == [contents[(index + n) % Slots]];
  }

  /** The cursor after k draws, stepped once, is the cursor after k + 1 draws. */
  lemma NextCursor(k: nat)
    ensures (k % Slots + 1) % Slots == (k + 1) % Slots
  {
    var q, r := k / Slots, k % Slots;
    assert k == q * Slots + r;
    if r + 1 == Slots {
      assert k + 1 == (q + 1) * Slots;
    } else {
      assert k + 1 == q * Slots + (r + 1);
    }
  }

  /** A shape read at the cursor after k draws from `index` extends those
      draws to k + 1, and that cursor stepped once is the cursor after k + 1. */
  lemma DrawStep(contents: seq<Shape>, index: nat, k: nat, drawn: seq<Shape>, s: Shape)
    requires |contents| == Slots && index < Slots
    requires drawn == Draws(contents, index, k) && s == contents[CursorAfter(index, k)]
    ensures drawn + [s] == Draws(contents, index, k + 1)
    ensures CursorAfter(index, k + 1) == (CursorAfter(index, k) + 1) % Slots
  {
    CursorAfterIs(index, k);
    CursorAfterIs(index, k + 1);
    DrawsLast(contents, index, k);
    NextCursor(index + k);
  }

  /** Stepping the cursor a multiple of fourteen places leaves it where it was. */
  lemma FullTurns(index: nat, n: nat)
    requires index < Slots
    ensures n % Slots == 0 ==> (index + n) % Slots == index
  {
    if n % Slots == 0 {
      assert index + n == (n / Slots) * Slots + index;
    }
  }

  /** The shapes handed out are periodic: a draw repeats the one made
      fourteen draws earlier. */
  lemma DrawsPeriodic(contents: seq<Shape>, index: nat, n: nat, k: nat)
    requires |contents| == Slots && index < Slots
    requires k + Slots < n
    ensures Draws(contents, index, n)[k + Slots] == Draws(contents, index, n)[k]
  {
    DrawsAt(contents, index, n, k);
    DrawsAt(contents, index, n, k + Slots);
    assert (index + (k + Slots)) % Slots == (index + k) % Slots;
  }

  /** From the default buffer, the k-th draw is the k-th shape of the run
      I, J, L, O, S, T, Z taken round and round: so 21 draws hand out the
      seven shapes three times in order. */
  lemma DefaultDraws(n: nat)
    ensures forall k :: 0 <= k < n ==> Draws(DefaultContents, 0, n)[k] == Seven[k % 7]
  {
    forall k | 0 <= k < n
      ensures Draws(DefaultContents, 0, n)[k] == Seven[k % 7]
    {
      DrawsAt(DefaultContents, 0, n, k);
      assert (k % Slots) % 7 == k % 7;
    }
  }

  class RandomBag {
    var contents: array<Shape>
    var index: nat

    /** The buffer has fourteen slots, the cursor is on one of them, and each
        half of the buffer, slots 0-6 and slots 7-13, holds each of the seven
        shapes exactly once. */
    ghost predicate Valid()
      reads this, contents
    {
      contents.Length == Slots && index < Slots &&
      IsRun(contents[..7]) && IsRun(contents[7..])
    }

    /** `RandomBag::default`: the shapes I, J, L, O, S, T, Z in slots 0-6 and
        again in slots 7-13, with the cursor on slot 0. */
    constructor Default()
      ensures Valid() && fresh(contents)
      ensures contents[..] == DefaultContents && index == 0
    {
      contents := new Shape[Slots](i => if 0 <= i < Slots then DefaultContents[i] else Shape.I);
      index := 0;
      new;
      assert contents[..] == DefaultContents;
      assert contents[..7] == Seven && contents[7..] == Seven;
      SevenIsRun();
    }

    /** `peek`: the shape under the cursor. */
    function Peek(): (s: Shape)
      reads this, contents
      requires Valid()
      ensures s == contents[index]
    {
      contents[index]
    }

    /** `get`: hands out what `Peek` shows and moves the cursor one slot on,
        wrapping after the last; the buffer is untouched. */
    method Get() returns (s: Shape)
      requires Valid()
      modifies this`index
      ensures Valid()
      ensures s == old(Peek())
      ensures index == (old(index) + 1) % Slots
      ensures contents == old(contents) && unchanged(contents)
    {
      s := contents[index];
      index := (index + 1) % contents.Length;
    }
  }

  /** `n` successive `get`s from any bag: the shapes handed out are the
      specified draws from where the cursor stood, the cursor ends `n` slots
      further round, and the buffer is untouched. In particular fourteen
      `get`s bring the cursor back to where it started. */
  method DrawMany(bag: RandomBag, n: nat) returns (drawn: seq<Shape>)
    requires bag.Valid()
    modifies bag`index
    ensures bag.Valid()
    ensures bag.contents == old(bag.contents) && unchanged(bag.contents)
    ensures drawn == Draws(bag.contents[..], old(bag.index), n)
    ensures bag.index == CursorAfter(old(bag.index), n)
    ensures n % Slots == 0 ==> bag.index == old(bag.index)
  {
    ghost var start := bag.index;
    ghost var slots := bag.contents;
    ghost var buffer := bag.contents[..];
    drawn := [];
    var k := 0;
    while k < n
      invariant 0 <= k <= n
      invariant bag.Valid() && bag.contents == slots && slots[..] == buffer
      invariant bag.index == CursorAfter(start, k)
      invariant drawn == Draws(buffer, start, k)
    {
      assert bag.Peek() == buffer[CursorAfter(start, k)];
      var s := bag.Get();
      DrawStep(buffer, start, k, drawn, s);
      drawn := drawn + [s];
      k := k + 1;
    }
    CursorAfterIs(start, n);
    FullTurns(start, n);
  }

  /** Drawing `n` shapes one after another from a fresh default bag, as the
      original's draw test does for n = 21: the k-th shape drawn is the k-th
      of I, J, L, O, S, T, Z taken round and round. */
  method DrawFromDefault(n: nat) returns (drawn: seq<Shape>)
    ensures drawn == Draws(DefaultContents, 0, n)
    ensures forall k :: 0 <= k < n ==> drawn[k] == Seven[k % 7]
  {
    var bag := new RandomBag.Default();
    drawn := DrawMany(bag, n);
    DefaultDraws(n);
  }
}
