/** The generator of pair ids: a seed made of the clock and the thread, mixed by three
    xorshift steps on a 128-bit word.

    A step that xors a word with itself shifted by k, done twice, is the step that shifts by
    2k; so a step followed by the steps for k, 2k, 4k and so on until everything is shifted
    out gives the word back, whatever k is. */
module RandId {

  const WIDTH: nat := 128

  function Falses(n: nat): (s: seq<bool>)
    ensures |s| == n && forall i :: 0 <= i < n ==> !s[i]
  {
    if n == 0 then [] else [false] + Falses(n - 1)
  }

  /** A word, least significant bit first. */
  type Word = w: seq<bool> | |w| == 128 witness Falses(128)

  const ZERO: Word := Falses(128)

  const ONE: Word := [true] + Falses(127)

  function Xor(x: Word, y: Word): (z: Word) {
    seq(WIDTH, i requires 0 <= i < WIDTH => x[i] != y[i])
  }

  function ShiftLeft(x: Word, k: nat): (z: Word) {
    seq(WIDTH, i requires 0 <= i < WIDTH => i >= k && x[i - k])
  }

  function ShiftRight(x: Word, k: nat): (z: Word) {
    seq(WIDTH, i requires 0 <= i < WIDTH => i + k < WIDTH && x[i + k])
  }

  function Left(x: Word, k: nat): (z: Word) {
    Xor(x, ShiftLeft(x, k))
  }

  function Right(x: Word, k: nat): (z: Word) {
    Xor(x, ShiftRight(x, k))
  }

  /** The three steps of the generator. */
  function Mix(seed: Word): (x: Word) {
    Left(Right(Left(seed, 13), 7), 17)
  }

  /** The id that the generator makes of a seed. */
  function Id(seed: Word): (x: Word)
    ensures x != ZERO
  {
    assert ONE[0] && !ZERO[0];
    if Mix(seed) == ZERO then ONE else Mix(seed)
  }

  method Generate(seed: Word) returns (x: Word)
    ensures x == Id(seed)
  {
    x := seed;
    x := Xor(x, ShiftLeft(x, 13));
    x := Xor(x, ShiftRight(x, 7));
    x := Xor(x, ShiftLeft(x, 17));
    if x == ZERO { x := ONE; }
  }

  /** The steps for k, 2k, 4k and so on. */
  function UndoLeft(x: Word, k: nat): (z: Word)
    requires k > 0
    decreases WIDTH - k
  {
    if k >= WIDTH then x else UndoLeft(Left(x, k), 2 * k)
  }

  function UndoRight(x: Word, k: nat): (z: Word)
    requires k > 0
    decreases WIDTH - k
  {
    if k >= WIDTH then x else UndoRight(Right(x, k), 2 * k)
  }

  lemma LeftTwice(x: Word, k: nat)
    ensures Left(Left(x, k), k) == Left(x, 2 * k)
    ensures k >= WIDTH ==> Left(x, k) == x
  {
  }

  lemma RightTwice(x: Word, k: nat)
    ensures Right(Right(x, k), k) == Right(x, 2 * k)
    ensures k >= WIDTH ==> Right(x, k) == x
  {
  }

  /** A left step by any amount is undone by its doublings, before or after. */
  lemma {:induction false} LeftIsUndone(x: Word, k: nat)
    requires k > 0
    ensures UndoLeft(Left(x, k), k) == x
    ensures Left(UndoLeft(x, k), k) == x
    decreases WIDTH - k
  {
    LeftTwice(x, k);
    if k < WIDTH {
      LeftIsUndone(x, 2 * k);
      LeftCommutes(Left(x, k), k, 2 * k);
    }
  }

  /** Left steps commute, so one step commutes with all the doublings of another. */
  lemma {:induction false} LeftCommutes(x: Word, k: nat, m: nat)
    requires m > 0
    ensures Left(UndoLeft(x, m), k) == UndoLeft(Left(x, k), m)
    decreases WIDTH - m
  {
    if m < WIDTH {
      LeftCommutes(Left(x, m), k, 2 * m);
      LeftSwap(x, k, m);
    }
  }

  lemma LeftSwap(x: Word, k: nat, m: nat)
    ensures Left(Left(x, k), m) == Left(Left(x, m), k)
  {
  }

  lemma {:induction false} RightIsUndone(x: Word, k: nat)
    requires k > 0
    ensures UndoRight(Right(x, k), k) == x
    ensures Right(UndoRight(x, k), k) == x
    decreases WIDTH - k
  {
    RightTwice(x, k);
    if k < WIDTH {
      RightIsUndone(x, 2 * k);
      RightCommutes(Right(x, k), k, 2 * k);
    }
  }

  lemma {:induction false} RightCommutes(x: Word, k: nat, m: nat)
    requires m > 0
    ensures Right(UndoRight(x, m), k) == UndoRight(Right(x, k), m)
    decreases WIDTH - m
  {
    if m < WIDTH {
      RightCommutes(Right(x, m), k, 2 * m);
      RightSwap(x, k, m);
    }
  }

  lemma RightSwap(x: Word, k: nat, m: nat)
    ensures Right(Right(x, k), m) == Right(Right(x, m), k)
  {
  }

  function Unmix(x: Word): (seed: Word) {
    UndoLeft(UndoRight(UndoLeft(x, 17), 7), 13)
  }

  /** The mixing is a bijection on 128-bit words. */
  lemma MixIsBijective(x: Word)
    ensures Unmix(Mix(x)) == x
    ensures Mix(Unmix(x)) == x
  {
    LeftIsUndone(x, 13);
    RightIsUndone(Left(x, 13), 7);
    LeftIsUndone(Right(Left(x, 13), 7), 17);
    LeftIsUndone(x, 17);
    RightIsUndone(UndoLeft(x, 17), 7);
    LeftIsUndone(UndoRight(UndoLeft(x, 17), 7), 13);
  }

  lemma MixOfZero()
    ensures Mix(ZERO) == ZERO
  {
    assert Left(ZERO, 13) == ZERO;
    assert Right(ZERO, 7) == ZERO;
    assert Left(ZERO, 17) == ZERO;
  }

  /** Two different seeds share an id exactly when one of them is zero and the other mixes to
      one; zero itself is no id, and every other word is. */
  lemma SeedsShareAnId(s: Word, t: Word)
    requires s != t
    ensures Id(s) == Id(t) <==> (s == ZERO && Mix(t) == ONE) || (t == ZERO && Mix(s) == ONE)
    ensures s != ZERO ==> Id(Unmix(s)) == s
  {
    MixIsBijective(s);
    MixIsBijective(t);
    MixOfZero();
    MixIsBijective(ZERO);
  }

  // ------------------------------------------------------------ words as numbers

  function Power(k: nat): (p: nat)
    ensures p > 0
  {
    if k == 0 then 1 else 2 * Power(k - 1)
  }

  /** The number that bits stand for, least significant bit first. */
  function Value(bits: seq<bool>): (n: nat) {
    if bits == [] then 0 else (if bits[0] then 1 else 0) + 2 * Value(bits[1..])
  }

  lemma Twice(a: nat, b: nat)
    ensures 2 * (a * b) == (2 * a) * b
  {
  }

  lemma {:induction false} ValueAppend(xs: seq<bool>, ys: seq<bool>)
    ensures Value(xs + ys) == Value(xs) + Power(|xs|) * Value(ys)
  {
    if xs == [] {
      assert xs + ys == ys;
    } else {
      assert (xs + ys)[1..] == xs[1..] + ys && (xs + ys)[0] == xs[0];
      ValueAppend(xs[1..], ys);
      Twice(Power(|xs| - 1), Value(ys));
    }
  }

  lemma {:induction false} ValueOfFalses(n: nat)
    ensures Value(Falses(n)) == 0
  {
    if n > 0 { ValueOfFalses(n - 1); }
  }

  /** The two words that stand out are the numbers zero and one. */
  lemma ZeroAndOne()
    ensures Value(ZERO) == 0 && Value(ONE) == 1
  {
    ValueOfFalses(128);
    ValueOfFalses(127);
    assert ONE[1..] == Falses(127);
  }

  lemma {:induction false} ValueIsBelow(bits: seq<bool>)
    ensures Value(bits) < Power(|bits|)
  {
    if bits != [] { ValueIsBelow(bits[1..]); }
  }

  lemma {:induction false} PowerAdd(i: nat, j: nat)
    ensures Power(i + j) == Power(i) * Power(j)
  {
    if i > 0 {
      PowerAdd(i - 1, j);
      Twice(Power(i - 1), Power(j));
    }
  }

  lemma Divided(n: nat, m: nat, q: nat, r: nat)
    requires n == m * q + r && r < m
    ensures n / m == q && n % m == r
  {
    var d := q - n / m;
    assert m * d == n % m - r;
    assert d >= 1 ==> m * d >= m * 1;
    assert d <= -1 ==> m * d <= m * -1;
  }

  /** Shifting to the left multiplies by a power of two and keeps 128 bits of the product. */
  lemma LeftShiftMultiplies(x: Word, k: nat)
    requires k <= WIDTH
    ensures Value(ShiftLeft(x, k)) == Value(x) * Power(k) % Power(WIDTH)
  {
    var low, high := x[..WIDTH - k], x[WIDTH - k..];
    assert low + high == x && Falses(k) + low == ShiftLeft(x, k);
    ValueAppend(low, high);
    ValueAppend(Falses(k), low);
    ValueOfFalses(k);
    ValueIsBelow(ShiftLeft(x, k));
    PowerAdd(WIDTH - k, k);
    Multiplied(Value(low), Power(WIDTH - k), Value(high), Power(k), Power(WIDTH));
  }

  lemma Multiplied(low: nat, p: nat, high: nat, q: nat, m: nat)
    requires m == p * q && q * low < m
    ensures (low + p * high) * q % m == q * low
  {
    assert (low + p * high) * q == m * high + q * low;
    Divided((low + p * high) * q, m, high, q * low);
  }

  /** Shifting to the right divides. */
  lemma RightShiftDivides(x: Word, k: nat)
    requires k <= WIDTH
    ensures Value(ShiftRight(x, k)) == Value(x) / Power(k)
  {
    var rest, kept := x[..k], x[k..];
    assert rest + kept == x && kept + Falses(k) == ShiftRight(x, k);
    ValueAppend(rest, kept);
    ValueAppend(kept, Falses(k));
    ValueOfFalses(k);
    ValueIsBelow(rest);
    Divided(Value(x), Power(k), Value(kept), Value(rest));
  }
}
