/** Bytes, the option and result types, and the big-endian integers that every wire
    format of the tunnel is built from. */
module Bytes {

  newtype byte = x: int | 0 <= x < 256

  type bytes = seq<byte>

  type u16 = n: nat | n < 0x1_0000

  datatype Option<+T> = None | Some(value: T)

  datatype Result<+T, +E> = Ok(value: T) | Err(error: E)

  /** The bytes of a sequence of reads or writes, one after another. */
  function Concat(pieces: seq<bytes>): (all: bytes) {
    if pieces == [] then [] else pieces[0] + Concat(pieces[1..])
  }

  lemma {:induction false} ConcatAppend(xs: seq<bytes>, ys: seq<bytes>)
    ensures Concat(xs + ys) == Concat(xs) + Concat(ys)
  {
    if xs == [] {
      assert xs + ys == ys;
    } else {
      assert (xs + ys)[1..] == xs[1..] + ys;
      ConcatAppend(xs[1..], ys);
      assert xs[0] + (Concat(xs[1..]) + Concat(ys)) == (xs[0] + Concat(xs[1..])) + Concat(ys);
    }
  }

  lemma Cancel<T>(front: seq<T>, x: seq<T>, whole: seq<T>, y: seq<T>)
    requires front + x == whole && front + y == whole
    ensures x == y
  {
    assert x == whole[|front|..] == y;
  }

  lemma PrefixCancel(front: bytes, x: bytes, y: bytes)
    requires front + x <= front + y
    ensures x <= y
  {
    assert x == (front + x)[|front|..];
    assert y == (front + y)[|front|..];
  }

  /** 256 to the power `width`: one more than the largest integer of `width` bytes. */
  function Pow256(width: nat): (p: nat)
    ensures p > 0
  {
    if width == 0 then 1 else 256 * Pow256(width - 1)
  }

  /** The `width` low-order bytes of `n`, most significant first; an `as` cast to a
      narrower integer followed by `to_be_bytes` drops the same high-order bytes. */
  function ToBe(n: nat, width: nat): (s: bytes)
    ensures |s| == width
  {
    if width == 0 then [] else ToBe(n / 256, width - 1) + [(n % 256) as byte]
  }

  /** The integer whose big-endian bytes are `s`. */
  function FromBe(s: bytes): (n: nat)
    ensures n < Pow256(|s|)
  {
    if s == [] then 0 else 256 * FromBe(s[..|s| - 1]) + s[|s| - 1] as nat
  }

  lemma {:induction false} FromToBe(n: nat, width: nat)
    ensures FromBe(ToBe(n, width)) == n % Pow256(width)
  {
    if width > 0 {
      var s := ToBe(n, width);
      assert s[..|s| - 1] == ToBe(n / 256, width - 1);
      FromToBe(n / 256, width - 1);
      SplitMod(n, Pow256(width - 1));
    }
  }

  /** An integer that fits comes back whole. */
  lemma FromToBeWhole(n: nat, width: nat)
    requires n < Pow256(width)
    ensures FromBe(ToBe(n, width)) == n
  {
    FromToBe(n, width);
    QuotientIsUnique(n, Pow256(width), 0, n);
  }

  lemma SplitMod(n: nat, p: nat)
    requires p > 0
    ensures n % (256 * p) == 256 * ((n / 256) % p) + n % 256
  {
    var q, r := (n / 256) / p, (n / 256) % p;
    assert n / 256 == q * p + r;
    assert n == 256 * (q * p + r) + n % 256;
    assert n == (256 * p) * q + (256 * r + n % 256) by {
      assert 256 * (q * p) == (256 * p) * q;
    }
    assert 256 * r + 255 < 256 * p;
    QuotientIsUnique(n, 256 * p, q, 256 * r + n % 256);
  }

  lemma QuotientIsUnique(n: nat, d: nat, q: nat, r: nat)
    requires 0 <= r < d && n == d * q + r
    ensures n % d == r
  {
    var q', r' := n / d, n % d;
    assert n == d * q' + r';
    assert d * (q - q') == d * q - d * q' == r' - r;
    if q != q' {
      MultipleIsFar(d, q - q');
      assert false;
    }
  }

  lemma MultipleIsFar(d: int, k: int)
    requires d > 0 && k != 0
    ensures d * k >= d || d * k <= -d
  {
  }

  lemma {:induction false} ToFromBe(s: bytes)
    ensures ToBe(FromBe(s), |s|) == s
  {
    if s != [] {
      var init, last := s[..|s| - 1], s[|s| - 1];
      ToFromBe(init);
      LowByte(FromBe(init), last as nat);
      assert s == init + [last];
    }
  }

  lemma LowByte(high: nat, low: nat)
    requires low < 256
    ensures (256 * high + low) / 256 == high && (256 * high + low) % 256 == low
  {
  }

  /** The most significant byte comes first. */
  lemma BigEndian(s: bytes, more: bytes)
    ensures FromBe(s + more) == FromBe(s) * Pow256(|more|) + FromBe(more)
    decreases |more|
  {
    if more == [] {
      assert s + more == s;
    } else {
      var init := more[..|more| - 1];
      assert (s + more)[..|s + more| - 1] == s + init;
      BigEndian(s, init);
      Rescale(FromBe(s), Pow256(|init|), FromBe(init));
    }
  }

  lemma Rescale(a: nat, p: nat, b: nat)
    ensures 256 * (a * p + b) == a * (256 * p) + 256 * b
  {
  }
}
