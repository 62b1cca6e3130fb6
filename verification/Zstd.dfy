/** The zstd library as the tunnel sees it.

    An encoder's state is the log of the calls made on it since it was created or reset; a
    decoder's state is the bytes fed to it since then. zstd is deterministic, so a codec is
    three functions of these: the wire bytes a log has produced so far, the plain bytes that
    can be read off a wire so far, and whether an encoder accepts a call. An encoder is never
    finished between streams, so a pair that is used again carries on with the same log and
    the same wire. */
module Zstd {
  import opened Bytes

  datatype Op = Write(data: bytes) | Flush

  datatype Codec = Codec(wire: seq<Op> -> bytes, decode: bytes -> Option<bytes>, accepts: (seq<Op>, Op) -> bool)

  /** The plain bytes written by a log. */
  function Raw(log: seq<Op>): (plain: bytes) {
    if log == [] then []
    else
      var last := log[|log| - 1];
      Raw(log[..|log| - 1]) + if last.Write? then last.data else []
  }

  /** A log after which nothing is held back inside the encoder. */
  predicate Flushed(log: seq<Op>) {
    log == [] || log[|log| - 1] == Flush
  }

  /** The plain bytes written since the last flush. */
  function SinceFlush(log: seq<Op>): (plain: bytes) {
    if log == [] || log[|log| - 1] == Flush then []
    else SinceFlush(log[..|log| - 1]) + log[|log| - 1].data
  }

  /** What the tunnel relies on zstd for. */
  ghost predicate Lawful(z: Codec) {
    && z.wire([]) == []
    && z.decode([]) == Some([])
    && WireOnlyGrows(z)
    && OutputOnlyGrows(z)
    && CutsDecode(z)
    && FlushesDecode(z)
  }

  /** Wire bytes already handed out are never taken back. */
  ghost predicate WireOnlyGrows(z: Codec) {
    forall log: seq<Op>, op: Op {:trigger Consider(log, op)} ::
      Consider(log, op) ==> z.wire(log) <= z.wire(log + [op])
  }

  /** Neither are plain bytes, and a decoder that has failed stays failed. */
  ghost predicate OutputOnlyGrows(z: Codec) {
    forall fed: bytes, more: bytes {:trigger Consider(fed, more)} ::
      Consider(fed, more) && Decodable(z, fed + more) ==>
        Decodable(z, fed) && z.decode(fed).value <= z.decode(fed + more).value
  }

  /** A wire cut anywhere decodes to a prefix of what was written. */
  ghost predicate CutsDecode(z: Codec) {
    forall log: seq<Op>, cut: bytes {:trigger Consider(log, cut)} ::
      Consider(log, cut) && cut <= z.wire(log) ==>
        Decodable(z, cut) && z.decode(cut).value <= Raw(log)
  }

  /** A flush makes everything written decodable. */
  ghost predicate FlushesDecode(z: Codec) {
    forall log: seq<Op> {:trigger Consider(log, Flush)} ::
      Consider(log, Flush) ==> z.decode(z.wire(log + [Flush])) == Some(Raw(log))
  }

  /** Always true; a law is used at the arguments it is asked about. */
  predicate Consider<A, B>(a: A, b: B) {
    true
  }

  ghost predicate Decodable(z: Codec, fed: bytes) {
    z.decode(fed).Some?
  }

  lemma {:induction false} RawAppend(log: seq<Op>, ops: seq<Op>)
    ensures Raw(log + ops) == Raw(log) + Raw(ops)
  {
    if ops == [] {
      assert log + ops == log;
    } else {
      var init := ops[..|ops| - 1];
      RawAppend(log, init);
      var all, data := log + ops, if ops[|ops| - 1].Write? then ops[|ops| - 1].data else [];
      assert all[..|all| - 1] == log + init && all[|all| - 1] == ops[|ops| - 1];
      assert (Raw(log) + Raw(init)) + data == Raw(log) + (Raw(init) + data);
    }
  }

  lemma RawOfFlush(log: seq<Op>)
    ensures Raw(log + [Flush]) == Raw(log)
  {
    var all := log + [Flush];
    assert all[..|all| - 1] == log;
  }

  lemma {:induction false} WireGrows(z: Codec, log: seq<Op>, ops: seq<Op>)
    requires Lawful(z)
    ensures z.wire(log) <= z.wire(log + ops)
  {
    if ops == [] {
      assert log + ops == log;
    } else {
      var init := ops[..|ops| - 1];
      WireGrows(z, log, init);
      assert Consider(log + init, ops[|ops| - 1]);
      assert log + ops == (log + init) + [ops[|ops| - 1]];
    }
  }

  /** The wire bytes that the calls `ops` add when made after `log`. */
  ghost function Sent(z: Codec, log: seq<Op>, ops: seq<Op>): (w: bytes)
    requires Lawful(z)
    ensures z.wire(log) + w == z.wire(log + ops)
  {
    WireGrows(z, log, ops);
    z.wire(log + ops)[|z.wire(log)|..]
  }

  /** The plain bytes a decoder hands out when `more` is fed after `fed`. */
  ghost function Emitted(z: Codec, fed: bytes, more: bytes): (plain: bytes)
    requires Lawful(z) && Decodable(z, fed + more)
    ensures Decodable(z, fed) && z.decode(fed).value + plain == z.decode(fed + more).value
  {
    assert Consider(fed, more);
    z.decode(fed + more).value[|z.decode(fed).value|..]
  }

  /** Plain bytes that were written after the last point the wire decodes to: what is still
      inside the encoder, or inside a block whose end is not on the wire yet. */
  ghost function HeldBack(z: Codec, log: seq<Op>): (plain: bytes)
    requires Lawful(z)
    ensures Decodable(z, z.wire(log)) && z.decode(z.wire(log)).value + plain == Raw(log)
  {
    assert Consider(log, z.wire(log));
    Raw(log)[|z.decode(z.wire(log)).value|..]
  }

  lemma FlushedHoldsNothing(z: Codec, log: seq<Op>)
    requires Lawful(z) && Flushed(log)
    ensures HeldBack(z, log) == []
  {
    if log == [] {
      assert Raw(log) == [];
    } else {
      var init := log[..|log| - 1];
      assert Consider(init, Flush);
      assert log == init + [Flush];
      assert Raw(log) == Raw(init);
    }
  }

  /** The log up to its last flush. */
  function ToFlush(log: seq<Op>): (front: seq<Op>)
    ensures front <= log && Flushed(front)
  {
    if log == [] || log[|log| - 1] == Flush then log else ToFlush(log[..|log| - 1])
  }

  lemma {:induction false} RawToFlush(log: seq<Op>)
    ensures Raw(log) == Raw(ToFlush(log)) + SinceFlush(log)
  {
    if log != [] && log[|log| - 1] != Flush {
      var init, data := log[..|log| - 1], log[|log| - 1].data;
      RawToFlush(init);
      assert Raw(ToFlush(init)) + (SinceFlush(init) + data) == (Raw(ToFlush(init)) + SinceFlush(init)) + data;
    }
  }

  lemma DecodeGrows(z: Codec, log: seq<Op>, ops: seq<Op>)
    requires Lawful(z)
    ensures Decodable(z, z.wire(log)) && Decodable(z, z.wire(log + ops))
    ensures z.decode(z.wire(log)).value <= z.decode(z.wire(log + ops)).value
  {
    assert Consider(log + ops, z.wire(log + ops));
    var sent := Sent(z, log, ops);
    assert Consider(z.wire(log), sent);
  }

  /** All that was written up to the last flush decodes. */
  lemma FlushedPartDecodes(z: Codec, log: seq<Op>)
    requires Lawful(z)
    ensures Decodable(z, z.wire(log)) && |Raw(ToFlush(log))| <= |z.decode(z.wire(log)).value|
  {
    var front := ToFlush(log);
    var more := log[|front|..];
    assert log == front + more;
    FlushedHoldsNothing(z, front);
    DecodeGrows(z, front, more);
    assert HeldBack(z, front) == [];
  }

  /** Whatever the codec, what is held back was written since the last flush. */
  lemma HeldBackIsUnflushed(z: Codec, log: seq<Op>)
    requires Lawful(z)
    ensures |HeldBack(z, log)| <= |SinceFlush(log)|
    ensures HeldBack(z, log) == SinceFlush(log)[|SinceFlush(log)| - |HeldBack(z, log)|..]
  {
    FlushedPartDecodes(z, log);
    var seen, held, front, since := z.decode(z.wire(log)).value, HeldBack(z, log), Raw(ToFlush(log)), SinceFlush(log);
    assert seen + held == Raw(log);
    assert front + since == Raw(log) by { RawToFlush(log); }
    SuffixOfSum(seen, held, front, since);
  }

  lemma SuffixOfSum(a: bytes, b: bytes, c: bytes, d: bytes)
    requires a + b == c + d && |c| <= |a|
    ensures |b| <= |d| && b == d[|d| - |b|..]
  {
    assert b == (a + b)[|a|..];
    assert d == (c + d)[|c|..];
  }
}
