/** A small codec that meets the laws asked of zstd. Plain bytes wait until a flush and then
    go out as differences from the byte before, so what a wire decodes to depends on the
    whole history of the connection, as it does for zstd. */
module DeltaCodec {
  import opened Bytes
  import opened Zstd

  /** The byte that the next difference is taken from. */
  function Last(plain: bytes): (b: byte) {
    if plain == [] then 0 else plain[|plain| - 1]
  }

  function Deltas(plain: bytes): (w: bytes) {
    if plain == [] then []
    else
      var init := plain[..|plain| - 1];
      Deltas(init) + [((plain[|plain| - 1] as int - Last(init) as int) % 256) as byte]
  }

  function Undo(w: bytes): (plain: bytes)
    ensures |plain| == |w|
  {
    if w == [] then []
    else
      var init := Undo(w[..|w| - 1]);
      init + [((w[|w| - 1] as int + Last(init) as int) % 256) as byte]
  }

  /** What a log had written when it was last flushed. */
  function RawFlushed(log: seq<Op>): (plain: bytes) {
    if log == [] then []
    else if log[|log| - 1] == Flush then Raw(log)
    else RawFlushed(log[..|log| - 1])
  }

  function Delta(): (z: Codec) {
    Codec(log => Deltas(RawFlushed(log)), fed => Some(Undo(fed)), (log, op) => true)
  }

  lemma {:induction false} UndoDeltas(plain: bytes)
    ensures Undo(Deltas(plain)) == plain
  {
    if plain != [] {
      var init := plain[..|plain| - 1];
      UndoDeltas(init);
      var w := Deltas(plain);
      assert w[..|w| - 1] == Deltas(init);
      UndoOne(plain[|plain| - 1] as int, Last(init) as int);
      assert plain == init + [plain[|plain| - 1]];
    }
  }

  lemma UndoOne(b: int, last: int)
    requires 0 <= b < 256
    ensures ((b - last) % 256 + last) % 256 == b
  {
  }

  lemma {:induction false} UndoPrefix(w: bytes, n: nat)
    requires n <= |w|
    ensures Undo(w[..n]) == Undo(w)[..n]
  {
    if n < |w| {
      var init := w[..|w| - 1];
      UndoPrefix(init, n);
      assert init[..n] == w[..n];
      assert Undo(w)[..n] == Undo(init)[..n];
    } else {
      assert w[..n] == w;
    }
  }

  lemma {:induction false} DeltasPrefix(plain: bytes, more: bytes)
    ensures Deltas(plain) <= Deltas(plain + more)
  {
    if more == [] {
      assert plain + more == plain;
    } else {
      var init := more[..|more| - 1];
      DeltasPrefix(plain, init);
      assert (plain + more)[..|plain + more| - 1] == plain + init;
    }
  }

  lemma {:induction false} RawFlushedIsPrefix(log: seq<Op>)
    ensures RawFlushed(log) <= Raw(log)
  {
    if log != [] && log[|log| - 1] != Flush {
      RawFlushedIsPrefix(log[..|log| - 1]);
    }
  }

  /** The laws are not vacuous: the difference codec satisfies every one of them. */
  lemma DeltaIsLawful()
    ensures Lawful(Delta())
  {
    DeltaWireGrows();
    DeltaOutputGrows();
    DeltaCutsDecode();
    DeltaFlushesDecode();
  }

  lemma DeltaWireGrowsBy(log: seq<Op>, op: Op)
    ensures Deltas(RawFlushed(log)) <= Deltas(RawFlushed(log + [op]))
  {
    assert (log + [op])[..|log|] == log;
    RawFlushedIsPrefix(log);
    var before, after := RawFlushed(log), RawFlushed(log + [op]);
    assert before <= after;
    DeltasPrefix(before, after[|before|..]);
    assert before + after[|before|..] == after;
  }

  lemma DeltaWireGrows()
    ensures WireOnlyGrows(Delta())
  {
    var z := Delta();
    forall log: seq<Op>, op: Op {:trigger Consider(log, op)} | Consider(log, op)
      ensures z.wire(log) <= z.wire(log + [op])
    {
      DeltaWireGrowsBy(log, op);
    }
  }

  lemma DeltaOutputGrows()
    ensures OutputOnlyGrows(Delta())
  {
    var z := Delta();
    forall fed: bytes, more: bytes {:trigger Consider(fed, more)} | Consider(fed, more)
      ensures Decodable(z, fed + more) ==>
                Decodable(z, fed) && z.decode(fed).value <= z.decode(fed + more).value
    {
      UndoPrefix(fed + more, |fed|);
      assert (fed + more)[..|fed|] == fed;
    }
  }

  lemma DeltaCutsDecode()
    ensures CutsDecode(Delta())
  {
    var z := Delta();
    forall log: seq<Op>, cut: bytes {:trigger Consider(log, cut)} | Consider(log, cut) && cut <= z.wire(log)
      ensures Decodable(z, cut) && z.decode(cut).value <= Raw(log)
    {
      var w := Deltas(RawFlushed(log));
      UndoPrefix(w, |cut|);
      assert w[..|cut|] == cut;
      UndoDeltas(RawFlushed(log));
      RawFlushedIsPrefix(log);
    }
  }

  lemma DeltaFlushesDecode()
    ensures FlushesDecode(Delta())
  {
    var z := Delta();
    forall log: seq<Op> {:trigger Consider(log, Flush)} | Consider(log, Flush)
      ensures z.decode(z.wire(log + [Flush])) == Some(Raw(log))
    {
      RawFlushedOfFlush(log);
      UndoDeltas(Raw(log));
    }
  }

  lemma RawFlushedOfFlush(log: seq<Op>)
    ensures RawFlushed(log + [Flush]) == Raw(log)
  {
    RawOfFlush(log);
  }
}
