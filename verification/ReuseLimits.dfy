/** Runs, over the difference codec, that show why the conditions of the reuse theorems are
    there: each of them leads to a stream that ends cleanly at both ends and delivers bytes
    that were not written to it. */
module ReuseLimits {
  import opened Bytes
  import opened Zstd
  import opened DeltaCodec
  import opened CodecPairs
  import opened Handshake
  import opened CodecLoops
  import opened CodecPump
  import opened ReuseProtocol

  /** The calls for one byte written and flushed. */
  function OneByte(b: byte): (ops: seq<Op>) {
    [Op.Write([b]), Flush]
  }

  /** One byte written and flushed, all of it arriving. */
  function ByteLeg(b: byte): (leg: Leg) {
    Leg(OneByte(b), CleanEof, 1, CleanEof)
  }

  /** Nothing but the flush at the end of the stream. */
  const NOTHING: Leg := Leg([Flush], CleanEof, 0, CleanEof)

  lemma OneByteRaw(b: byte)
    ensures Raw(OneByte(b)) == [b] && Raw([Op.Write([b])]) == [b]
  {
    assert OneByte(b)[..1] == [Op.Write([b])];
    assert Raw([Op.Write([b])]) == Raw([]) + [b];
  }

  /** A first byte goes out as it is, and a flush of nothing sends nothing. */
  lemma DeltasOfOne(b: byte)
    ensures Deltas([b]) == [b]
  {
    assert Deltas([b]) == Deltas([]) + [((b as int - 0) % 256) as byte];
  }

  lemma DeltasOfTwo(b: byte, c: byte)
    ensures Deltas([b] + [c]) == [b] + [((c as int - b as int) % 256) as byte]
  {
    DeltasOfOne(b);
    assert ([b] + [c])[..1] == [b];
  }

  lemma DeltaWires(b: byte)
    ensures Delta().wire([]) == [] && Delta().wire([Flush]) == [] && Delta().wire(OneByte(b)) == [b]
  {
    OneByteRaw(b);
    DeltasOfOne(b);
    assert Raw([Flush]) == Raw([]) + [];
  }

  lemma FirstByteSent(b: byte)
    requires Lawful(Delta())
    ensures Sent(Delta(), [], OneByte(b)) == [b] && Reaches(Delta(), [], ByteLeg(b)) == [b]
    ensures Sent(Delta(), [], [Flush]) == [] && Reaches(Delta(), [], NOTHING) == []
  {
    DeltaWires(b);
    assert [] + OneByte(b) == OneByte(b) && [] + [Flush] == [Flush];
    assert Sent(Delta(), [], OneByte(b)) == [b] && Sent(Delta(), [], [Flush]) == [];
  }

  /** After a flush of nothing, another one still sends nothing. */
  lemma SecondFlushSent()
    requires Lawful(Delta())
    ensures Sent(Delta(), [Flush], [Flush]) == [] && Reaches(Delta(), [Flush], NOTHING) == []
  {
    assert Raw([Flush]) == Raw([]) + [];
    RawOfFlush([Flush]);
    assert Delta().wire([Flush]) == [];
    assert Delta().wire([Flush] + [Flush]) == [];
  }

  /** Both ends pick new pairs; A sends a byte over pair 1. */
  const FIRST: Stream := Stream(1, 2, ByteLeg(5), NOTHING, true, true)

  lemma AfterFirst()
    requires Lawful(Delta())
    ensures Legal(Delta(), START, FIRST)
    ensures var s := After(Delta(), START, Streamed(FIRST));
            && s.a == map[1 := Context(OneByte(5), []), 2 := Context([], [])]
            && s.b == map[1 := Context([], [5]), 2 := Context([Flush], [])]
            && s.know[1] == Know(Synced, Synced)
  {
    FirstByteSent(5);
    var z := Delta();
    assert EndA(START, FIRST) == Settled(1, 0, FRESH_CONTEXT, 2, 0, FRESH_CONTEXT, map[]);
    assert EndB(START, FIRST) == Settled(2, 0, FRESH_CONTEXT, 1, 0, FRESH_CONTEXT, map[]);
    assert Possible(z, [], [], ByteLeg(5));
    assert Possible(z, [], [], NOTHING);
    assert Sender(FRESH_CONTEXT, ByteLeg(5)) == Context(OneByte(5), []);
    assert Receiver(z, FRESH_CONTEXT, [], ByteLeg(5)) == Context([], [5]);
    assert Sender(FRESH_CONTEXT, NOTHING) == Context([Flush], []);
    assert Receiver(z, FRESH_CONTEXT, [], NOTHING) == Context([], []);
  }

  ghost predicate Misdelivers(run: seq<Event>, x: Stream)
    requires Lawful(Delta())
  {
    && Run(Delta(), run) && Legal(Delta(), State(Delta(), run), x)
    && x.idA != x.idB
    && x.ab.sent == x.ab.received == CleanEof
    && var s := State(Delta(), run);
    && EndA(s, x).s2qAck != 0
    && Emitted(Delta(), EndB(s, x).q2s.fed, Reaches(Delta(), EndA(s, x).s2q.log, x.ab)) != Raw(x.ab.ops)
  }

  // ------------------------------------------------------------ a hit against the last use

  /** B sends a byte over pair 1, which A has lost. */
  const SECOND: Stream := Stream(2, 1, NOTHING, ByteLeg(7), true, true)

  lemma AfterSecond(s: Peers)
    requires Lawful(Delta())
    requires s.a == map[2 := Context([], [])]
    requires s.b == map[1 := Context([], [5]), 2 := Context([Flush], [])]
    ensures Legal(Delta(), s, SECOND)
    ensures var s' := After(Delta(), s, Streamed(SECOND));
            && s'.a == map[2 := Context([Flush], []), 1 := Context([], [7])]
            && s'.b == map[2 := Context([Flush], []), 1 := Context(OneByte(7), [5])]
            && s'.know[1].ab == Stale
  {
    FirstByteSent(7);
    var z := Delta();
    assert EndA(s, SECOND) == Settled(2, 2, FRESH_CONTEXT, 1, 0, FRESH_CONTEXT, map[]);
    assert EndB(s, SECOND) == Settled(1, 0, Context([], [5]), 2, 2, Context([Flush], []), map[]);
    assert Possible(z, [], [], ByteLeg(7));
    assert Possible(z, [], [], NOTHING);
    assert Sender(FRESH_CONTEXT, NOTHING) == Context([Flush], []);
    assert Receiver(z, FRESH_CONTEXT, [], ByteLeg(7)) == Context([], [7]);
    assert Sender(Context([], [5]), ByteLeg(7)) == Context(OneByte(7), [5]);
    assert Receiver(z, Context([Flush], []), [], NOTHING) == Context([Flush], []);
  }

  lemma StatesOf(run: seq<Event>, e: Event)
    requires Lawful(Delta())
    ensures State(Delta(), run + [e]) == After(Delta(), State(Delta(), run), e)
    ensures Run(Delta(), run) && Can(Delta(), State(Delta(), run), e) ==> Run(Delta(), run + [e])
  {
    assert (run + [e])[..|run + [e]| - 1] == run;
  }

  /** A sends over a pair and loses it. */
  lemma SentAndLost() returns (run: seq<Event>)
    requires Lawful(Delta())
    ensures Run(Delta(), run)
    ensures State(Delta(), run).a == map[2 := Context([], [])]
    ensures State(Delta(), run).b == map[1 := Context([], [5]), 2 := Context([Flush], [])]
  {
    var first := [] + [Streamed(FIRST)];
    run := first + [Lost(A, 1)];
    StatesOf([], Streamed(FIRST));
    StatesOf(first, Lost(A, 1));
    AfterFirst();
  }

  /** A sends over a pair, loses it, receives over it and sends over it again. The last lookup
      hits, but B's decoder still has the history of the first use, which A has lost. */
  lemma StaleHitMisdelivers() returns (run: seq<Event>, x: Stream)
    ensures Lawful(Delta()) && Misdelivers(run, x)
    ensures Known(State(Delta(), run), x.idA).ab == Stale
  {
    DeltaIsLawful();
    var before := SentAndLost();
    run := before + [Streamed(SECOND)];
    StatesOf(before, Streamed(SECOND));
    AfterSecond(State(Delta(), before));
    x := Stream(1, 2, ByteLeg(9), NOTHING, true, true);
    LastHitGoesWrong(State(Delta(), run), x);
  }

  lemma LastHitEnds(s: Peers, x: Stream)
    requires s.a == map[2 := Context([Flush], []), 1 := Context([], [7])]
    requires s.b == map[2 := Context([Flush], []), 1 := Context(OneByte(7), [5])]
    requires x.idA == 1 && x.idB == 2
    ensures EndA(s, x).s2q == Context([], [7]) && EndA(s, x).q2s == Context([Flush], [])
    ensures EndB(s, x).s2q == Context([Flush], []) && EndB(s, x).q2s == Context(OneByte(7), [5])
    ensures EndA(s, x).s2qAck == 1
  {
  }

  lemma LastHitGoesWrong(s: Peers, x: Stream)
    requires Lawful(Delta())
    requires s.a == map[2 := Context([Flush], []), 1 := Context([], [7])]
    requires s.b == map[2 := Context([Flush], []), 1 := Context(OneByte(7), [5])]
    requires x == Stream(1, 2, ByteLeg(9), NOTHING, true, true)
    ensures Legal(Delta(), s, x) && EndA(s, x).s2qAck == 1
    ensures Emitted(Delta(), EndB(s, x).q2s.fed, Reaches(Delta(), EndA(s, x).s2q.log, x.ab)) != Raw(x.ab.ops)
  {
    var z := Delta();
    FirstByteSent(9);
    SecondFlushSent();
    OneByteRaw(9);
    LastHitEnds(s, x);
    assert Possible(z, [], [5], x.ab);
    assert Possible(z, [Flush], [], x.ba);
    assert Reaches(z, [], x.ab) == [9];
    EmitsSum(5, 9);
  }

  lemma EmitsSum(a: byte, b: byte)
    requires Lawful(Delta())
    ensures Emitted(Delta(), [a], [b]) == [((b as int + a as int) % 256) as byte]
  {
    UndoTwo(a, b);
    var z := Delta();
    assert z.decode([a] + [b]) == Some(Undo([a] + [b])) && z.decode([a]) == Some([a]);
  }

  lemma UndoTwo(a: byte, b: byte)
    ensures Undo([a]) == [a]
    ensures Undo([a] + [b]) == [a] + [((b as int + a as int) % 256) as byte]
  {
    assert [a][..0] == [];
    assert Undo([a]) == Undo([]) + [((a as int + 0) % 256) as byte];
    assert ([a] + [b])[..1] == [a];
  }

  // ------------------------------------------------------------ a local error

  /** A's local stream fails before the flush timer goes off: the byte it wrote stays in the
      encoder, and the pair is checked in. */
  const BROKEN: Stream := Stream(1, 2, Leg([Op.Write([5])], IoError, 0, CleanEof), NOTHING, true, true)

  lemma UnflushedSendsNothing()
    requires Lawful(Delta())
    ensures Sent(Delta(), [], [Op.Write([5])]) == []
    ensures HeldBack(Delta(), [Op.Write([5])]) == [5]
  {
    OneByteRaw(5);
    assert [] + [Op.Write([5])] == [Op.Write([5])];
    assert RawFlushed([Op.Write([5])]) == RawFlushed([]);
    assert Delta().wire([Op.Write([5])]) == [];
  }

  lemma BrokenEnds()
    ensures EndA(START, BROKEN) == Settled(1, 0, FRESH_CONTEXT, 2, 0, FRESH_CONTEXT, map[])
    ensures EndB(START, BROKEN) == Settled(2, 0, FRESH_CONTEXT, 1, 0, FRESH_CONTEXT, map[])
  {
  }

  lemma BrokenContexts()
    requires Lawful(Delta())
    ensures Possible(Delta(), [], [], BROKEN.ab) && Possible(Delta(), [], [], NOTHING)
    ensures Sender(FRESH_CONTEXT, BROKEN.ab) == Context([Op.Write([5])], [])
    ensures Receiver(Delta(), FRESH_CONTEXT, [], BROKEN.ab) == Context([], [])
    ensures Sender(FRESH_CONTEXT, NOTHING) == Context([Flush], [])
    ensures Receiver(Delta(), FRESH_CONTEXT, [], NOTHING) == Context([], [])
  {
    FirstByteSent(5);
    UnflushedSendsNothing();
  }

  lemma AfterBroken()
    requires Lawful(Delta())
    ensures Legal(Delta(), START, BROKEN)
    ensures var s := After(Delta(), START, Streamed(BROKEN));
            && s.a == map[1 := Context([Op.Write([5])], []), 2 := Context([], [])]
            && s.b == map[1 := Context([], []), 2 := Context([Flush], [])]
            && s.know[1].ab == Synced
  {
    UnflushedSendsNothing();
    BrokenEnds();
    BrokenContexts();
  }

  lemma LeftoverEnds(s: Peers, x: Stream)
    requires s.a == map[1 := Context([Op.Write([5])], []), 2 := Context([], [])]
    requires s.b == map[1 := Context([], []), 2 := Context([Flush], [])]
    requires x.idA == 1 && x.idB == 2
    ensures EndA(s, x).s2q == Context([Op.Write([5])], []) && EndA(s, x).q2s == Context([], [])
    ensures EndB(s, x).s2q == Context([Flush], []) && EndB(s, x).q2s == Context([], [])
    ensures EndA(s, x).s2qAck == 1
  {
  }

  const LEFTOVER: seq<Op> := [Op.Write([5])]

  /** A byte sent after the one that was left. */
  lemma LeftoverLeg() returns (leg: Leg)
    requires Lawful(Delta())
    ensures leg.ops == OneByte(9) && leg.sent == leg.received == CleanEof
    ensures Possible(Delta(), LEFTOVER, [], leg)
    ensures Decodable(Delta(), [] + Reaches(Delta(), LEFTOVER, leg))
    ensures Emitted(Delta(), [], Reaches(Delta(), LEFTOVER, leg)) != Raw(leg.ops)
  {
    var z := Delta();
    UnflushedSendsNothing();
    SecondFlushSent();
    var w := Sent(z, LEFTOVER, OneByte(9));
    leg := Leg(OneByte(9), CleanEof, |w|, CleanEof);
    assert Reaches(z, LEFTOVER, leg) == w;
    FlushedCallsDeliver(z, LEFTOVER, OneByte(9));
    assert z.wire(LEFTOVER) == [];
    IdentityIffNothingHeld(z, LEFTOVER, OneByte(9));
  }

  /** After a local error the next stream over the pair, in step as it is, also delivers the
      byte that the broken stream left in the encoder. */
  lemma LeftoversMisdeliver() returns (run: seq<Event>, x: Stream)
    ensures Lawful(Delta()) && Misdelivers(run, x)
    ensures Known(State(Delta(), run), x.idA).ab == Synced
    ensures HeldBack(Delta(), EndA(State(Delta(), run), x).s2q.log) != []
  {
    DeltaIsLawful();
    run := [] + [Streamed(BROKEN)];
    StatesOf([], Streamed(BROKEN));
    AfterBroken();
    var leg := LeftoverLeg();
    x := Stream(1, 2, leg, NOTHING, true, true);
    LeftoverEnds(State(Delta(), run), x);
    UnflushedSendsNothing();
    SecondFlushSent();
    assert Possible(Delta(), [Flush], [], NOTHING);
  }

  lemma {:induction false} DeltaFlushedRaw(log: seq<Op>)
    ensures RawFlushed(log) == Raw(ToFlush(log))
  {
    if log != [] && log[|log| - 1] != Flush { DeltaFlushedRaw(log[..|log| - 1]); }
  }

  /** The difference codec holds all of it back. */
  lemma DeltaHoldsAllBack(log: seq<Op>)
    requires Lawful(Delta())
    ensures HeldBack(Delta(), log) == SinceFlush(log)
  {
    var z := Delta();
    UndoDeltas(RawFlushed(log));
    DeltaFlushedRaw(log);
    RawToFlush(log);
    Cancel(RawFlushed(log), HeldBack(z, log), Raw(log), SinceFlush(log));
  }

  /** So a log leaves nothing behind for the next stream, whatever the codec, if and only if
      nothing was written to it since the last flush. */
  lemma SafeToReuseIffFlushed(log: seq<Op>)
    ensures (forall z: Codec :: Lawful(z) ==> HeldBack(z, log) == []) <==> SinceFlush(log) == []
  {
    if SinceFlush(log) == [] {
      forall z: Codec | Lawful(z) ensures HeldBack(z, log) == [] {
        HeldBackIsUnflushed(z, log);
      }
    } else {
      DeltaIsLawful();
      DeltaHoldsAllBack(log);
      assert HeldBack(Delta(), log) != [];
    }
  }

  // ------------------------------------------------------------ the same pick at both ends

  /** Both ends pick pair 1, and at both the task that sent over it checks its pair in last. */
  const CLASH: Stream := Stream(1, 1, ByteLeg(7), ByteLeg(8), true, true)

  lemma ClashEnds(s: Peers)
    requires s.a == map[1 := Context(OneByte(5), []), 2 := Context([], [])]
    requires s.b == map[1 := Context([], [5]), 2 := Context([Flush], [])]
    ensures EndA(s, CLASH) == Settled(1, 0, Context([], []), 1, 0, FRESH_CONTEXT, map[2 := Context([], [])])
    ensures EndB(s, CLASH) == Settled(1, 0, Context([], [5]), 1, 0, FRESH_CONTEXT, map[2 := Context([Flush], [])])
  {
    assert s.a - {1} - {1} == map[2 := Context([], [])];
    assert s.b - {1} - {1} == map[2 := Context([Flush], [])];
  }

  /** With equal picks a sender that checks in last overwrites what the receiver left. */
  lemma SenderOverwrites(e: Settled, out: Leg, incoming: Leg, theirLog: seq<Op>)
    requires Lawful(Delta()) && e.s2qId == e.q2sId && Kept(out.sent) && Kept(incoming.received)
    ensures TableAfter(Delta(), e, out, incoming, theirLog, true) == e.table[e.s2qId := Sender(e.s2q, out)]
  {
  }

  lemma AfterClash(s: Peers)
    requires Lawful(Delta())
    requires s.a == map[1 := Context(OneByte(5), []), 2 := Context([], [])]
    requires s.b == map[1 := Context([], [5]), 2 := Context([Flush], [])]
    ensures Legal(Delta(), s, CLASH)
    ensures var s' := After(Delta(), s, Streamed(CLASH));
            && s'.a == map[2 := Context([], []), 1 := Context(OneByte(7), [])]
            && s'.b == map[2 := Context([Flush], []), 1 := Context(OneByte(8), [5])]
  {
    FirstByteSent(7);
    FirstByteSent(8);
    var z := Delta();
    ClashEnds(s);
    SenderOverwrites(EndA(s, CLASH), CLASH.ab, CLASH.ba, EndB(s, CLASH).s2q.log);
    SenderOverwrites(EndB(s, CLASH), CLASH.ba, CLASH.ab, EndA(s, CLASH).s2q.log);
    assert Possible(z, [], [], ByteLeg(7));
    assert Possible(z, [], [], ByteLeg(8));
    assert Sender(Context([], []), ByteLeg(7)) == Context(OneByte(7), []);
    assert Sender(Context([], [5]), ByteLeg(8)) == Context(OneByte(8), [5]);
  }

  lemma SecondByteSent(b: byte, c: byte)
    requires Lawful(Delta())
    ensures Sent(Delta(), OneByte(b), OneByte(c)) == [((c as int - b as int) % 256) as byte]
  {
    var z, all := Delta(), OneByte(b) + OneByte(c);
    OneByteRaw(b);
    OneByteRaw(c);
    RawAppend(OneByte(b), OneByte(c));
    assert RawFlushed(all) == Raw(all) == [b] + [c];
    DeltasOfTwo(b, c);
    DeltaWires(b);
    assert z.wire(OneByte(b)) == [b];
    assert z.wire(all) == [b] + [((c as int - b as int) % 256) as byte];
  }

  /** After both ends have picked the same id, their slots hold the two halves of different
      streams, and a later hit on that id decodes against the wrong history. */
  lemma SamePickMisdelivers() returns (run: seq<Event>, x: Stream)
    ensures Lawful(Delta()) && Misdelivers(run, x)
    ensures exists i :: 0 <= i < |run| && run[i].Streamed? && run[i].stream.idA == run[i].stream.idB
  {
    DeltaIsLawful();
    var z := Delta();
    var r1 := [] + [Streamed(FIRST)];
    run := r1 + [Streamed(CLASH)];
    StatesOf([], Streamed(FIRST));
    StatesOf(r1, Streamed(CLASH));
    AfterFirst();
    AfterClash(State(z, r1));
    x := Stream(1, 2, ByteLeg(9), NOTHING, true, true);
    ClashGoesWrong(State(z, run), x);
    assert run[1] == Streamed(CLASH);
  }

  lemma ClashGoesWrong(s: Peers, x: Stream)
    requires Lawful(Delta())
    requires s.a == map[2 := Context([], []), 1 := Context(OneByte(7), [])]
    requires s.b == map[2 := Context([Flush], []), 1 := Context(OneByte(8), [5])]
    requires x == Stream(1, 2, ByteLeg(9), NOTHING, true, true)
    ensures Legal(Delta(), s, x) && EndA(s, x).s2qAck == 1
    ensures Emitted(Delta(), EndB(s, x).q2s.fed, Reaches(Delta(), EndA(s, x).s2q.log, x.ab)) != Raw(x.ab.ops)
  {
    var z := Delta();
    SecondFlushSent();
    assert EndA(s, x).s2q == Context(OneByte(7), []) && EndA(s, x).q2s == Context([], []);
    assert EndB(s, x).s2q == Context([Flush], []) && EndB(s, x).q2s == Context(OneByte(8), [5]);
    NineAfterSeven();
    assert Possible(z, [Flush], [], x.ba);
  }

  /** A 9 sent after a 7 is no 9 for a decoder that was fed a 5. */
  lemma NineAfterSeven()
    requires Lawful(Delta())
    ensures Possible(Delta(), OneByte(7), [5], ByteLeg(9))
    ensures Decodable(Delta(), [5] + Reaches(Delta(), OneByte(7), ByteLeg(9)))
    ensures Emitted(Delta(), [5], Reaches(Delta(), OneByte(7), ByteLeg(9))) != Raw(OneByte(9))
  {
    SecondByteSent(7, 9);
    OneByteRaw(9);
    assert Reaches(Delta(), OneByte(7), ByteLeg(9)) == [2];
    EmitsSum(5, 2);
  }
}
