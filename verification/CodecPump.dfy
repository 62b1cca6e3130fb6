/** One direction of a compressed stream end to end: encoder loop, wire, decoder loop. */
module CodecPump {
  import opened Bytes
  import opened Zstd
  import opened CodecPairs
  import opened Streams
  import opened CodecLoops
  import HttpReader
  import HttpSplit

  predicate EndsInFlush(ops: seq<Op>) {
    ops != [] && ops[|ops| - 1] == Flush
  }

  /** A decoder in step with an encoder hands out what the encoder still held back and then
      exactly what was written, once the writes are flushed; nothing stays behind. */
  lemma FlushedCallsDeliver(z: Codec, log: seq<Op>, ops: seq<Op>)
    requires Lawful(z) && EndsInFlush(ops)
    ensures Decodable(z, z.wire(log) + Sent(z, log, ops))
    ensures Emitted(z, z.wire(log), Sent(z, log, ops)) == HeldBack(z, log) + Raw(ops)
    ensures HeldBack(z, log + ops) == []
  {
    FlushedDecodes(z, log, ops);
    FlushedHoldsNothing(z, log + ops);
    var seen, held := z.decode(z.wire(log)).value, HeldBack(z, log);
    assert seen + (held + Raw(ops)) == (seen + held) + Raw(ops);
    Cancel(seen, held + Raw(ops), Raw(log) + Raw(ops), Emitted(z, z.wire(log), Sent(z, log, ops)));
  }

  lemma FlushedDecodes(z: Codec, log: seq<Op>, ops: seq<Op>)
    requires Lawful(z) && EndsInFlush(ops)
    ensures z.decode(z.wire(log + ops)) == Some(Raw(log) + Raw(ops))
    ensures Flushed(log + ops)
    ensures Decodable(z, z.wire(log))
  {
    var init := ops[..|ops| - 1];
    assert log + ops == (log + init) + [Flush];
    assert Consider(log + init, Flush);
    RawOfFlush(log + init);
    RawAppend(log, ops);
    var held := HeldBack(z, log);
  }

  /** Whatever part of the wire arrives, it decodes to a prefix of that. */
  lemma CutWireDeliversPrefix(z: Codec, log: seq<Op>, ops: seq<Op>, cut: bytes)
    requires Lawful(z) && cut <= Sent(z, log, ops)
    ensures Decodable(z, z.wire(log) + cut)
    ensures Emitted(z, z.wire(log), cut) <= HeldBack(z, log) + Raw(ops)
  {
    var wire := z.wire(log) + cut;
    assert wire <= z.wire(log + ops);
    assert Consider(log + ops, wire);
    RawAppend(log, ops);
    var held := HeldBack(z, log);
    var before := z.decode(z.wire(log)).value;
    assert before + Emitted(z, z.wire(log), cut) <= before + (held + Raw(ops)) by {
      assert before + (held + Raw(ops)) == Raw(log) + Raw(ops);
    }
    PrefixCancel(before, Emitted(z, z.wire(log), cut), held + Raw(ops));
  }

  /** So over contexts that agree a clean stream is the identity exactly when the sender's
      encoder held nothing back from the stream before. */
  lemma IdentityIffNothingHeld(z: Codec, log: seq<Op>, ops: seq<Op>)
    requires Lawful(z) && EndsInFlush(ops)
    ensures Decodable(z, z.wire(log) + Sent(z, log, ops))
    ensures Emitted(z, z.wire(log), Sent(z, log, ops)) == Raw(ops) <==> HeldBack(z, log) == []
  {
    FlushedCallsDeliver(z, log, ops);
  }

  /** The whole wire of some calls, over contexts that agree. */
  lemma WholeWireDelivers(z: Codec, log: seq<Op>, ops: seq<Op>)
    requires Lawful(z)
    ensures Decodable(z, z.wire(log) + Sent(z, log, ops))
    ensures var output := Emitted(z, z.wire(log), Sent(z, log, ops));
            && output <= HeldBack(z, log) + Raw(ops)
            && (EndsInFlush(ops) ==> output == HeldBack(z, log) + Raw(ops) && HeldBack(z, log + ops) == [])
  {
    CutWireDeliversPrefix(z, log, ops, Sent(z, log, ops));
    if EndsInFlush(ops) { FlushedCallsDeliver(z, log, ops); }
  }

  /** A wire cut into reads of the given sizes, with one last read for what is left. */
  function Chop(wire: bytes, sizes: seq<nat>): (tape: seq<Read>)
    decreases |sizes|
  {
    if wire == [] then []
    else if sizes == [] || sizes[0] >= |wire| then [Data(wire)]
    else if sizes[0] == 0 then Chop(wire, sizes[1..])
    else [Data(wire[..sizes[0]])] + Chop(wire[sizes[0]..], sizes[1..])
  }

  lemma {:induction false} ChopArrives(wire: bytes, sizes: seq<nat>)
    ensures Arrived(Chop(wire, sizes)) == wire && DecoderEnd(Chop(wire, sizes)) == CleanEof
    decreases |sizes|
  {
    if wire != [] && sizes != [] && sizes[0] < |wire| {
      if sizes[0] == 0 {
        ChopArrives(wire, sizes[1..]);
      } else {
        ChopArrives(wire[sizes[0]..], sizes[1..]);
        assert wire == wire[..sizes[0]] + wire[sizes[0]..];
      }
    } else if wire != [] {
      assert Chop(wire, sizes) == [Data(wire)];
    }
  }

  function SizesOf(tape: seq<Read>): (sizes: seq<nat>) {
    if tape == [] then [] else [if tape[0].Data? then |tape[0].data| else 0] + SizesOf(tape[1..])
  }

  /** And it can be cut in every way: all reads of it come about from some sizes. */
  lemma {:induction false} EveryCutting(tape: seq<Read>)
    requires forall i :: 0 <= i < |tape| ==> tape[i].Data?
    ensures Chop(Arrived(tape), SizesOf(tape)) == tape
  {
    if tape != [] {
      var first, rest := tape[0].data, tape[1..];
      EveryCutting(rest);
      assert (first + Arrived(rest))[|first|..] == Arrived(rest);
      if rest == [] {
        assert Arrived(tape) == first;
      } else {
        assert Arrived(rest) == rest[0].data + Arrived(rest[1..]);
      }
    }
  }

  /** What both ends know after one direction of a stream has ended cleanly at both. */
  ghost predicate Delivered(z: Codec, log: seq<Op>, log': seq<Op>, fed': bytes, input: bytes, output: bytes)
    requires Lawful(z)
  {
    && output == HeldBack(z, log) + input
    && HeldBack(z, log') == []
    && fed' == z.wire(log')
  }

  /** The plain mode: for every way the local stream is read, every placing of the flush
      timer and every way the wire is cut, the receiver writes the sender's input. */
  method PumpPlain(sender: CodecPair, receiver: CodecPair, turns: seq<Turn>, sizes: seq<nat>, sinks: Sinks)
    returns (sent: Outcome, received: Outcome, output: bytes, up: CodecStats, down: CodecStats)
    requires sender != receiver && sender.z == receiver.z
    requires sender.Settled() && receiver.Settled()
    requires receiver.decoder.fed == sender.z.wire(sender.encoder.log)
    modifies sender`encoder, receiver`decoder
    ensures sent == received == CleanEof ==>
              && Delivered(sender.z, old(sender.encoder.log), sender.encoder.log, receiver.decoder.fed,
                           Input(turns), output)
              && up.upRaw == |Input(turns)| && down.downDecompressed == |output|
              && up.upCompressed == down.downCompressed
    ensures sent != CodecError && received == CleanEof ==>
              && receiver.decoder.fed == sender.z.wire(sender.encoder.log)
              && output <= HeldBack(sender.z, old(sender.encoder.log)) + Input(turns)
    ensures sent == if Goes(sender.z, old(sender.encoder.log), OpsOf(turns), sinks.wire, 0) then EndOf(turns)
                    else CodecError
    ensures sent != CodecError && sinks.local.None? && sinks.closes ==> received == CleanEof
  {
    var wire := new Sink(sinks.wire, true);
    var local := new Sink(sinks.local, sinks.closes);
    up := new CodecStats();
    down := new CodecStats();
    ghost var z, log := sender.z, sender.encoder.log;
    sent := RunEncoder(sender, turns, wire, up);
    var tape := Chop(wire.written, sizes);
    ChopArrives(wire.written, sizes);
    received := RunDecoder(receiver, tape, local, down);
    output := local.written;
    if sent != CodecError {
      OpsWriteInput(turns);
      assert wire.written == Sent(z, log, OpsOf(turns));
      WholeWireDelivers(z, log, OpsOf(turns));
    }
  }

  lemma SessionSendsAll(parse: HttpReader.Parser, tape: seq<HttpReader.Read>)
    requires HttpSplit.Fits(tape)
    ensures var session := HttpSplit.Run(parse, HttpReader.State([], false), tape);
            SessionEnd(session) == CleanEof && HttpSplit.NoZeroSum(parse, HttpSplit.Coming(tape)) ==>
              Concat(session.msgs) == HttpSplit.Coming(tape)
  {
    var s := HttpReader.State([], false);
    assert HttpSplit.Unread(s, tape) == HttpSplit.Coming(tape);
    if HttpSplit.NoZeroSum(parse, HttpSplit.Coming(tape)) {
      HttpSplit.CleanSessionIsComplete(parse, s, tape);
    }
  }

  /** The encoder loop of the HTTP mode with a reader of its own. */
  method EncodeSession(sender: CodecPair, parse: HttpReader.Parser, tape: seq<HttpReader.Read>, limit: Option<nat>)
    returns (sent: Outcome, wire: bytes, up: CodecStats)
    requires sender.Settled()
    modifies sender`encoder
    ensures sender.Settled() && fresh(up)
    ensures sent == CodecError <==>
              !Goes(sender.z, old(sender.encoder.log),
                    SessionOps(HttpSplit.Run(parse, HttpReader.State([], false), tape)), limit, 0)
    ensures sent != CodecError ==>
              var session := HttpSplit.Run(parse, HttpReader.State([], false), tape);
              && sent == SessionEnd(session)
              && sender.encoder.log == old(sender.encoder.log) + SessionOps(session)
              && wire == Sent(sender.z, old(sender.encoder.log), SessionOps(session))
              && up.upRaw == |Concat(session.msgs)| && up.upCompressed == |wire|
  {
    var sink := new Sink(limit, true);
    up := new CodecStats();
    var reader := new HttpReader.HttpMessageReader(parse);
    var source := new HttpReader.Source(tape);
    sent := RunHttpEncoder(sender, reader, source, sink, up);
    wire := sink.written;
  }

  /** The HTTP mode: the receiver writes the messages that the sender's reader framed. */
  method PumpSession(sender: CodecPair, receiver: CodecPair, parse: HttpReader.Parser, tape: seq<HttpReader.Read>,
                     sizes: seq<nat>, sinks: Sinks)
    returns (sent: Outcome, received: Outcome, output: bytes, up: CodecStats, down: CodecStats)
    requires sender != receiver && sender.z == receiver.z
    requires sender.Settled() && receiver.Settled()
    requires receiver.decoder.fed == sender.z.wire(sender.encoder.log)
    modifies sender`encoder, receiver`decoder
    ensures var session := HttpSplit.Run(parse, HttpReader.State([], false), tape);
            && sent == (if Goes(sender.z, old(sender.encoder.log), SessionOps(session), sinks.wire, 0)
                        then SessionEnd(session) else CodecError)
            && (sent != CodecError && sinks.local.None? && sinks.closes ==> received == CleanEof)
            && (sent == received == CleanEof ==>
                  && Delivered(sender.z, old(sender.encoder.log), sender.encoder.log, receiver.decoder.fed,
                               Concat(session.msgs), output)
                  && up.upRaw == |Concat(session.msgs)| && down.downDecompressed == |output|
                  && up.upCompressed == down.downCompressed)
            && (sent != CodecError && received == CleanEof ==>
                  && receiver.decoder.fed == sender.z.wire(sender.encoder.log)
                  && output <= HeldBack(sender.z, old(sender.encoder.log)) + Concat(session.msgs))
  {
    ghost var z, log := sender.z, sender.encoder.log;
    ghost var session := HttpSplit.Run(parse, HttpReader.State([], false), tape);
    var wire;
    sent, wire, up := EncodeSession(sender, parse, tape, sinks.wire);
    var local := new Sink(sinks.local, sinks.closes);
    down := new CodecStats();
    ChopArrives(wire, sizes);
    received := RunDecoder(receiver, Chop(wire, sizes), local, down);
    output := local.written;
    if sent != CodecError {
      SessionOpsWriteMessages(session);
      WholeWireDelivers(z, log, SessionOps(session));
    }
  }

  /** So a clean end means that every byte of the local stream was delivered, unless the reader
      came to a header block that announces a message of no bytes. */
  method PumpHttp(sender: CodecPair, receiver: CodecPair, parse: HttpReader.Parser, tape: seq<HttpReader.Read>,
                  sizes: seq<nat>, sinks: Sinks) returns (sent: Outcome, received: Outcome, output: bytes)
    requires sender != receiver && sender.z == receiver.z
    requires sender.Settled() && receiver.Settled()
    requires receiver.decoder.fed == sender.z.wire(sender.encoder.log)
    requires HttpSplit.Fits(tape)
    modifies sender`encoder, receiver`decoder
    ensures sent == received == CleanEof && HttpSplit.NoZeroSum(parse, HttpSplit.Coming(tape)) ==>
              Delivered(sender.z, old(sender.encoder.log), sender.encoder.log, receiver.decoder.fed,
                        HttpSplit.Coming(tape), output)
  {
    SessionSendsAll(parse, tape);
    var up, down;
    sent, received, output, up, down := PumpSession(sender, receiver, parse, tape, sizes, sinks);
  }
}
