/** One direction of a compressed stream: an encoder loop, a wire, and a decoder loop, over
    whatever histories the two ends have. */
module StreamLegs {
  import opened Bytes
  import opened Zstd
  import opened CodecPairs
  import opened Streams
  import opened CodecLoops
  import opened CodecPump
  import opened ReuseProtocol
  import HttpReader
  import HttpSplit

  /** What the local stream of an encoder loop does, in the basic and in the HTTP mode. */
  datatype Local = Basic(turns: seq<Turn>) | Http(parse: HttpReader.Parser, tape: seq<HttpReader.Read>)

  /** The encoder calls that the loop makes of it. */
  function CallsOf(l: Local): (ops: seq<Op>) {
    match l
    case Basic(turns) => OpsOf(turns)
    case Http(parse, tape) => SessionOps(HttpSplit.Run(parse, HttpReader.State([], false), tape))
  }

  /** How the loop ends, if nothing fails on the way, and what it writes to the encoder. */
  function LocalEnd(l: Local): (out: Outcome) {
    match l
    case Basic(turns) => EndOf(turns)
    case Http(parse, tape) => SessionEnd(HttpSplit.Run(parse, HttpReader.State([], false), tape))
  }

  /** The local stream times out: a read does before any has failed, in the basic mode. The HTTP
      reader makes an error of it. */
  ghost predicate TimesOut(l: Local) {
    l.Basic? && exists i :: TimesOutAt(l.turns, i)
  }

  predicate TimesOutAt(turns: seq<Turn>, i: int) {
    0 <= i < |turns| && turns[i] == Got(TimedOut) && forall j :: 0 <= j < i ==> !Bad(turns[j])
  }

  /** A loop that nothing stops ends in a timeout exactly then, and never in a codec error. */
  lemma OnlyTimeoutsTimeOut(l: Local)
    ensures LocalEnd(l) == Timeout <==> TimesOut(l)
    ensures LocalEnd(l) != CodecError
  {
    if l.Basic? {
      var i := FirstBad(l.turns);
      FirstBadTurnDecides(l.turns, i);
      if k :| TimesOutAt(l.turns, k) {
        assert Bad(l.turns[k]) && k == i;
      }
      if EndOf(l.turns) == Timeout { assert TimesOutAt(l.turns, i); }
    }
  }

  lemma {:induction false} FirstBad(turns: seq<Turn>) returns (i: nat)
    ensures i <= |turns| && (forall j :: 0 <= j < i ==> !Bad(turns[j])) && (i < |turns| ==> Bad(turns[i]))
  {
    if turns == [] || Bad(turns[0]) { return 0; }
    i := FirstBad(turns[1..]);
    i := i + 1;
    forall j | 0 <= j < i ensures !Bad(turns[j]) {
      if j > 0 { assert turns[j] == turns[1..][j - 1]; }
    }
  }

  function Written(l: Local): (plain: bytes) {
    match l
    case Basic(turns) => Input(turns)
    case Http(parse, tape) => Concat(HttpSplit.Run(parse, HttpReader.State([], false), tape).msgs)
  }

  lemma CallsWrite(l: Local)
    ensures Raw(CallsOf(l)) == Written(l)
    ensures LocalEnd(l) == CleanEof ==> EndsInFlush(CallsOf(l))
  {
    match l
    case Basic(turns) => OpsWriteInput(turns);
    case Http(parse, tape) => SessionOpsWriteMessages(HttpSplit.Run(parse, HttpReader.State([], false), tape));
  }

  /** In HTTP mode a local error, a read timeout or a bad header finds everything flushed. */
  lemma HttpCallsAreFlushed(l: Local)
    requires l.Http?
    ensures Flushed(CallsOf(l))
  {
    SessionOpsAreFlushed(HttpSplit.Run(l.parse, HttpReader.State([], false), l.tape));
  }

  /** In the basic mode the last turn before a local error decides: nothing was read at all, or
      the flush timer went off last. */
  lemma {:induction false} BasicCallsAreFlushed(turns: seq<Turn>, more: seq<Turn>)
    requires forall i :: 0 <= i < |turns| ==> turns[i] != Got(TimedOut) && turns[i] != Got(Failed)
    ensures EndOf(turns + [Got(Failed)] + more) == IoError
    ensures Flushed(OpsOf(turns + [Got(Failed)] + more)) <==> turns == [] || turns[|turns| - 1].Tick?
  {
    var all := turns + [Got(Failed)] + more;
    if turns != [] {
      assert all[1..] == turns[1..] + [Got(Failed)] + more;
      BasicCallsAreFlushed(turns[1..], more);
      FirstTurn(all);
    }
  }

  /** In HTTP mode too a clean end means that the whole local stream is written, unless the
      reader comes to a header block that announces a message of no bytes. */
  lemma CleanWritesAll(l: Local)
    requires l.Http? && HttpSplit.Fits(l.tape) && LocalEnd(l) == CleanEof
    requires HttpSplit.NoZeroSum(l.parse, HttpSplit.Coming(l.tape))
    ensures Written(l) == HttpSplit.Coming(l.tape)
  {
    SessionSendsAll(l.parse, l.tape);
  }

  /** How the wire of one direction ends at its reader: whole, or after some bytes with a
      timeout or a failure. */
  datatype Ending = Whole | BreaksOff(n: nat, timedOut: bool)

  /** One direction of a stream: what its local stream does, how the wire is cut into reads and
      how it ends, and how the sinks behave. */
  datatype Traffic = Traffic(local: Local, sizes: seq<nat>, ending: Ending, sinks: Sinks)

  function Tape(wire: bytes, t: Traffic): (tape: seq<Read>) {
    match t.ending
    case Whole => Chop(wire, t.sizes)
    case BreaksOff(n, timedOut) =>
      Chop(if n <= |wire| then wire[..n] else wire, t.sizes) + [if timedOut then TimedOut else Failed]
  }

  lemma {:induction false} EndedTape(tape: seq<Read>, last: Read)
    requires DecoderEnd(tape) == CleanEof && !last.Data?
    ensures Arrived(tape + [last]) == Arrived(tape)
    ensures DecoderEnd(tape + [last]) == if last == TimedOut then Timeout else IoError
  {
    if tape == [] {
      assert tape + [last] == [last];
    } else {
      assert (tape + [last])[1..] == tape[1..] + [last];
      EndedTape(tape[1..], last);
    }
  }

  function FrontOf(wire: bytes, e: Ending): (w: bytes) {
    if e.BreaksOff? && e.n <= |wire| then wire[..e.n] else wire
  }

  /** How a decoder loop ends if nothing fails on the way. */
  function WireEnd(e: Ending): (out: Outcome) {
    if e == Whole then CleanEof else if e.timedOut then Timeout else IoError
  }

  /** What arrives is the front of the wire up to where it breaks off, and how the loop ends is how
      the wire does. */
  lemma TapeArrives(wire: bytes, t: Traffic)
    ensures Arrived(Tape(wire, t)) == FrontOf(wire, t.ending) <= wire
    ensures DecoderEnd(Tape(wire, t)) == WireEnd(t.ending)
  {
    match t.ending
    case Whole => ChopArrives(wire, t.sizes);
    case BreaksOff(n, timedOut) =>
      var front := FrontOf(wire, t.ending);
      ChopArrives(front, t.sizes);
      EndedTape(Chop(front, t.sizes), if timedOut then TimedOut else Failed);
  }

  // ------------------------------------------------------------ one direction

  /** The encoder loop in either mode. */
  method Send(sender: CodecPair, l: Local, wire: Sink, up: CodecStats) returns (sent: Outcome)
    requires sender.Settled() && wire.written == []
    modifies sender`encoder, wire, up
    ensures sender.Settled()
    ensures wire.written <= Sent(sender.z, old(sender.encoder.log), CallsOf(l))
    ensures sent != CodecError ==>
              && sender.encoder.log == old(sender.encoder.log) + CallsOf(l)
              && wire.written == Sent(sender.z, old(sender.encoder.log), CallsOf(l))
              && sent == LocalEnd(l)
    ensures sent == CodecError <==> !Goes(sender.z, old(sender.encoder.log), CallsOf(l), wire.limit, 0)
    ensures sent == CleanEof ==> EndsInFlush(CallsOf(l))
  {
    CallsWrite(l);
    assert [] + Sent(sender.z, sender.encoder.log, CallsOf(l)) == Sent(sender.z, sender.encoder.log, CallsOf(l));
    match l
    case Basic(turns) =>
      sent := RunEncoder(sender, turns, wire, up);
    case Http(parse, tape) =>
      var reader := new HttpReader.HttpMessageReader(parse);
      var source := new HttpReader.Source(tape);
      sent := RunHttpEncoder(sender, reader, source, wire, up);
  }

  /** What a decoder loop that was fed `w` has written: all that `w` decodes to, or after a
      codec error part of it. */
  ghost predicate Shown(z: Codec, fed: bytes, w: bytes, received: Outcome, output: bytes)
    requires Lawful(z)
  {
    if received == CodecError then Partly(z, fed, w, [], output)
    else Decodable(z, fed + w) && output == Emitted(z, fed, w)
  }

  /** The leg that a direction makes of its traffic: an encoder loop that nothing stops ends as
      its local stream does, a decoder loop that nothing stops as the wire does, and what
      stops a loop is a codec or a sink. */
  ghost predicate LegOf(z: Codec, log: seq<Op>, fed: bytes, leg: Leg, t: Traffic)
    requires Lawful(z)
  {
    && leg.ops == CallsOf(t.local)
    && leg.sent == (if Goes(z, log, leg.ops, t.sinks.wire, 0) then LocalEnd(t.local) else CodecError)
    && (leg.sent != CodecError ==> leg.arrived == |FrontOf(Sent(z, log, leg.ops), t.ending)|)
    && var w := Reaches(z, log, leg);
    && leg.received == if Drains(z, fed, w, t.sinks.local, 0) && (t.ending == Whole ==> t.sinks.closes)
                       then WireEnd(t.ending) else CodecError
  }

  /** A leg of the protocol was run between two pairs in these states, with this output. */
  ghost predicate Ran(z: Codec, sender: Context, receiver: Context, sender': Context, receiver': Context, leg: Leg,
                      t: Traffic, output: bytes)
    requires Lawful(z)
  {
    && Possible(z, sender.log, receiver.fed, leg) && LegOf(z, sender.log, receiver.fed, leg, t)
    && (Kept(leg.sent) ==> sender' == Sender(sender, leg))
    && (Kept(leg.received) ==> receiver' == Receiver(z, receiver, sender.log, leg))
    && Shown(z, receiver.fed, Reaches(z, sender.log, leg), leg.received, output)
  }

  /** How the two loops of a direction ended, and what reached the local stream. */
  datatype Flowed = Flowed(sent: Outcome, received: Outcome, output: bytes)

  /** An encoder loop at one end and a decoder loop at the other, over whatever histories
      they have, are a leg of the protocol. */
  method RunLeg(sender: CodecPair, receiver: CodecPair, t: Traffic) returns (f: Flowed, ghost leg: Leg)
    requires sender != receiver && sender.z == receiver.z
    requires sender.Settled() && receiver.Settled()
    modifies sender`encoder, receiver`decoder
    ensures sender.Settled() && (Kept(f.received) ==> receiver.Settled())
    ensures leg.sent == f.sent && leg.received == f.received
    ensures Ran(sender.z, old(sender.View()), old(receiver.View()), sender.View(), receiver.View(), leg, t, f.output)
  {
    var wire := new Sink(t.sinks.wire, true);
    var local := new Sink(t.sinks.local, t.sinks.closes);
    var up := new CodecStats();
    var down := new CodecStats();
    ghost var z, log, ops := sender.z, sender.encoder.log, CallsOf(t.local);
    OnlyTimeoutsTimeOut(t.local);
    var sent := Send(sender, t.local, wire, up);
    var tape := Tape(wire.written, t);
    TapeArrives(wire.written, t);
    var received := RunDecoder(receiver, tape, local, down);
    f := Flowed(sent, received, local.written);
    leg := Leg(ops, sent, |Arrived(tape)|, received);
    ReachesWhatArrived(z, log, leg, wire.written, Arrived(tape));
  }

  lemma ReachesWhatArrived(z: Codec, log: seq<Op>, leg: Leg, written: bytes, arrived: bytes)
    requires Lawful(z) && leg.arrived == |arrived| && arrived <= written <= Sent(z, log, leg.ops)
    ensures Reaches(z, log, leg) == arrived && leg.arrived <= |Sent(z, log, leg.ops)|
  {
  }

  // ------------------------------------------------------------ what a safe leg delivers

  /** The output is the local input at a clean end, and a front of it otherwise. */
  predicate Delivers(leg: Leg, l: Local, output: bytes) {
    output <= Written(l) && (leg.sent == leg.received == CleanEof ==> output == Written(l))
  }

  lemma ExactDelivers(z: Codec, log: seq<Op>, fed: bytes, leg: Leg, l: Local, output: bytes)
    requires Lawful(z) && leg.ops == CallsOf(l) && Exact(z, log, fed, leg)
    requires Shown(z, fed, Reaches(z, log, leg), leg.received, output)
    ensures Delivers(leg, l, output)
  {
    CallsWrite(l);
    var w := Reaches(z, log, leg);
    if leg.received == CodecError {
      var n :| 0 <= n <= |w| && Decodable(z, fed + w[..n]) && [] <= output <= [] + Emitted(z, fed, w[..n]);
      assert w[..n] + w[n..] == w;
      EmittedAppend(z, fed, w[..n], w[n..]);
      assert [] + Emitted(z, fed, w[..n]) == Emitted(z, fed, w[..n]);
    }
  }
}
