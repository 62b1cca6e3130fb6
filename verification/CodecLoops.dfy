/** The two data loops of a compressed stream: local stream to encoder to QUIC, and QUIC to
    decoder to local stream. */
module CodecLoops {
  import opened Bytes
  import opened Zstd
  import opened CodecPairs
  import opened Streams
  import HttpReader
  import HttpSplit

  /** How a data task ends; `CodecError` stands for the `Err` results. */
  datatype Outcome = CleanEof | Timeout | IoError | CodecError

  /** What a read returns; a read of no bytes is the end of the stream. */
  type Chunk = data: bytes | data != [] witness [0]

  /** One answer of a stream; when none is left the stream has ended. */
  datatype Read = Data(data: Chunk) | TimedOut | Failed

  /** One turn of the `select!` in the plain encoder loop: an answer of the local stream, or
      the flush timer going off first. */
  datatype Turn = Got(read: Read) | Tick

  /** The atomic byte counters of a stream. */
  class CodecStats {
    var upRaw: nat
    var upCompressed: nat
    var downCompressed: nat
    var downDecompressed: nat

    constructor ()
      ensures upRaw == upCompressed == downCompressed == downDecompressed == 0
    {
      upRaw, upCompressed, downCompressed, downDecompressed := 0, 0, 0, 0;
    }
  }

  // ------------------------------------------------------------ the encoder loop

  /** The encoder calls that the plain loop makes. */
  function OpsOf(turns: seq<Turn>): (ops: seq<Op>) {
    if turns == [] then [Flush]
    else
      match turns[0]
      case Got(Data(data)) => [Write(data)] + OpsOf(turns[1..])
      case Tick => [Flush] + OpsOf(turns[1..])
      case Got(_) => []
  }

  function EndOf(turns: seq<Turn>): (out: Outcome) {
    if turns == [] then CleanEof
    else
      match turns[0]
      case Got(TimedOut) => Timeout
      case Got(Failed) => IoError
      case _ => EndOf(turns[1..])
  }

  /** A turn that ends the loop. */
  predicate Bad(turn: Turn) {
    turn == Got(TimedOut) || turn == Got(Failed)
  }

  /** The first bad turn decides how the loop ends: a read that times out is a timeout, one that
      fails a local error, and without either the end is clean. */
  lemma {:induction false} FirstBadTurnDecides(turns: seq<Turn>, i: nat)
    requires i <= |turns| && (forall j :: 0 <= j < i ==> !Bad(turns[j])) && (i < |turns| ==> Bad(turns[i]))
    ensures EndOf(turns) == Timeout <==> i < |turns| && turns[i] == Got(TimedOut)
    ensures EndOf(turns) == IoError <==> i < |turns| && turns[i] == Got(Failed)
    ensures EndOf(turns) == CleanEof <==> i == |turns|
  {
    if i > 0 {
      forall j | 0 <= j < i - 1 ensures !Bad(turns[1..][j]) { assert turns[1..][j] == turns[j + 1]; }
      assert !Bad(turns[0]);
      FirstBadTurnDecides(turns[1..], i - 1);
    }
  }

  /** The bytes read from the local stream before the loop ended. */
  function Input(turns: seq<Turn>): (plain: bytes) {
    if turns == [] || turns[0] == Got(TimedOut) || turns[0] == Got(Failed) then []
    else (if turns[0].Got? then turns[0].read.data else []) + Input(turns[1..])
  }

  lemma FirstTurn(turns: seq<Turn>)
    requires turns != [] && turns[0] != Got(TimedOut) && turns[0] != Got(Failed)
    ensures OpsOf(turns) == [TurnOp(turns[0])] + OpsOf(turns[1..])
    ensures EndOf(turns) == EndOf(turns[1..])
    ensures Input(turns) == Plain(TurnOp(turns[0])) + Input(turns[1..])
  {
  }

  function Plain(op: Op): (data: bytes) {
    if op.Write? then op.data else []
  }

  lemma RawCons(op: Op, ops: seq<Op>)
    ensures Raw([op] + ops) == Plain(op) + Raw(ops)
  {
    RawAppend([op], ops);
    assert Raw([op]) == Raw([]) + Plain(op);
  }

  lemma FlushedCons(op: Op, ops: seq<Op>)
    requires ops != [] && Flushed(ops)
    ensures Flushed([op] + ops)
  {
  }

  /** The calls of the loop write exactly what was read, and a clean end is a flush. */
  lemma {:induction false} OpsWriteInput(turns: seq<Turn>)
    ensures Raw(OpsOf(turns)) == Input(turns)
    ensures EndOf(turns) == CleanEof ==> OpsOf(turns) != [] && Flushed(OpsOf(turns))
  {
    if turns == [] {
      assert Raw([Flush]) == Raw([]) + [];
    } else if turns[0] != Got(TimedOut) && turns[0] != Got(Failed) {
      var ops := OpsOf(turns[1..]);
      OpsWriteInput(turns[1..]);
      FirstTurn(turns);
      RawCons(TurnOp(turns[0]), ops);
      if EndOf(turns[1..]) == CleanEof { FlushedCons(TurnOp(turns[0]), ops); }
    }
  }

  lemma SentAppend(z: Codec, log: seq<Op>, ops: seq<Op>, more: seq<Op>)
    requires Lawful(z)
    ensures Sent(z, log, ops + more) == Sent(z, log, ops) + Sent(z, log + ops, more)
  {
    assert (log + ops) + more == log + (ops + more);
    assert z.wire(log) + (Sent(z, log, ops) + Sent(z, log + ops, more)) == z.wire(log + (ops + more));
  }

  /** Drains what the encoder produced: count it and write it, if there is any. */
  method Forward(produced: bytes, writer: Sink, stats: CodecStats) returns (ok: bool)
    modifies writer, stats`upCompressed
    ensures ok <==> Room(writer.limit, |old(writer.written)|, |produced|)
    ensures ok ==> writer.written == old(writer.written) + produced
    ensures old(writer.written) <= writer.written <= old(writer.written) + produced
    ensures stats.upCompressed == old(stats.upCompressed) + |produced|
  {
    ok := true;
    if produced != [] {
      stats.upCompressed := stats.upCompressed + |produced|;
      ok := writer.WriteAll(produced);
    }
  }

  method WriteCompressed(pair: CodecPair, writer: Sink, data: bytes, stats: CodecStats) returns (ok: bool)
    requires pair.Settled()
    modifies pair`encoder, writer, stats`upCompressed
    ensures pair.Settled()
    ensures ok ==> Advanced(pair, old(pair.encoder.log), [Write(data)], old(writer.written), writer.written,
                            old(stats.upCompressed), stats.upCompressed, writer.limit)
    ensures !ok ==>
              Stopped(pair.z, old(pair.encoder.log), [Write(data)], old(writer.written), writer.written, writer.limit)
  {
    OneCall(pair.z, pair.encoder.log, Write(data));
    var produced;
    ok, produced := pair.Compress(data);
    if ok { ok := Forward(produced, writer, stats); }
  }

  method FlushEncoder(pair: CodecPair, writer: Sink, stats: CodecStats) returns (ok: bool)
    requires pair.Settled()
    modifies pair`encoder, writer, stats`upCompressed
    ensures pair.Settled()
    ensures ok ==> Advanced(pair, old(pair.encoder.log), [Flush], old(writer.written), writer.written,
                            old(stats.upCompressed), stats.upCompressed, writer.limit)
    ensures !ok ==> Stopped(pair.z, old(pair.encoder.log), [Flush], old(writer.written), writer.written, writer.limit)
  {
    OneCall(pair.z, pair.encoder.log, Flush);
    var produced;
    ok, produced := pair.FlushOut();
    if ok { ok := Forward(produced, writer, stats); }
  }

  /** The encoder accepts all of these calls, one after another. */
  ghost predicate AllAccepted(z: Codec, log: seq<Op>, ops: seq<Op>) {
    ops == [] ||
    var last := |ops| - 1;
    AllAccepted(z, log, ops[..last]) && z.accepts(log + ops[..last], ops[last])
  }

  /** Nothing fails: the encoder accepts the calls, and the writer takes their wire bytes. */
  ghost predicate Goes(z: Codec, log: seq<Op>, ops: seq<Op>, limit: Option<nat>, used: nat)
    requires Lawful(z)
  {
    AllAccepted(z, log, ops) && Room(limit, used, |Sent(z, log, ops)|)
  }

  lemma OneCall(z: Codec, log: seq<Op>, op: Op)
    ensures AllAccepted(z, log, [op]) <==> z.accepts(log, op)
  {
    assert [op][..0] == [] && log + [] == log;
  }

  /** Nothing failed: the calls `ops` were made, and their wire bytes written and counted. */
  ghost predicate Advanced(pair: CodecPair, log: seq<Op>, ops: seq<Op>, before: bytes, after: bytes,
                           counted: nat, count: nat, limit: Option<nat>)
    reads pair
    requires Lawful(pair.z)
  {
    && pair.encoder.log == log + ops
    && after == before + Sent(pair.z, log, ops)
    && count == counted + |Sent(pair.z, log, ops)|
    && Goes(pair.z, log, ops, limit, |before|)
  }

  /** Something failed: what was written before is the front of what would have been written. */
  ghost predicate Stopped(z: Codec, log: seq<Op>, ops: seq<Op>, before: bytes, after: bytes, limit: Option<nat>)
    requires Lawful(z)
  {
    before <= after <= before + Sent(z, log, ops) && !Goes(z, log, ops, limit, |before|)
  }

  /** Where a loop started, and the calls it has made on the encoder since. */
  datatype Trail = Trail(log: seq<Op>, done: seq<Op>, before: bytes, counted: nat)

  ghost predicate On(t: Trail, pair: CodecPair, writer: Sink, stats: CodecStats)
    reads pair, writer, stats
  {
    && pair.Settled()
    && Advanced(pair, t.log, t.done, t.before, writer.written, t.counted, stats.upCompressed, writer.limit)
  }

  lemma {:induction false} AcceptedFront(z: Codec, log: seq<Op>, ops: seq<Op>, more: seq<Op>)
    ensures AllAccepted(z, log, ops + more) ==> AllAccepted(z, log, ops)
    decreases |more|
  {
    if more == [] {
      assert ops + more == ops;
    } else {
      var init := more[..|more| - 1];
      assert (ops + more)[..|ops + more| - 1] == ops + init;
      AcceptedFront(z, log, ops, init);
    }
  }

  /** One more call goes if it goes from where the calls before it end. */
  lemma GoesOn(z: Codec, log: seq<Op>, ops: seq<Op>, op: Op, limit: Option<nat>, used: nat)
    requires Lawful(z)
    ensures Goes(z, log, ops + [op], limit, used) <==>
            Goes(z, log, ops, limit, used) && Goes(z, log + ops, [op], limit, used + |Sent(z, log, ops)|)
  {
    assert (ops + [op])[..|ops|] == ops;
    OneCall(z, log + ops, op);
    SentAppend(z, log, ops, [op]);
  }

  /** What does not go does not go with more calls after it. */
  lemma StaysStopped(z: Codec, log: seq<Op>, ops: seq<Op>, more: seq<Op>, limit: Option<nat>, used: nat)
    requires Lawful(z) && !Goes(z, log, ops, limit, used)
    ensures !Goes(z, log, ops + more, limit, used)
  {
    AcceptedFront(z, log, ops, more);
    SentAppend(z, log, ops, more);
  }

  lemma NextOp(z: Codec, t: Trail, op: Op, written: bytes, after: bytes)
    requires Lawful(z)
    requires written == t.before + Sent(z, t.log, t.done)
    ensures (t.log + t.done) + [op] == t.log + (t.done + [op])
    ensures |Sent(z, t.log, t.done + [op])| == |Sent(z, t.log, t.done)| + |Sent(z, t.log + t.done, [op])|
    ensures after == written + Sent(z, t.log + t.done, [op]) ==> after == t.before + Sent(z, t.log, t.done + [op])
  {
    SentAppend(z, t.log, t.done, [op]);
  }

  lemma StopsHere(z: Codec, t: Trail, op: Op, rest: seq<Op>, written: bytes, after: bytes, limit: Option<nat>)
    requires Lawful(z)
    requires written == t.before + Sent(z, t.log, t.done)
    requires Stopped(z, t.log + t.done, [op], written, after, limit)
    ensures Stopped(z, t.log, (t.done + [op]) + rest, t.before, after, limit)
  {
    SentAppend(z, t.log, t.done, [op]);
    SentAppend(z, t.log, t.done + [op], rest);
    var all := Sent(z, t.log, (t.done + [op]) + rest);
    assert t.before + all == (written + Sent(z, t.log + t.done, [op])) + Sent(z, t.log + (t.done + [op]), rest);
    GoesOn(z, t.log, t.done, op, limit, |t.before|);
    StaysStopped(z, t.log, t.done + [op], rest, limit, |t.before|);
  }

  /** One encoder call of a loop that has the calls `rest` still to make after it. */
  method Perform(pair: CodecPair, op: Op, writer: Sink, stats: CodecStats, ghost t: Trail, ghost rest: seq<Op>)
    returns (ok: bool)
    requires On(t, pair, writer, stats)
    modifies pair`encoder, writer, stats`upCompressed
    ensures pair.Settled()
    ensures ok ==> On(t.(done := t.done + [op]), pair, writer, stats)
    ensures !ok ==> Stopped(pair.z, t.log, (t.done + [op]) + rest, t.before, writer.written, writer.limit)
  {
    ghost var written := writer.written;
    GoesOn(pair.z, t.log, t.done, op, writer.limit, |t.before|);
    match op {
      case Write(data) => ok := WriteCompressed(pair, writer, data, stats);
      case Flush => ok := FlushEncoder(pair, writer, stats);
    }
    NextOp(pair.z, t, op, written, writer.written);
    if !ok { StopsHere(pair.z, t, op, rest, written, writer.written, writer.limit); }
  }

  function TurnOp(turn: Turn): (op: Op)
    requires turn != Got(TimedOut) && turn != Got(Failed)
  {
    if turn.Tick? then Flush else Write(turn.read.data)
  }

  /** What turn `i` adds to the calls `done` before it; past the last turn, a flush. */
  lemma OneTurn(turns: seq<Turn>, i: nat, done: seq<Op>)
    requires i <= |turns| && OpsOf(turns) == done + OpsOf(turns[i..])
    ensures i == |turns| ==> OpsOf(turns) == done + [Flush] == (done + [Flush]) + []
    ensures i < |turns| && (turns[i] == Got(TimedOut) || turns[i] == Got(Failed)) ==>
              && OpsOf(turns) == done && Input(turns[i..]) == []
              && EndOf(turns[i..]) == if turns[i] == Got(TimedOut) then Timeout else IoError
    ensures i < |turns| && turns[i] != Got(TimedOut) && turns[i] != Got(Failed) ==>
              && OpsOf(turns) == (done + [TurnOp(turns[i])]) + OpsOf(turns[i + 1..])
              && EndOf(turns[i..]) == EndOf(turns[i + 1..])
              && |Input(turns[i..])| == |Plain(TurnOp(turns[i]))| + |Input(turns[i + 1..])|
  {
    if i < |turns| {
      assert turns[i..][1..] == turns[i + 1..];
      if turns[i] != Got(TimedOut) && turns[i] != Got(Failed) {
        FirstTurn(turns[i..]);
        var op, rest := TurnOp(turns[i]), OpsOf(turns[i + 1..]);
        assert done + ([op] + rest) == (done + [op]) + rest;
      } else {
        assert done + [] == done;
      }
    } else {
      assert turns[i..] == [];
    }
  }

  /** The plain encoder loop. */
  method RunEncoder(pair: CodecPair, turns: seq<Turn>, writer: Sink, stats: CodecStats) returns (out: Outcome)
    requires pair.Settled()
    modifies pair`encoder, writer, stats`upRaw, stats`upCompressed
    ensures pair.Settled()
    ensures out != CodecError ==>
              && out == EndOf(turns)
              && Advanced(pair, old(pair.encoder.log), OpsOf(turns), old(writer.written), writer.written,
                          old(stats.upCompressed), stats.upCompressed, writer.limit)
              && stats.upRaw == old(stats.upRaw) + |Input(turns)|
    ensures out == CodecError ==>
              Stopped(pair.z, old(pair.encoder.log), OpsOf(turns), old(writer.written), writer.written, writer.limit)
  {
    ghost var t := Trail(pair.encoder.log, [], writer.written, stats.upCompressed);
    Begin(t, pair, writer, stats);
    assert turns[0..] == turns && [] + OpsOf(turns) == OpsOf(turns);
    var i := 0;
    while i < |turns|
      invariant 0 <= i <= |turns|
      invariant On(t, pair, writer, stats)
      invariant t == Trail(old(pair.encoder.log), t.done, old(writer.written), old(stats.upCompressed))
      invariant OpsOf(turns) == t.done + OpsOf(turns[i..])
      invariant EndOf(turns) == EndOf(turns[i..])
      invariant stats.upRaw + |Input(turns[i..])| == old(stats.upRaw) + |Input(turns)|
    {
      OneTurn(turns, i, t.done);
      if turns[i] == Got(TimedOut) || turns[i] == Got(Failed) {
        return if turns[i] == Got(TimedOut) then Timeout else IoError;
      }
      var op := TurnOp(turns[i]);
      if op.Write? { stats.upRaw := stats.upRaw + |op.data|; }
      var ok := Perform(pair, op, writer, stats, t, OpsOf(turns[i + 1..]));
      if !ok { return CodecError; }
      t := t.(done := t.done + [op]);
      i := i + 1;
    }
    OneTurn(turns, i, t.done);
    var ok := Perform(pair, Flush, writer, stats, t, []);
    out := if ok then CleanEof else CodecError;
  }

  /** Where a loop is when it has made no call yet. */
  lemma Begin(t: Trail, pair: CodecPair, writer: Sink, stats: CodecStats)
    requires pair.Settled() && t == Trail(pair.encoder.log, [], writer.written, stats.upCompressed)
    ensures On(t, pair, writer, stats)
  {
    assert t.log + [] == t.log;
    assert Sent(pair.z, t.log, []) == [];
  }

  // ------------------------------------------------------------ HTTP mode

  /** The encoder calls for a session of the HTTP reader: every message is written and
      flushed, and a clean end is flushed once more. */
  function SessionOps(s: HttpSplit.Session): (ops: seq<Op>)
    decreases |s.msgs|
  {
    if s.msgs != [] then [Write(s.msgs[0]), Flush] + SessionOps(s.(msgs := s.msgs[1..]))
    else if s.failed.None? then [Flush]
    else []
  }

  function SessionEnd(s: HttpSplit.Session): (out: Outcome) {
    if s.failed.None? then CleanEof else IoError
  }

  lemma {:induction false} SessionOpsWriteMessages(s: HttpSplit.Session)
    ensures Raw(SessionOps(s)) == Concat(s.msgs)
    ensures s.failed.None? ==> SessionOps(s) != [] && Flushed(SessionOps(s))
    decreases |s.msgs|
  {
    if s.msgs != [] {
      var front, rest := [Write(s.msgs[0]), Flush], s.(msgs := s.msgs[1..]);
      SessionOpsWriteMessages(rest);
      RawAppend(front, SessionOps(rest));
      RawAppend([Write(s.msgs[0])], [Flush]);
      assert [Write(s.msgs[0])] + [Flush] == front;
      assert Raw([Write(s.msgs[0])]) == Raw([]) + s.msgs[0];
      assert Raw([Flush]) == Raw([]) + [];
    } else if s.failed.None? {
      assert Raw([Flush]) == Raw([]) + [];
    }
  }

  /** However the session ends, nothing is left unflushed. */
  lemma {:induction false} SessionOpsAreFlushed(s: HttpSplit.Session)
    ensures Flushed(SessionOps(s))
    decreases |s.msgs|
  {
    if s.msgs != [] { SessionOpsAreFlushed(s.(msgs := s.msgs[1..])); }
  }

  /** The encoder loop in HTTP mode. */
  method RunHttpEncoder(pair: CodecPair, reader: HttpReader.HttpMessageReader, source: HttpReader.Source,
                        writer: Sink, stats: CodecStats) returns (out: Outcome)
    requires pair.Settled()
    modifies pair`encoder, reader, source, writer, stats`upRaw, stats`upCompressed
    ensures pair.Settled()
    ensures var session := HttpSplit.Run(reader.parse, old(reader.View()), old(source.tape));
            && (out != CodecError ==>
                  && out == SessionEnd(session) == (if session.failed.Some? then IoError else CleanEof)
                  && Advanced(pair, old(pair.encoder.log), SessionOps(session), old(writer.written), writer.written,
                              old(stats.upCompressed), stats.upCompressed, writer.limit)
                  && stats.upRaw == old(stats.upRaw) + |Concat(session.msgs)|)
            && (out == CodecError ==>
                  Stopped(pair.z, old(pair.encoder.log), SessionOps(session), old(writer.written), writer.written,
                          writer.limit))
  {
    ghost var t := Trail(pair.encoder.log, [], writer.written, stats.upCompressed);
    ghost var session := HttpSplit.Run(reader.parse, reader.View(), source.tape);
    ghost var ahead := session;
    ghost var read: nat := 0;
    assert t.log + [] == t.log;
    while true
      invariant On(t, pair, writer, stats)
      invariant t == Trail(old(pair.encoder.log), t.done, old(writer.written), old(stats.upCompressed))
      invariant ahead == HttpSplit.Run(reader.parse, reader.View(), source.tape)
      invariant SessionOps(session) == t.done + SessionOps(ahead)
      invariant session.failed == ahead.failed
      invariant read + |Concat(ahead.msgs)| == |Concat(session.msgs)|
      invariant stats.upRaw == old(stats.upRaw) + read
      decreases |HttpSplit.Unread(reader.View(), source.tape)|
    {
      ghost var later;
      var message;
      message, later := NextMessage(reader, source, ahead);
      if message.Err? {
        assert t.done + [] == t.done;
        return IoError;
      }
      var data := message.value;
      if data == [] {
        assert (t.done + [Flush]) + [] == t.done + [Flush];
        var ok := Perform(pair, Flush, writer, stats, t, []);
        return if ok then CleanEof else CodecError;
      }
      OneMessage(t.done, data, later);
      var ok := SendMessage(pair, data, writer, stats, t, SessionOps(later));
      if !ok { return CodecError; }
      read := read + |data|;
      t := t.(done := t.done + [Write(data), Flush]);
      ahead := later;
    }
  }

  /** One call of the reader, seen as one message of the session that lies ahead. */
  method NextMessage(reader: HttpReader.HttpMessageReader, source: HttpReader.Source, ghost ahead: HttpSplit.Session)
    returns (message: Result<bytes, HttpReader.Error>, ghost later: HttpSplit.Session)
    requires ahead == HttpSplit.Run(reader.parse, reader.View(), source.tape)
    modifies reader, source
    ensures message.Err? ==> ahead.msgs == [] && ahead.failed.Some?
    ensures message == Ok([]) ==> ahead.msgs == [] && ahead.failed.None?
    ensures message.Ok? && message.value != [] ==>
              && ahead == later.(msgs := [message.value] + later.msgs)
              && later == HttpSplit.Run(reader.parse, reader.View(), source.tape)
              && |HttpSplit.Unread(reader.View(), source.tape)| < old(|HttpSplit.Unread(reader.View(), source.tape)|)
  {
    HttpSplit.ReadLosesNothing(reader.parse, reader.View(), source.tape);
    message := reader.ReadMessage(source);
    later := HttpSplit.Run(reader.parse, reader.View(), source.tape);
  }

  /** Counts, writes and flushes one message of a loop that has the calls `rest` to make
      after it. */
  method SendMessage(pair: CodecPair, data: bytes, writer: Sink, stats: CodecStats, ghost t: Trail, ghost rest: seq<Op>)
    returns (ok: bool)
    requires On(t, pair, writer, stats)
    modifies pair`encoder, writer, stats`upRaw, stats`upCompressed
    ensures pair.Settled() && stats.upRaw == old(stats.upRaw) + |data|
    ensures ok ==> On(t.(done := t.done + [Write(data), Flush]), pair, writer, stats)
    ensures !ok ==>
              Stopped(pair.z, t.log, t.done + ([Write(data), Flush] + rest), t.before, writer.written, writer.limit)
  {
    stats.upRaw := stats.upRaw + |data|;
    assert t.done + ([Write(data), Flush] + rest) == (t.done + [Write(data)]) + ([Flush] + rest);
    ok := Perform(pair, Write(data), writer, stats, t, [Flush] + rest);
    if ok {
      ghost var t' := t.(done := t.done + [Write(data)]);
      assert t'.done + [Flush] == t.done + [Write(data), Flush];
      assert (t'.done + [Flush]) + rest == t.done + ([Write(data), Flush] + rest);
      ok := Perform(pair, Flush, writer, stats, t', rest);
    }
  }

  lemma OneMessage(done: seq<Op>, data: bytes, later: HttpSplit.Session)
    ensures var ahead := later.(msgs := [data] + later.msgs);
            && done + SessionOps(ahead) == done + ([Write(data), Flush] + SessionOps(later))
            && done + SessionOps(ahead) == (done + [Write(data), Flush]) + SessionOps(later)
            && |Concat(ahead.msgs)| == |data| + |Concat(later.msgs)|
  {
    var ahead := later.(msgs := [data] + later.msgs);
    assert ahead.msgs[1..] == later.msgs;
    assert ahead.(msgs := ahead.msgs[1..]) == later;
  }

  // ------------------------------------------------------------ the decoder loop

  /** The wire bytes that arrive before the decoder loop ends. */
  function Arrived(tape: seq<Read>): (w: bytes) {
    if tape == [] || !tape[0].Data? then [] else tape[0].data + Arrived(tape[1..])
  }

  function DecoderEnd(tape: seq<Read>): (out: Outcome) {
    if tape == [] then CleanEof
    else
      match tape[0]
      case TimedOut => Timeout
      case Failed => IoError
      case Data(_) => DecoderEnd(tape[1..])
  }

  /** The first read that is no data decides in the same way. */
  lemma {:induction false} FirstBadReadDecides(tape: seq<Read>, i: nat)
    requires i <= |tape| && (forall j :: 0 <= j < i ==> tape[j].Data?) && (i < |tape| ==> !tape[i].Data?)
    ensures DecoderEnd(tape) == Timeout <==> i < |tape| && tape[i] == TimedOut
    ensures DecoderEnd(tape) == IoError <==> i < |tape| && tape[i] == Failed
    ensures DecoderEnd(tape) == CleanEof <==> i == |tape|
  {
    if i > 0 {
      forall j | 0 <= j < i - 1 ensures tape[1..][j].Data? { assert tape[1..][j] == tape[j + 1]; }
      assert tape[0].Data?;
      FirstBadReadDecides(tape[1..], i - 1);
    }
  }

  lemma EmittedAppend(z: Codec, fed: bytes, a: bytes, b: bytes)
    requires Lawful(z) && Decodable(z, fed + (a + b))
    ensures Decodable(z, fed + a)
    ensures (fed + a) + b == fed + (a + b)
    ensures Emitted(z, fed, a + b) == Emitted(z, fed, a) + Emitted(z, fed + a, b)
  {
    assert (fed + a) + b == fed + (a + b);
    assert Consider(fed + a, b);
    var e := Emitted(z, fed, a) + Emitted(z, fed + a, b);
    assert z.decode(fed).value + e == z.decode(fed + (a + b)).value;
    assert z.decode(fed).value + Emitted(z, fed, a + b) == z.decode(fed + (a + b)).value;
  }

  /** The decoder loop has been fed `w` and has passed on what that decodes to. */
  ghost predicate Drained(pair: CodecPair, fed: bytes, w: bytes, before: bytes, after: bytes)
    reads pair
    requires Lawful(pair.z)
  {
    && pair.decoder.fed == fed + w
    && Decodable(pair.z, fed + w)
    && after == before + Emitted(pair.z, fed, w)
  }

  /** All that some front of `w` decodes to after `fed` may have been passed on, and no more. */
  ghost predicate Partly(z: Codec, fed: bytes, w: bytes, before: bytes, after: bytes)
    requires Lawful(z)
  {
    exists n ::
      0 <= n <= |w| && Decodable(z, fed + w[..n]) && before <= after <= before + Emitted(z, fed, w[..n])
  }

  lemma PartlyOfFront(z: Codec, fed: bytes, w: bytes, rest: bytes, before: bytes, after: bytes)
    requires Lawful(z) && Decodable(z, fed + w) && before <= after <= before + Emitted(z, fed, w)
    ensures Partly(z, fed, w + rest, before, after)
  {
    assert (w + rest)[..|w|] == w;
  }

  /** Where all of it decodes, that is a prefix of what it decodes to. */
  lemma PartlyIsPrefix(z: Codec, fed: bytes, w: bytes, before: bytes, after: bytes)
    requires Lawful(z) && Decodable(z, fed) && Partly(z, fed, w, before, after)
    ensures Decodable(z, fed + w) ==> before <= after <= before + Emitted(z, fed, w)
  {
    var n :| 0 <= n <= |w| && Decodable(z, fed + w[..n]) && before <= after <= before + Emitted(z, fed, w[..n]);
    assert w[..n] + w[n..] == w;
    if Decodable(z, fed + w) { EmittedAppend(z, fed, w[..n], w[n..]); }
  }

  /** Nothing fails: what arrived decodes, and the writer takes what it decodes to. */
  ghost predicate Drains(z: Codec, fed: bytes, w: bytes, limit: Option<nat>, used: nat)
    requires Lawful(z)
  {
    Decodable(z, fed + w) && Room(limit, used, |Emitted(z, fed, w)|)
  }

  /** One more read drains if it does from where those before it end. */
  lemma DrainsOn(z: Codec, fed: bytes, w: bytes, more: bytes, limit: Option<nat>, used: nat)
    requires Lawful(z)
    ensures Drains(z, fed, w + more, limit, used) <==>
            && Drains(z, fed, w, limit, used)
            && Drains(z, fed + w, more, limit, used + |Emitted(z, fed, w)|)
  {
    assert (fed + w) + more == fed + (w + more);
    if Decodable(z, fed + (w + more)) { EmittedAppend(z, fed, w, more); }
  }

  /** Where a decoder loop started and what it has been fed since. */
  datatype Feed = Feed(fed: bytes, w: bytes, before: bytes, countedIn: nat, counted: nat)

  ghost predicate Feeding(f: Feed, pair: CodecPair, writer: Sink, stats: CodecStats)
    reads pair, writer, stats
  {
    && pair.Settled() && Drained(pair, f.fed, f.w, f.before, writer.written)
    && stats.downCompressed == f.countedIn + |f.w|
    && stats.downDecompressed == f.counted + |Emitted(pair.z, f.fed, f.w)|
    && Drains(pair.z, f.fed, f.w, writer.limit, |f.before|)
  }

  lemma BeginFeeding(f: Feed, pair: CodecPair, writer: Sink, stats: CodecStats)
    requires pair.Settled()
    requires f == Feed(pair.decoder.fed, [], writer.written, stats.downCompressed, stats.downDecompressed)
    ensures Feeding(f, pair, writer, stats)
  {
    assert f.fed + [] == f.fed;
    assert Emitted(pair.z, f.fed, []) == [];
  }

  /** What read `i` adds to the bytes `w` that arrived before it. */
  lemma OneRead(tape: seq<Read>, i: nat, w: bytes)
    requires i <= |tape| && Arrived(tape) == w + Arrived(tape[i..])
    ensures i == |tape| || !tape[i].Data? ==>
              && Arrived(tape) == w
              && DecoderEnd(tape[i..]) ==
                 if i == |tape| then CleanEof else if tape[i].TimedOut? then Timeout else IoError
    ensures i < |tape| && tape[i].Data? ==>
              && Arrived(tape) == (w + tape[i].data) + Arrived(tape[i + 1..])
              && DecoderEnd(tape[i..]) == DecoderEnd(tape[i + 1..])
  {
    if i < |tape| && tape[i].Data? {
      assert tape[i..][1..] == tape[i + 1..];
      assert w + (tape[i].data + Arrived(tape[i + 1..])) == (w + tape[i].data) + Arrived(tape[i + 1..]);
    } else {
      assert w + [] == w;
    }
  }

  method RunDecoder(pair: CodecPair, tape: seq<Read>, writer: Sink, stats: CodecStats) returns (out: Outcome)
    requires pair.Settled()
    modifies pair`decoder, writer, stats`downCompressed, stats`downDecompressed
    ensures out != CodecError ==>
              && pair.Settled()
              && out == DecoderEnd(tape)
              && Drained(pair, old(pair.decoder.fed), Arrived(tape), old(writer.written), writer.written)
              && stats.downCompressed == old(stats.downCompressed) + |Arrived(tape)|
              && stats.downDecompressed ==
                 old(stats.downDecompressed) + |Emitted(pair.z, old(pair.decoder.fed), Arrived(tape))|
    ensures out == CodecError ==>
              Partly(pair.z, old(pair.decoder.fed), Arrived(tape), old(writer.written), writer.written)
    ensures out == CodecError && Decodable(pair.z, old(pair.decoder.fed) + Arrived(tape)) ==>
              old(writer.written) <= writer.written <=
              old(writer.written) + Emitted(pair.z, old(pair.decoder.fed), Arrived(tape))
    ensures out == CodecError <==>
              || !Drains(pair.z, old(pair.decoder.fed), Arrived(tape), writer.limit, |old(writer.written)|)
              || (DecoderEnd(tape) == CleanEof && !writer.closes)
  {
    ghost var f := Feed(pair.decoder.fed, [], writer.written, stats.downCompressed, stats.downDecompressed);
    BeginFeeding(f, pair, writer, stats);
    assert tape[0..] == tape && [] + Arrived(tape) == Arrived(tape);
    var i := 0;
    while i < |tape|
      invariant 0 <= i <= |tape|
      invariant Feeding(f, pair, writer, stats)
      invariant f == Feed(old(pair.decoder.fed), f.w, old(writer.written), old(stats.downCompressed),
                          old(stats.downDecompressed))
      invariant Arrived(tape) == f.w + Arrived(tape[i..])
      invariant DecoderEnd(tape) == DecoderEnd(tape[i..])
    {
      OneRead(tape, i, f.w);
      if !tape[i].Data? { return if tape[i].TimedOut? then Timeout else IoError; }
      var ok := FeedOne(pair, tape[i].data, writer, stats, f, Arrived(tape[i + 1..]));
      if !ok {
        PartlyIsPrefix(pair.z, f.fed, Arrived(tape), f.before, writer.written);
        return CodecError;
      }
      f := f.(w := f.w + tape[i].data);
      i := i + 1;
    }
    OneRead(tape, i, f.w);
    var ok := FinishFeeding(pair, writer, stats, f);
    if !ok { PartlyIsPrefix(pair.z, f.fed, f.w, f.before, writer.written); }
    out := if ok then CleanEof else CodecError;
  }

  /** One read of a decoder loop, with `rest` still to arrive after it. */
  method FeedOne(pair: CodecPair, data: bytes, writer: Sink, stats: CodecStats, ghost f: Feed, ghost rest: bytes)
    returns (ok: bool)
    requires Feeding(f, pair, writer, stats)
    modifies pair`decoder, writer, stats`downCompressed, stats`downDecompressed
    ensures ok ==> Feeding(f.(w := f.w + data), pair, writer, stats)
    ensures !ok ==> Partly(pair.z, f.fed, (f.w + data) + rest, f.before, writer.written)
    ensures !ok ==> !Drains(pair.z, f.fed, (f.w + data) + rest, writer.limit, |f.before|)
  {
    stats.downCompressed := stats.downCompressed + |data|;
    var produced;
    ok, produced := pair.Decompress(data);
    assert (f.fed + f.w) + data == f.fed + (f.w + data);
    if ok {
      EmittedAppend(pair.z, f.fed, f.w, data);
      ok := Deliver(produced, writer, stats);
      PartlyOfFront(pair.z, f.fed, f.w + data, rest, f.before, writer.written);
      DrainsOn(pair.z, f.fed, f.w, data, writer.limit, |f.before|);
    } else {
      PartlyOfFront(pair.z, f.fed, f.w, data + rest, f.before, writer.written);
      assert f.w + (data + rest) == (f.w + data) + rest;
    }
    if !ok { DrainsOn(pair.z, f.fed, f.w + data, rest, writer.limit, |f.before|); }
  }

  /** The end of the wire: what is left in the decoder, and the local stream shut down. */
  method FinishFeeding(pair: CodecPair, writer: Sink, stats: CodecStats, ghost f: Feed) returns (ok: bool)
    requires Feeding(f, pair, writer, stats)
    modifies pair`decoder, writer, stats`downDecompressed
    ensures ok <==> writer.closes
    ensures ok ==> Feeding(f, pair, writer, stats)
    ensures !ok ==> Partly(pair.z, f.fed, f.w, f.before, writer.written)
  {
    var produced := pair.DrainDecoder();
    assert produced == [];
    ok := Deliver(produced, writer, stats);
    if ok { ok := writer.closes; }   // shutting the local stream down may fail
    PartlyOfFront(pair.z, f.fed, f.w, [], f.before, writer.written);
    assert f.w + [] == f.w;
  }

  /** Passes decompressed bytes on, if there are any. */
  method Deliver(produced: bytes, writer: Sink, stats: CodecStats) returns (ok: bool)
    modifies writer, stats`downDecompressed
    ensures ok <==> Room(writer.limit, |old(writer.written)|, |produced|)
    ensures ok ==> writer.written == old(writer.written) + produced
    ensures old(writer.written) <= writer.written <= old(writer.written) + produced
    ensures stats.downDecompressed == old(stats.downDecompressed) + |produced|
  {
    ok := true;
    if produced != [] {
      stats.downDecompressed := stats.downDecompressed + |produced|;
      ok := writer.WriteAll(produced);
    }
  }
}
