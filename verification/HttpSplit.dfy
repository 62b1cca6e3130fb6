/** What a whole session of the HTTP reader does: it loses nothing, and however the stream
    is cut into reads it frames the messages that a splitter frames which sees the whole
    stream at once. */
module HttpSplit {
  import opened Bytes
  import opened HttpReader

  /** The bytes still to come. */
  function Coming(tape: seq<Read>): (all: bytes) {
    if tape == [] then []
    else (if tape[0].Data? then tape[0].data else []) + Coming(tape[1..])
  }

  /** What is in the reader and under it. */
  function Unread(s: State, tape: seq<Read>): (all: bytes) {
    s.buf + Coming(tape)
  }

  /** The reader after one more read. */
  function ReadOn(s: State, tape: seq<Read>): (next: State)
    requires tape != [] && tape[0].Data?
    ensures Unread(next, tape[1..]) == Unread(s, tape)
  {
    var next := State(s.buf + tape[0].data, false);
    assert s.buf + (tape[0].data + Coming(tape[1..])) == next.buf + Coming(tape[1..]);
    next
  }

  /** Every read returns between one byte and a full buffer. */
  predicate Fits(tape: seq<Read>) {
    forall i :: 0 <= i < |tape| && tape[i].Data? ==> 0 < |tape[i].data| <= READ_SIZE
  }

  predicate NoFailures(tape: seq<Read>) {
    forall i :: 0 <= i < |tape| ==> tape[i].Data?
  }

  /** One call hands out the front of what was unread and keeps the rest, and a call that
      fails loses nothing. */
  lemma {:induction false} ReadLosesNothing(parse: Parser, s: State, tape: seq<Read>)
    ensures var step := ReadStep(parse, s, tape);
            Unread(s, tape) ==
            (if step.answer.Ok? then step.answer.value else []) + Unread(step.state, step.tape)
    decreases |tape|
  {
    var verdict := Examine(parse, s.buf);
    if ReadsOn(verdict, s, tape) {
      var next := ReadOn(s, tape);
      ReadLosesNothing(parse, next, tape[1..]);
    } else {
      LastStepLosesNothing(verdict, s, tape);
    }
  }

  lemma LastStepLosesNothing(verdict: Verdict, s: State, tape: seq<Read>)
    requires !ReadsOn(verdict, s, tape) && (verdict.Frame? ==> verdict.size <= |s.buf|)
    ensures var step := LastStep(verdict, s, tape);
            Unread(s, tape) ==
            (if step.answer.Ok? then step.answer.value else []) + Unread(step.state, step.tape)
  {
    if !s.drain && verdict.Frame? {
      var n := verdict.size;
      assert s.buf[..n] + (s.buf[n..] + Coming(tape)) == s.buf + Coming(tape);
    }
  }

  /** Drain mode means an empty buffer, from the start of the stream on. */
  lemma {:induction false} DrainMeansEmpty(parse: Parser, s: State, tape: seq<Read>)
    requires s.drain ==> s.buf == []
    ensures var after := ReadStep(parse, s, tape).state;
            after.drain ==> after.buf == []
    decreases |tape|
  {
    if !s.drain && Examine(parse, s.buf).NeedMore? && tape != [] && tape[0].Data? {
      DrainMeansEmpty(parse, State(s.buf + tape[0].data, false), tape[1..]);
    }
  }

  /** A session: calls until an empty message, which the caller takes for the end of the
      stream, or an error. */
  datatype Session = Session(msgs: seq<bytes>, failed: Option<Error>, left: bytes)

  function Run(parse: Parser, s: State, tape: seq<Read>): (r: Session)
    decreases |Unread(s, tape)|
  {
    var step := ReadStep(parse, s, tape);
    ReadLosesNothing(parse, s, tape);
    var left := Unread(step.state, step.tape);
    if step.answer.Err? then Session([], Some(step.answer.error), left)
    else if step.answer.value == [] then Session([], None, left)
    else
      var rest := Run(parse, step.state, step.tape);
      rest.(msgs := [step.answer.value] + rest.msgs)
  }

  /** The messages of a session followed by what it left unread are the stream, for every
      cutting into reads and however the session ended. */
  lemma {:induction false} SessionLosesNothing(parse: Parser, s: State, tape: seq<Read>)
    ensures var r := Run(parse, s, tape);
            Concat(r.msgs) + r.left == Unread(s, tape)
    decreases |Unread(s, tape)|
  {
    var step := ReadStep(parse, s, tape);
    ReadLosesNothing(parse, s, tape);
    if step.answer.Ok? && step.answer.value != [] {
      SessionLosesNothing(parse, step.state, step.tape);
    }
  }

  // ------------------------------------------------------------ what an empty message means

  /** The size that the reader gives the message whose header block this is, if the block has
      a length: header and body together, reduced to a `usize`. */
  function Announced(parse: Parser, block: bytes): (size: Option<nat>) {
    match parse(block)
    case Parsed(Some(length)) => Some((|block| + length) % USIZE_LIMIT)
    case _ => None
  }

  /** None of the header blocks that the reader can come to, one message after another,
      announces a message of no bytes. */
  predicate NoZeroSum(parse: Parser, all: bytes)
    decreases |all|
  {
    var end := FindHeaderEnd(all);
    end.Some? && end.value <= MAX_HEADER_SIZE + READ_SIZE ==>
      var size := Announced(parse, all[..end.value]);
      size.Some? ==> size.value != 0 && (size.value <= |all| ==> NoZeroSum(parse, all[size.value..]))
  }

  /** What the reader can hold between calls, and within one after a read past `seen`. */
  predicate Buffered(buf: bytes) {
    |buf| <= MAX_HEADER_SIZE + READ_SIZE
  }

  predicate ReadPast(parse: Parser, buf: bytes, seen: nat) {
    && seen <= |buf| && Examine(parse, buf[..seen]).NeedMore?
    && (Buffered(buf) || |buf| <= seen + READ_SIZE)
    && (FindHeaderEnd(buf[..seen]).Some? ==> FindHeaderEnd(buf[..seen]).value <= MAX_HEADER_SIZE + READ_SIZE)
  }

  /** A header end in the buffer is within reach, and a message leaves little behind. */
  lemma WithinReach(parse: Parser, buf: bytes, seen: nat)
    requires ReadPast(parse, buf, seen)
    ensures FindHeaderEnd(buf).Some? ==> FindHeaderEnd(buf).value <= MAX_HEADER_SIZE + READ_SIZE
    ensures Examine(parse, buf).Frame? ==> Buffered(buf[Examine(parse, buf).size..])
  {
    HeaderEndIsStable(buf[..seen], buf[seen..]);
    assert buf[..seen] + buf[seen..] == buf;
    var end := FindHeaderEnd(buf[..seen]);
    if end.Some? {
      assert buf[..seen][..end.value] == buf[..end.value];
    }
  }

  lemma ReadFurther(parse: Parser, buf: bytes, seen: nat, more: bytes)
    requires ReadPast(parse, buf, seen) && Examine(parse, buf).NeedMore? && |more| <= READ_SIZE
    ensures ReadPast(parse, buf + more, |buf|)
  {
    WithinReach(parse, buf, seen);
    assert (buf + more)[..|buf|] == buf;
  }

  /** A call that answers leaves the reader holding no more than it can hold. */
  lemma {:induction false} StaysBuffered(parse: Parser, s: State, tape: seq<Read>, seen: nat)
    requires Fits(tape) && (if s.drain then Buffered(s.buf) else ReadPast(parse, s.buf, seen))
    ensures var step := ReadStep(parse, s, tape);
            step.answer.Ok? ==> Buffered(step.state.buf) && |step.state.buf| <= 65536 + 8192
    decreases |tape|
  {
    var verdict := Examine(parse, s.buf);
    if !s.drain { WithinReach(parse, s.buf, seen); }
    if ReadsOn(verdict, s, tape) {
      ReadFurther(parse, s.buf, seen, tape[0].data);
      StaysBuffered(parse, State(s.buf + tape[0].data, false), tape[1..], |s.buf|);
    }
  }

  /** The first block of a stream does not announce a message of no bytes. */
  predicate FirstNotZero(parse: Parser, all: bytes) {
    var end := FindHeaderEnd(all);
    end.Some? && end.value <= MAX_HEADER_SIZE + READ_SIZE ==> Announced(parse, all[..end.value]) != Some(0)
  }

  /** An empty message means the end of the stream on a message boundary, unless the header
      block at hand announces a message of no bytes. */
  lemma {:induction false} EmptyMessageMeansEnd(parse: Parser, s: State, tape: seq<Read>, seen: nat)
    requires Fits(tape) && (s.drain || ReadPast(parse, s.buf, seen))
    requires s.drain || FirstNotZero(parse, Unread(s, tape))
    ensures var step := ReadStep(parse, s, tape);
            step.answer == Ok([]) ==> step.tape == [] && step.state.buf == []
    decreases |tape|
  {
    var verdict := Examine(parse, s.buf);
    if !s.drain {
      WithinReach(parse, s.buf, seen);
      HeaderEndIsStable(s.buf, Coming(tape));
      if ReadsOn(verdict, s, tape) {
        var next := ReadOn(s, tape);
        ReadFurther(parse, s.buf, seen, tape[0].data);
        EmptyMessageMeansEnd(parse, next, tape[1..], |s.buf|);
      } else if verdict.Frame? {
        var end := FindHeaderEnd(s.buf).value;
        assert Unread(s, tape)[..end] == s.buf[..end];
      }
    }
  }

  lemma FrameLeavesTail(parse: Parser, buf: bytes, more: bytes)
    requires Examine(parse, buf).Frame? && FindHeaderEnd(buf).value <= MAX_HEADER_SIZE + READ_SIZE
    requires NoZeroSum(parse, buf + more)
    ensures NoZeroSum(parse, buf[Examine(parse, buf).size..] + more)
  {
    var all, n, end := buf + more, Examine(parse, buf).size, FindHeaderEnd(buf).value;
    HeaderEndIsStable(buf, more);
    assert all[..end] == buf[..end];
    assert all[n..] == buf[n..] + more;
    assert Announced(parse, all[..end]) == Some(n);
  }

  /** A message leaves the rest of the stream without such a block too. */
  lemma {:induction false} NoZeroSumAfter(parse: Parser, s: State, tape: seq<Read>, seen: nat)
    requires Fits(tape) && !s.drain && ReadPast(parse, s.buf, seen) && NoZeroSum(parse, Unread(s, tape))
    ensures var step := ReadStep(parse, s, tape);
            step.answer.Ok? && step.answer.value != [] && !step.state.drain ==>
              NoZeroSum(parse, Unread(step.state, step.tape))
    decreases |tape|
  {
    var verdict := Examine(parse, s.buf);
    WithinReach(parse, s.buf, seen);
    if ReadsOn(verdict, s, tape) {
      var next := ReadOn(s, tape);
      ReadFurther(parse, s.buf, seen, tape[0].data);
      NoZeroSumAfter(parse, next, tape[1..], |s.buf|);
    } else if verdict.Frame? {
      FrameLeavesTail(parse, s.buf, Coming(tape));
    }
  }

  lemma {:induction false} FitsAfter(parse: Parser, s: State, tape: seq<Read>)
    requires Fits(tape)
    ensures Fits(ReadStep(parse, s, tape).tape)
    ensures NoFailures(tape) ==> NoFailures(ReadStep(parse, s, tape).tape)
    decreases |tape|
  {
    if !s.drain && Examine(parse, s.buf).NeedMore? && tape != [] && tape[0].Data? {
      FitsAfter(parse, State(s.buf + tape[0].data, false), tape[1..]);
    }
  }

  /** A session that reports a clean end has handed out every byte of the stream, unless it
      came to a header block that announces a message of no bytes. */
  lemma {:induction false} CleanSessionIsComplete(parse: Parser, s: State, tape: seq<Read>)
    requires Fits(tape) && Buffered(s.buf)
    requires s.drain || NoZeroSum(parse, Unread(s, tape))
    ensures var r := Run(parse, s, tape);
            r.failed.None? ==> r.left == [] && Concat(r.msgs) == Unread(s, tape)
    decreases |Unread(s, tape)|
  {
    var step := ReadStep(parse, s, tape);
    ReadLosesNothing(parse, s, tape);
    if step.answer.Ok? {
      if step.answer.value == [] {
        EmptyMessageMeansEnd(parse, s, tape, 0);
      } else {
        FitsAfter(parse, s, tape);
        StaysBuffered(parse, s, tape, 0);
        if s.drain { DrainStays(parse, s, tape); } else { NoZeroSumAfter(parse, s, tape, 0); }
        CleanSessionIsComplete(parse, step.state, step.tape);
      }
    }
  }

  lemma DrainStays(parse: Parser, s: State, tape: seq<Read>)
    requires s.drain
    ensures ReadStep(parse, s, tape).state.drain
  {
  }

  // ------------------------------------------------------------ blocks that announce nothing

  /** The first header block of a stream is one that every reader accepts, and `size` is what
      it announces. */
  predicate FirstIs(parse: Parser, all: bytes, size: nat) {
    var end := FindHeaderEnd(all);
    end.Some? && end.value <= MAX_HEADER_SIZE + 1 && Announced(parse, all[..end.value]) == Some(size)
  }

  /** However the stream is cut into reads, the first call hands out what the block announces;
      as it does with a later block that has got into the buffer. */
  lemma {:induction false} FirstFrame(parse: Parser, buf: bytes, tape: seq<Read>, size: nat)
    requires NoFailures(tape) && size <= |buf + Coming(tape)|
    requires FirstIs(parse, buf + Coming(tape), size) ||
             (FindHeaderEnd(buf).Some? && Announced(parse, buf[..FindHeaderEnd(buf).value]) == Some(size))
    ensures var all, step := buf + Coming(tape), ReadStep(parse, State(buf, false), tape);
            && step.answer == Ok(all[..size]) && !step.state.drain
            && Unread(step.state, step.tape) == all[size..] && NoFailures(step.tape)
    decreases |tape|
  {
    var all := buf + Coming(tape);
    HeaderEndIsStable(buf, Coming(tape));
    var end := FindHeaderEnd(all).value;
    if FindHeaderEnd(buf).Some? {
      assert buf[..end] == all[..end];
      assert |buf| >= size ==> Examine(parse, buf) == Frame(size);
    }
    if FindHeaderEnd(buf).Some? && |buf| >= size {
      assert all[..size] == buf[..size] && all[size..] == buf[size..] + Coming(tape);
    } else {
      assert Examine(parse, buf) == NeedMore;
      assert tape != [];
      var next := buf + tape[0].data;
      assert next + Coming(tape[1..]) == all;
      HeaderEndIsStable(buf, tape[0].data);
      if FindHeaderEnd(buf).Some? { assert next[..end] == buf[..end]; }
      FirstFrame(parse, next, tape[1..], size);
    }
  }

  /** A stream in which, after messages that every reader accepts, such a block announces a
      message of no bytes. */
  predicate MeetsZeroSum(parse: Parser, all: bytes)
    decreases |all|
  {
    var end := FindHeaderEnd(all);
    end.Some? && end.value <= MAX_HEADER_SIZE + 1 &&
    var size := Announced(parse, all[..end.value]);
    size.Some? && (size.value == 0 || (size.value <= |all| && MeetsZeroSum(parse, all[size.value..])))
  }

  /** The messages up to that block, a clean end, and everything from the block on. */
  function UpToZeroSum(parse: Parser, all: bytes): (r: Session)
    requires MeetsZeroSum(parse, all)
    ensures r.failed.None? && r.left != []
    decreases |all|
  {
    var size := Announced(parse, all[..FindHeaderEnd(all).value]).value;
    if size == 0 then Session([], None, all)
    else
      var rest := UpToZeroSum(parse, all[size..]);
      rest.(msgs := [all[..size]] + rest.msgs)
  }

  /** Such a stream is reported as cleanly ended with the rest of it unread, however it is cut
      into reads. */
  lemma {:induction false} ZeroSumEndsEarly(parse: Parser, buf: bytes, tape: seq<Read>)
    requires NoFailures(tape) && MeetsZeroSum(parse, buf + Coming(tape))
    ensures Run(parse, State(buf, false), tape) == UpToZeroSum(parse, buf + Coming(tape))
    decreases |buf + Coming(tape)|
  {
    var all := buf + Coming(tape);
    var size := Announced(parse, all[..FindHeaderEnd(all).value]).value;
    FirstFrame(parse, buf, tape, size);
    var step := ReadStep(parse, State(buf, false), tape);
    if size == 0 {
      assert all[0..] == all;
    } else {
      ZeroSumEndsEarly(parse, step.state.buf, step.tape);
    }
  }

  /** No header block that the reader comes to ends where its fate depends on the reads. */
  predicate NoLateHeader(parse: Parser, all: bytes)
    decreases |all|
  {
    var end := FindHeaderEnd(all);
    end.Some? ==>
      && !(MAX_HEADER_SIZE + 1 < end.value <= MAX_HEADER_SIZE + READ_SIZE)
      && var size := Announced(parse, all[..end.value]);
      (size.Some? && 0 < size.value <= |all| ==> NoLateHeader(parse, all[size.value..]))
  }

  lemma {:induction false} MeetsOrNot(parse: Parser, all: bytes)
    requires NoLateHeader(parse, all) && !MeetsZeroSum(parse, all)
    ensures NoZeroSum(parse, all)
    decreases |all|
  {
    var end := FindHeaderEnd(all);
    if end.Some? && end.value <= MAX_HEADER_SIZE + READ_SIZE {
      var size := Announced(parse, all[..end.value]);
      if size.Some? {
        if size.value <= |all| && size.value != 0 { MeetsOrNot(parse, all[size.value..]); }
      }
    }
  }

  /** So a session ends early, cleanly and with bytes unread, if the stream meets a block that
      announces a message of no bytes; and without late headers only then. */
  lemma EndsEarlyIffZeroSum(parse: Parser, tape: seq<Read>)
    requires Fits(tape) && NoFailures(tape)
    ensures var r := Run(parse, State([], false), tape);
            && (MeetsZeroSum(parse, Coming(tape)) ==> r.failed.None? && r.left != [])
            && (NoLateHeader(parse, Coming(tape)) && r.failed.None? && r.left != [] ==>
                  MeetsZeroSum(parse, Coming(tape)))
  {
    assert Unread(State([], false), tape) == [] + Coming(tape) == Coming(tape);
    if MeetsZeroSum(parse, Coming(tape)) {
      ZeroSumEndsEarly(parse, [], tape);
    } else if NoLateHeader(parse, Coming(tape)) {
      MeetsOrNot(parse, Coming(tape));
      CleanSessionIsComplete(parse, State([], false), tape);
    }
  }

  // ------------------------------------------------------------ the whole-stream splitter

  /** Where the first message of a stream ends, and how the stream goes on if it does not. */
  datatype Cut = End | Stop(error: Error) | DrainFrom | Message(size: nat)

  function FirstCut(parse: Parser, all: bytes): (c: Cut)
    ensures c.Message? ==> 0 < c.size <= |all|
  {
    if all == [] then End
    else
      var end := FindHeaderEnd(all);
      if end.None? then Stop(if |all| > MAX_HEADER_SIZE then HeadTooLarge else Truncated)
      else if end.value > MAX_HEADER_SIZE + READ_SIZE then Stop(HeadTooLarge)
      else
        match parse(all[..end.value])
        case Malformed => Stop(BadHead)
        case Partial => Stop(Truncated)
        case Parsed(None) => DrainFrom
        case Parsed(Some(length)) =>
          if end.value + length > |all| then Stop(Truncated) else Message(end.value + length)
  }

  /** The messages of a whole stream up to its end, an error or a message without a length. */
  datatype Split = Split(msgs: seq<bytes>, last: Cut, rest: bytes)

  function SplitStream(parse: Parser, all: bytes): (s: Split)
    decreases |all|
  {
    var cut := FirstCut(parse, all);
    if cut.Message? then
      var tail := SplitStream(parse, all[cut.size..]);
      tail.(msgs := [all[..cut.size]] + tail.msgs)
    else Split([], cut, all)
  }

  /** The first header block is not one whose fate depends on how the reads fall: its blank
      line ends by MAX_HEADER_SIZE + 1, and then header and body together are short enough
      to be counted, or past the furthest that a last read can reach. */
  predicate Unambiguous(parse: Parser, all: bytes) {
    var end := FindHeaderEnd(all);
    end.Some? ==>
      && !(MAX_HEADER_SIZE + 1 < end.value <= MAX_HEADER_SIZE + READ_SIZE)
      && var head := parse(all[..end.value]);
      (end.value <= MAX_HEADER_SIZE + 1 && head.Parsed? && head.length.Some? ==>
         end.value + head.length.value < USIZE_LIMIT)
  }

  /** The same of every header block that the splitter meets. */
  predicate AllUnambiguous(parse: Parser, all: bytes)
    decreases |all|
  {
    && Unambiguous(parse, all)
    && var cut := FirstCut(parse, all);
    (cut.Message? ==> AllUnambiguous(parse, all[cut.size..]))
  }

  /** The reader holds no more than one read past a point where it still needed more. */
  predicate Recent(parse: Parser, buf: bytes, seen: nat) {
    && seen <= |buf| <= seen + READ_SIZE
    && Examine(parse, buf[..seen]) == NeedMore
    && var end := FindHeaderEnd(buf[..seen]);
    (end.Some? ==> end.value <= MAX_HEADER_SIZE + READ_SIZE)
  }

  /** One call cuts the stream where the splitter cuts it. */
  ghost predicate CutsAs(c: Cut, all: bytes, step: Step)
    requires c.Message? ==> c.size <= |all|
  {
    match c
    case End => step == Step(Ok([]), State([], false), [])
    case Stop(e) => step.answer == Err(e)
    case Message(n) =>
      && step.answer == Ok(all[..n])
      && !step.state.drain
      && |step.state.buf| <= READ_SIZE
      && Unread(step.state, step.tape) == all[n..]
    case DrainFrom =>
      && step.answer.Ok? && step.answer.value != []
      && step.state == State([], true)
      && step.answer.value + Coming(step.tape) == all
  }

  lemma VerdictAgrees(parse: Parser, buf: bytes, more: bytes, seen: nat)
    requires Recent(parse, buf, seen) && Unambiguous(parse, buf + more)
    ensures var cut := FirstCut(parse, buf + more);
            match Examine(parse, buf)
            case Bad(e) => cut == Stop(e)
            case NoLength => cut == DrainFrom
            case Frame(n) => cut == Message(n) && |buf| - n <= READ_SIZE
            case NeedMore =>
              && (var end := FindHeaderEnd(buf); end.Some? ==> end.value <= MAX_HEADER_SIZE + READ_SIZE)
              && (more == [] ==> cut == if buf == [] then End else Stop(Truncated))
  {
    var all := buf + more;
    HeaderEndIsStable(buf, more);
    HeaderEndIsStable(buf[..seen], buf[seen..]);
    assert buf[..seen] + buf[seen..] == buf;
    var end := FindHeaderEnd(buf);
    if end.Some? {
      assert all[..end.value] == buf[..end.value];
      assert end.value <= MAX_HEADER_SIZE + READ_SIZE;
      if FindHeaderEnd(buf[..seen]).Some? {
        assert buf[..seen][..end.value] == buf[..end.value];
      }
    }
    if more == [] {
      assert all == buf;
    }
  }

  /** The reader refines the splitter, one message at a time and for every cutting into
      reads. */
  lemma {:induction false} ReadRefinesCut(parse: Parser, buf: bytes, tape: seq<Read>, seen: nat)
    requires Fits(tape) && NoFailures(tape)
    requires Recent(parse, buf, seen)
    requires Unambiguous(parse, buf + Coming(tape))
    ensures var all := buf + Coming(tape);
            CutsAs(FirstCut(parse, all), all, ReadStep(parse, State(buf, false), tape))
    decreases |tape|
  {
    var all := buf + Coming(tape);
    VerdictAgrees(parse, buf, Coming(tape), seen);
    match Examine(parse, buf)
    case NeedMore =>
      if tape != [] {
        var next := buf + tape[0].data;
        assert next + Coming(tape[1..]) == all;
        assert next[..|buf|] == buf;
        ReadRefinesCut(parse, next, tape[1..], |buf|);
      }
    case Frame(n) =>
      assert all[..n] == buf[..n];
      assert all[n..] == buf[n..] + Coming(tape);
    case _ =>
  }

  /** In drain mode a session hands out the rest of the stream and ends cleanly. */
  lemma {:induction false} DrainIsIdentity(parse: Parser, tape: seq<Read>)
    requires Fits(tape) && NoFailures(tape)
    ensures var r := Run(parse, State([], true), tape);
            Concat(r.msgs) == Coming(tape) && r.failed.None? && r.left == []
    decreases |tape|
  {
    if tape != [] {
      DrainIsIdentity(parse, tape[1..]);
    }
  }

  /** A session of the reader agrees with the splitter: the same messages, the same kind of
      ending, and past a message without a length the same bytes. */
  ghost predicate Agrees(split: Split, r: Session) {
    match split.last
    case End => r == Session(split.msgs, None, [])
    case Stop(e) => r.msgs == split.msgs && r.failed == Some(e)
    case DrainFrom =>
      && r.failed.None? && r.left == []
      && split.msgs <= r.msgs
      && Concat(r.msgs[|split.msgs|..]) == split.rest
    case Message(_) => false
  }

  /** For every stream and every cutting of it into reads, the incremental reader and the
      whole-stream splitter agree. */
  lemma {:induction false} SessionRefinesSplit(parse: Parser, buf: bytes, tape: seq<Read>)
    requires Fits(tape) && NoFailures(tape) && |buf| <= READ_SIZE
    requires AllUnambiguous(parse, buf + Coming(tape))
    ensures Agrees(SplitStream(parse, buf + Coming(tape)), Run(parse, State(buf, false), tape))
    decreases |buf + Coming(tape)|
  {
    var all := buf + Coming(tape);
    var s := State(buf, false);
    var step := ReadStep(parse, s, tape);
    var cut := FirstCut(parse, all);
    ReadRefinesCut(parse, buf, tape, 0);
    FitsAfter(parse, s, tape);
    match cut
    case Message(n) =>
      SessionRefinesSplit(parse, step.state.buf, step.tape);
      ExtendAgreement(all[..n], SplitStream(parse, all[n..]), Run(parse, step.state, step.tape));
    case DrainFrom =>
      DrainIsIdentity(parse, step.tape);
      var rest := Run(parse, step.state, step.tape);
      assert Concat([step.answer.value] + rest.msgs) == step.answer.value + Concat(rest.msgs) by {
        assert ([step.answer.value] + rest.msgs)[1..] == rest.msgs;
      }
      assert Run(parse, s, tape).msgs[0..] == Run(parse, s, tape).msgs;
    case _ =>
  }

  lemma ExtendAgreement(msg: bytes, split: Split, r: Session)
    requires Agrees(split, r)
    ensures Agrees(split.(msgs := [msg] + split.msgs), r.(msgs := [msg] + r.msgs))
  {
    if split.last.DrainFrom? {
      assert ([msg] + r.msgs)[1 + |split.msgs|..] == r.msgs[|split.msgs|..];
    }
  }
}
