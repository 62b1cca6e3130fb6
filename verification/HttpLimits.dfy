/** Where the incremental reader and the whole-stream splitter part: the exact condition under
    which they agree on a stream however it is cut into reads. */
module HttpLimits {
  import opened Bytes
  import opened HttpReader
  import opened HttpSplit

  /** `all` as full reads. */
  function Pieces(all: bytes): (tape: seq<Read>) {
    if all == [] then []
    else if |all| <= READ_SIZE then [Data(all)]
    else [Data(all[..READ_SIZE])] + Pieces(all[READ_SIZE..])
  }

  lemma {:induction false} PiecesAreReads(all: bytes)
    ensures Fits(Pieces(all)) && NoFailures(Pieces(all)) && Coming(Pieces(all)) == all
  {
    if |all| > READ_SIZE {
      PiecesAreReads(all[READ_SIZE..]);
      assert all == all[..READ_SIZE] + all[READ_SIZE..];
    } else if all != [] {
      assert Pieces(all)[1..] == [];
    }
  }

  lemma {:induction false} ComingAppend(xs: seq<Read>, ys: seq<Read>)
    ensures Coming(xs + ys) == Coming(xs) + Coming(ys)
  {
    if xs == [] {
      assert xs + ys == ys;
    } else {
      assert (xs + ys)[1..] == xs[1..] + ys;
      ComingAppend(xs[1..], ys);
    }
  }

  /** While no header end is in sight and the limit is not passed, reads just pile up. */
  lemma {:induction false} ReadsPileUp(parse: Parser, buf: bytes, xs: seq<Read>, ys: seq<Read>)
    requires NoFailures(xs)
    requires FindHeaderEnd(buf + Coming(xs)).None? && |buf + Coming(xs)| <= MAX_HEADER_SIZE
    ensures ReadStep(parse, State(buf, false), xs + ys) ==
            ReadStep(parse, State(buf + Coming(xs), false), ys)
    decreases |xs|
  {
    if xs == [] {
      assert xs + ys == ys && buf + Coming(xs) == buf;
    } else {
      HeaderEndIsStable(buf, Coming(xs));
      assert Examine(parse, buf) == NeedMore;
      var next := buf + xs[0].data;
      assert next + Coming(xs[1..]) == buf + Coming(xs);
      assert (xs + ys)[1..] == xs[1..] + ys;
      ReadsPileUp(parse, next, xs[1..], ys);
    }
  }

  /** Once a header end is buffered the header is no longer too large. */
  lemma {:induction false} FoundHeaderIsNotTooLarge(parse: Parser, buf: bytes, tape: seq<Read>)
    requires FindHeaderEnd(buf).Some?
    ensures ReadStep(parse, State(buf, false), tape).answer != Err(HeadTooLarge)
    decreases |tape|
  {
    if Examine(parse, buf).NeedMore? && tape != [] && tape[0].Data? {
      HeaderEndIsStable(buf, tape[0].data);
      FoundHeaderIsNotTooLarge(parse, buf + tape[0].data, tape[1..]);
    }
  }

  ghost predicate ReadsOf(tape: seq<Read>, all: bytes) {
    Fits(tape) && NoFailures(tape) && Coming(tape) == all
  }

  lemma JoinReads(xs: seq<Read>, ys: seq<Read>, x: bytes, y: bytes)
    requires ReadsOf(xs, x) && ReadsOf(ys, y)
    ensures ReadsOf(xs + ys, x + y)
  {
    ComingAppend(xs, ys);
  }

  lemma EarlyOutcome(parse: Parser, all: bytes)
    requires FindHeaderEnd(all).Some? && MAX_HEADER_SIZE + 1 < FindHeaderEnd(all).value
    ensures ReadsOf(CutTape(all, MAX_HEADER_SIZE + 1), all)
    ensures Run(parse, State([], false), CutTape(all, MAX_HEADER_SIZE + 1)) ==
            Session([], Some(HeadTooLarge), all)
  {
    var n := MAX_HEADER_SIZE + 1;
    CutTapeReads(parse, all, n);
    NoHeaderBefore(all, n);
    assert Examine(parse, all[..n]) == Bad(HeadTooLarge);
    ReadLosesNothing(parse, State([], false), CutTape(all, n));
    assert Unread(State([], false), CutTape(all, n)) == all;
  }

  lemma LateOutcome(parse: Parser, all: bytes, end: nat)
    requires FindHeaderEnd(all) == Some(end) && MAX_HEADER_SIZE + 1 < end <= MAX_HEADER_SIZE + READ_SIZE
    ensures ReadsOf(CutTape(all, end), all)
    ensures var r := Run(parse, State([], false), CutTape(all, end));
            r.failed != Some(HeadTooLarge) || r.msgs != []
  {
    CutTapeReads(parse, all, end);
    HeaderEndIsStable(all[..end], all[end..]);
    assert all[..end] + all[end..] == all;
    FoundHeaderIsNotTooLarge(parse, all[..end], Pieces(all[end..]));
  }

  /** `all` with reads that end right at the limit, then one read up to `n`. */
  function CutTape(all: bytes, n: nat): (tape: seq<Read>)
    requires MAX_HEADER_SIZE < n <= MAX_HEADER_SIZE + READ_SIZE && n <= |all|
  {
    Pieces(all[..MAX_HEADER_SIZE]) + ([Data(all[MAX_HEADER_SIZE..n])] + Pieces(all[n..]))
  }

  lemma CutTapeReads(parse: Parser, all: bytes, n: nat)
    requires MAX_HEADER_SIZE < n <= MAX_HEADER_SIZE + READ_SIZE && n <= |all|
    requires FindHeaderEnd(all).Some? && MAX_HEADER_SIZE + 1 < FindHeaderEnd(all).value
    ensures ReadsOf(CutTape(all, n), all)
    ensures ReadStep(parse, State([], false), CutTape(all, n)) ==
            ReadStep(parse, State(all[..n], false), Pieces(all[n..]))
  {
    var full, next := Pieces(all[..MAX_HEADER_SIZE]), [Data(all[MAX_HEADER_SIZE..n])] + Pieces(all[n..]);
    CutAt(all, full, n);
    PiecesAreReads(all[..MAX_HEADER_SIZE]);
    NoHeaderBefore(all, MAX_HEADER_SIZE);
    assert [] + Coming(full) == all[..MAX_HEADER_SIZE];
    ReadsPileUp(parse, [], full, next);
    OneMoreRead(parse, all, n);
  }

  lemma OneRead(data: bytes)
    requires 0 < |data| <= READ_SIZE
    ensures ReadsOf([Data(data)], data)
  {
    assert [Data(data)][1..] == [] && data + [] == data;
  }

  lemma CutAt(all: bytes, full: seq<Read>, n: nat)
    requires MAX_HEADER_SIZE < n <= MAX_HEADER_SIZE + READ_SIZE && n <= |all|
    requires full == Pieces(all[..MAX_HEADER_SIZE])
    ensures ReadsOf(full + ([Data(all[MAX_HEADER_SIZE..n])] + Pieces(all[n..])), all)
  {
    var mid, tail := all[MAX_HEADER_SIZE..n], all[n..];
    PiecesAreReads(all[..MAX_HEADER_SIZE]);
    PiecesAreReads(tail);
    OneRead(mid);
    JoinReads([Data(mid)], Pieces(tail), mid, tail);
    JoinReads(full, [Data(mid)] + Pieces(tail), all[..MAX_HEADER_SIZE], mid + tail);
    assert all == all[..MAX_HEADER_SIZE] + (mid + tail);
  }

  lemma NoHeaderBefore(all: bytes, n: nat)
    requires n <= |all| && FindHeaderEnd(all).Some? && n < FindHeaderEnd(all).value
    ensures FindHeaderEnd(all[..n]).None?
  {
    HeaderEndIsStable(all[..n], all[n..]);
    assert all[..n] + all[n..] == all;
  }

  lemma OneMoreRead(parse: Parser, all: bytes, n: nat)
    requires MAX_HEADER_SIZE < n <= MAX_HEADER_SIZE + READ_SIZE && n <= |all|
    requires FindHeaderEnd(all[..MAX_HEADER_SIZE]).None?
    ensures ReadStep(parse, State(all[..MAX_HEADER_SIZE], false),
                     [Data(all[MAX_HEADER_SIZE..n])] + Pieces(all[n..])) ==
            ReadStep(parse, State(all[..n], false), Pieces(all[n..]))
  {
    assert all[..MAX_HEADER_SIZE] + all[MAX_HEADER_SIZE..n] == all[..n];
    assert ([Data(all[MAX_HEADER_SIZE..n])] + Pieces(all[n..]))[1..] == Pieces(all[n..]);
    assert |all[..MAX_HEADER_SIZE]| == MAX_HEADER_SIZE;
  }

  // ------------------------------------------------------------ up to a message boundary

  /** A call that hands out a message does not look at the reads after the last it needs. */
  lemma {:induction false} StopsInTime(parse: Parser, s: State, xs: seq<Read>, ys: seq<Read>)
    requires var step := ReadStep(parse, s, xs); !s.drain && step.answer.Ok? && step.answer.value != []
    ensures var step := ReadStep(parse, s, xs); ReadStep(parse, s, xs + ys) == step.(tape := step.tape + ys)
    decreases |xs|
  {
    if ReadsOn(Examine(parse, s.buf), s, xs) {
      assert (xs + ys)[1..] == xs[1..] + ys;
      StopsInTime(parse, State(s.buf + xs[0].data, false), xs[1..], ys);
    } else if xs == [] {
      assert xs + ys == ys;
    }
  }

  lemma {:induction false} NothingComing(tape: seq<Read>)
    requires Fits(tape) && NoFailures(tape) && Coming(tape) == []
    ensures tape == []
  {
  }

  /** A stream whose first message has `n` bytes, by a header that every reader accepts and
      whose sum does not wrap. */
  predicate Opens(parse: Parser, all: bytes, n: nat) {
    var end := FindHeaderEnd(all);
    && end.Some? && end.value <= MAX_HEADER_SIZE + 1 && n <= |all|
    && var head := parse(all[..end.value]);
    head.Parsed? && head.length.Some? && end.value + head.length.value == n < USIZE_LIMIT
  }

  lemma OpensPart(parse: Parser, all: bytes, n: nat)
    requires Opens(parse, all, n)
    ensures FindHeaderEnd(all[..n]) == FindHeaderEnd(all) && 0 < n
    ensures Announced(parse, all[..n][..FindHeaderEnd(all).value]) == Some(n)
  {
    var end := FindHeaderEnd(all).value;
    HeaderEndIsStable(all[..n], all[n..]);
    assert all[..n] + all[n..] == all;
    assert all[..n][..end] == all[..end];
  }

  lemma FrontIsRead(parse: Parser, all: bytes, n: nat)
    requires Opens(parse, all, n)
    ensures ReadsOf(Pieces(all[..n]), all[..n])
    ensures all[..n] != []
    ensures ReadStep(parse, State([], false), Pieces(all[..n])) == Step(Ok(all[..n]), State([], false), [])
  {
    var part := all[..n];
    OpensPart(parse, all, n);
    PiecesAreReads(part);
    assert [] + Coming(Pieces(part)) == part;
    FirstFrame(parse, [], Pieces(part), n);
    assert part[..n] == part && part[n..] == [];
    FitsAfter(parse, State([], false), Pieces(part));
    NothingComing(ReadStep(parse, State([], false), Pieces(part)).tape);
  }

  /** Whatever the reads of the rest of the stream lead to, some reads of the whole stream lead
      to after the first message. */
  lemma Prefixed(parse: Parser, all: bytes, n: nat, rest: seq<Read>)
    requires Opens(parse, all, n) && ReadsOf(rest, all[n..])
    ensures var tape := Pieces(all[..n]) + rest;
            && ReadsOf(tape, all)
            && var r := Run(parse, State([], false), rest);
            Run(parse, State([], false), tape) == r.(msgs := [all[..n]] + r.msgs)
  {
    var front := Pieces(all[..n]);
    FrontIsRead(parse, all, n);
    JoinReads(front, rest, all[..n], all[n..]);
    assert all[..n] + all[n..] == all;
    PrefixedRun(parse, all[..n], front, rest);
  }

  lemma PrefixedRun(parse: Parser, msg: bytes, front: seq<Read>, rest: seq<Read>)
    requires msg != [] && ReadStep(parse, State([], false), front) == Step(Ok(msg), State([], false), [])
    ensures var r := Run(parse, State([], false), rest);
            Run(parse, State([], false), front + rest) == r.(msgs := [msg] + r.msgs)
  {
    StopsInTime(parse, State([], false), front, rest);
    assert [] + rest == rest;
  }

  /** A stream that comes, after messages that every reader accepts, to a header block that
      ends in the last read past the limit. */
  predicate MeetsLate(parse: Parser, all: bytes)
    decreases |all|
  {
    var end, cut := FindHeaderEnd(all), FirstCut(parse, all);
    end.Some? &&
    (MAX_HEADER_SIZE + 1 < end.value <= MAX_HEADER_SIZE + READ_SIZE ||
     (cut.Message? && cut.size < USIZE_LIMIT && MeetsLate(parse, all[cut.size..])))
  }

  /** Such a block really is ambiguous: whatever the parser says of it, two ways of cutting the
      same bytes into reads end differently. */
  lemma {:induction false} LateHeaderIsAmbiguous(parse: Parser, all: bytes) returns (early: seq<Read>, late: seq<Read>)
    requires MeetsLate(parse, all)
    ensures ReadsOf(early, all) && ReadsOf(late, all)
    ensures Run(parse, State([], false), early) != Run(parse, State([], false), late)
    ensures Run(parse, State([], false), early).failed == Some(HeadTooLarge)
    decreases |all|
  {
    var end := FindHeaderEnd(all).value;
    if MAX_HEADER_SIZE + 1 < end <= MAX_HEADER_SIZE + READ_SIZE {
      early, late := CutTape(all, MAX_HEADER_SIZE + 1), CutTape(all, end);
      EarlyOutcome(parse, all);
      LateOutcome(parse, all, end);
    } else {
      var n := FirstCut(parse, all).size;
      var e, l := LateHeaderIsAmbiguous(parse, all[n..]);
      Prefixed(parse, all, n, e);
      Prefixed(parse, all, n, l);
      early, late := Pieces(all[..n]) + e, Pieces(all[..n]) + l;
      var re, rl := Run(parse, State([], false), e), Run(parse, State([], false), l);
      assert ([all[..n]] + re.msgs)[1..] == re.msgs && ([all[..n]] + rl.msgs)[1..] == rl.msgs;
    }
  }

  // ------------------------------------------------------------ the exact condition

  lemma ShrinkAgreement(msg: bytes, split: Split, r: Session)
    requires Agrees(split.(msgs := [msg] + split.msgs), r.(msgs := [msg] + r.msgs))
    ensures Agrees(split, r)
  {
    assert ([msg] + split.msgs)[1..] == split.msgs && ([msg] + r.msgs)[1..] == r.msgs;
    if split.last.DrainFrom? {
      assert ([msg] + r.msgs)[1 + |split.msgs|..] == r.msgs[|split.msgs|..];
    }
  }

  /** A header block that ends late: reads that stop one byte past the limit are refused. */
  lemma LateDisagrees(parse: Parser, all: bytes) returns (tape: seq<Read>)
    requires FindHeaderEnd(all).Some?
    requires MAX_HEADER_SIZE + 1 < FindHeaderEnd(all).value <= MAX_HEADER_SIZE + READ_SIZE
    ensures ReadsOf(tape, all) && !Agrees(SplitStream(parse, all), Run(parse, State([], false), tape))
  {
    tape := CutTape(all, MAX_HEADER_SIZE + 1);
    EarlyOutcome(parse, all);
  }

  lemma WrapSplit(parse: Parser, all: bytes, length: usize)
    requires FindHeaderEnd(all).Some? && parse(all[..FindHeaderEnd(all).value]) == Parsed(Some(length))
    ensures FirstCut(parse, all).Message? ==>
              SplitStream(parse, all).msgs != [] &&
              SplitStream(parse, all).msgs[0] == all[..FindHeaderEnd(all).value + length]
  {
  }

  /** A sum that wraps: the reader hands out part of the header, or nothing at all. */
  lemma WrapRead(parse: Parser, all: bytes, tape: seq<Read>, size: nat)
    requires NoFailures(tape) && Coming(tape) == all && size <= |all| && FirstIs(parse, all, size)
    ensures var r := Run(parse, State([], false), tape);
            if size == 0 then r.msgs == [] && r.failed.None? else r.msgs != [] && r.msgs[0] == all[..size]
  {
    assert [] + Coming(tape) == all;
    FirstFrame(parse, [], tape, size);
  }

  /** The splitter hands out more than that or refuses. */
  lemma WrapDisagrees(parse: Parser, all: bytes, length: usize) returns (tape: seq<Read>)
    requires FindHeaderEnd(all).Some? && FindHeaderEnd(all).value <= MAX_HEADER_SIZE + 1
    requires parse(all[..FindHeaderEnd(all).value]) == Parsed(Some(length))
    requires FindHeaderEnd(all).value + length >= USIZE_LIMIT
    ensures ReadsOf(tape, all) && !Agrees(SplitStream(parse, all), Run(parse, State([], false), tape))
  {
    tape := Pieces(all);
    var end := FindHeaderEnd(all).value;
    var size := end + length - USIZE_LIMIT;
    assert (end + length) % USIZE_LIMIT == size;
    PiecesAreReads(all);
    WrapRead(parse, all, tape, size);
    WrapSplit(parse, all, length);
  }

  lemma {:induction false} AmbiguousDisagrees(parse: Parser, all: bytes) returns (tape: seq<Read>)
    requires !AllUnambiguous(parse, all)
    ensures ReadsOf(tape, all) && !Agrees(SplitStream(parse, all), Run(parse, State([], false), tape))
    decreases |all|
  {
    var end := FindHeaderEnd(all);
    if Unambiguous(parse, all) {
      var n := FirstCut(parse, all).size;
      var rest := AmbiguousDisagrees(parse, all[n..]);
      Prefixed(parse, all, n, rest);
      tape := Pieces(all[..n]) + rest;
      if Agrees(SplitStream(parse, all), Run(parse, State([], false), tape)) {
        ShrinkAgreement(all[..n], SplitStream(parse, all[n..]), Run(parse, State([], false), rest));
      }
    } else if end.value <= MAX_HEADER_SIZE + 1 {
      tape := WrapDisagrees(parse, all, parse(all[..end.value]).length.value);
    } else {
      tape := LateDisagrees(parse, all);
    }
  }

  /** The reader and the splitter agree on a stream, however it is cut into reads, if and only
      if no header block that the splitter meets ends late or announces more than can be
      counted. */
  lemma AgreeIffUnambiguous(parse: Parser, all: bytes)
    ensures (forall tape :: ReadsOf(tape, all) ==> Agrees(SplitStream(parse, all), Run(parse, State([], false), tape)))
            <==> AllUnambiguous(parse, all)
  {
    if AllUnambiguous(parse, all) {
      forall tape | ReadsOf(tape, all) ensures Agrees(SplitStream(parse, all), Run(parse, State([], false), tape)) {
        assert [] + Coming(tape) == all;
        SessionRefinesSplit(parse, [], tape);
      }
    } else {
      var tape := AmbiguousDisagrees(parse, all);
    }
  }
}
