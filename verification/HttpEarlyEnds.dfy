/** Sessions of the HTTP reader that end cleanly with part of the stream unread: the exact
    condition on a stream for some way of cutting it into reads to lead there.

    The condition follows the reader from message to message and keeps track of how much of
    the stream it can hold when it hands a message out, since that decides whether a header
    past the size limit is refused. */
module HttpEarlyEnds {
  import opened Bytes
  import opened HttpReader
  import opened HttpSplit
  import opened HttpLimits

  /** A reader that holds `held` bytes can come to accept a header that ends at `end`. */
  predicate Accepts(end: nat, held: nat) {
    end <= held || (held <= MAX_HEADER_SIZE && end <= MAX_HEADER_SIZE + READ_SIZE)
  }

  /** A reader that holds `p` bytes of a stream whose first header ends at `end` and announces
      `size` reads on. */
  predicate ReadsOnAt(end: nat, size: nat, p: nat) {
    if p < end then p <= MAX_HEADER_SIZE else p < size
  }

  /** A reader that holds `held` bytes when it is called can hold `cur` when it hands out the
      message. */
  predicate CanHold(end: nat, size: nat, held: nat, cur: nat) {
    && held <= cur && end <= cur && size <= cur && Accepts(end, held)
    && (cur == held || exists p: nat :: held <= p < cur <= p + READ_SIZE && ReadsOnAt(end, size, p))
  }

  /** A reader that holds the first `held` bytes can be led to a header block that announces a
      message of no bytes. */
  ghost predicate CanEndEarly(parse: Parser, all: bytes, held: nat)
    decreases |all|
  {
    var end := FindHeaderEnd(all);
    end.Some? && Accepts(end.value, held) &&
    var size := Announced(parse, all[..end.value]);
    size.Some? && size.value <= |all| &&
    (size.value == 0 ||
     exists cur: nat ::
       && cur <= |all| && CanHold(end.value, size.value, held, cur)
       && CanEndEarly(parse, all[size.value..], cur - size.value))
  }

  // ------------------------------------------------------------ what a call can do

  lemma NeedsMore(parse: Parser, all: bytes, size: nat, p: nat)
    requires FindHeaderEnd(all).Some? && Announced(parse, all[..FindHeaderEnd(all).value]) == Some(size)
    requires p <= |all|
    ensures ReadsOnAt(FindHeaderEnd(all).value, size, p) <==> Examine(parse, all[..p]).NeedMore?
    ensures !ReadsOnAt(FindHeaderEnd(all).value, size, p) ==>
              Examine(parse, all[..p]) ==
              if p < FindHeaderEnd(all).value then Bad(HeadTooLarge) else Frame(size)
  {
    var end := FindHeaderEnd(all).value;
    HeaderEndIsStable(all[..p], all[p..]);
    assert all[..p] + all[p..] == all;
    if end <= p { assert all[..p][..end] == all[..end]; }
  }

  /** The reads `front` take a reader from one size of its buffer to another within a call. */
  ghost predicate Takes(parse: Parser, from: bytes, to: bytes, front: seq<Read>) {
    forall rest ::
      ReadStep(parse, State(from, false), front + rest) == ReadStep(parse, State(to, false), rest)
  }

  ghost predicate Leads(parse: Parser, all: bytes, from: nat, to: nat, front: seq<Read>) {
    from <= to <= |all| && ReadsOf(front, all[from..to]) && Takes(parse, all[..from], all[..to], front)
  }

  lemma LeadsNowhere(parse: Parser, all: bytes, at: nat)
    requires at <= |all|
    ensures Leads(parse, all, at, at, [])
  {
    forall rest: seq<Read> ensures [] + rest == rest {
    }
  }

  lemma OneReadLeads(parse: Parser, all: bytes, from: nat, to: nat)
    requires from < to <= |all| && to - from <= READ_SIZE && Examine(parse, all[..from]).NeedMore?
    ensures Leads(parse, all, from, to, [Data(all[from..to])])
  {
    var data := all[from..to];
    var front := [Data(data)];
    assert front[1..] == [] && data + [] == data;
    assert all[..from] + data == all[..to];
    forall rest ensures ReadStep(parse, State(all[..from], false), front + rest) ==
                        ReadStep(parse, State(all[..to], false), rest) {
      assert (front + rest)[1..] == rest;
    }
  }

  lemma TakesFurther(parse: Parser, x: bytes, y: bytes, w: bytes, xs: seq<Read>, ys: seq<Read>)
    requires Takes(parse, x, y, xs) && Takes(parse, y, w, ys)
    ensures Takes(parse, x, w, xs + ys)
  {
    forall rest ensures ReadStep(parse, State(x, false), (xs + ys) + rest) == ReadStep(parse, State(w, false), rest) {
      assert (xs + ys) + rest == xs + (ys + rest);
    }
  }

  lemma LeadsFurther(parse: Parser, all: bytes, from: nat, mid: nat, to: nat, xs: seq<Read>, ys: seq<Read>)
    requires Leads(parse, all, from, mid, xs) && Leads(parse, all, mid, to, ys)
    ensures Leads(parse, all, from, to, xs + ys)
  {
    JoinReads(xs, ys, all[from..mid], all[mid..to]);
    assert all[from..mid] + all[mid..to] == all[from..to];
    TakesFurther(parse, all[..from], all[..mid], all[..to], xs, ys);
  }

  /** Reads lead through sizes of the buffer that all need more. */
  lemma {:induction false} ReadUpTo(parse: Parser, all: bytes, from: nat, to: nat) returns (front: seq<Read>)
    requires from <= to <= |all| && forall q :: from <= q < to ==> Examine(parse, all[..q]).NeedMore?
    ensures Leads(parse, all, from, to, front)
    decreases |all| - from
  {
    if from == to {
      front := [];
      LeadsNowhere(parse, all, from);
    } else {
      var next := if to - from <= READ_SIZE then to else from + READ_SIZE;
      OneReadLeads(parse, all, from, next);
      var more := ReadUpTo(parse, all, next, to);
      front := [Data(all[from..next])] + more;
      LeadsFurther(parse, all, from, next, to, [Data(all[from..next])], more);
    }
  }

  lemma ReadUp(parse: Parser, all: bytes, size: nat, from: nat, to: nat) returns (front: seq<Read>)
    requires FindHeaderEnd(all).Some? && Announced(parse, all[..FindHeaderEnd(all).value]) == Some(size)
    requires from <= to <= |all| && forall q :: from <= q < to ==> ReadsOnAt(FindHeaderEnd(all).value, size, q)
    ensures Leads(parse, all, from, to, front)
  {
    forall q | from <= q < to ensures Examine(parse, all[..q]).NeedMore? {
      assert ReadsOnAt(FindHeaderEnd(all).value, size, q);
      NeedsMore(parse, all, size, q);
    }
    front := ReadUpTo(parse, all, from, to);
  }

  /** A reader can be led to any size at which it reads on, if the header can be accepted. */
  lemma LeadOn(parse: Parser, all: bytes, size: nat, held: nat, p: nat) returns (front: seq<Read>)
    requires FindHeaderEnd(all).Some? && Announced(parse, all[..FindHeaderEnd(all).value]) == Some(size)
    requires held <= p <= |all| && Accepts(FindHeaderEnd(all).value, held)
    requires ReadsOnAt(FindHeaderEnd(all).value, size, p)
    ensures Leads(parse, all, held, p, front)
  {
    var end := FindHeaderEnd(all).value;
    if held < end <= p {
      var near := if end <= MAX_HEADER_SIZE then end - 1 else MAX_HEADER_SIZE;
      var xs := ReadUp(parse, all, size, held, near);
      NeedsMore(parse, all, size, near);
      OneReadLeads(parse, all, near, end);
      LeadsFurther(parse, all, held, near, end, xs, [Data(all[near..end])]);
      var ys := ReadUp(parse, all, size, end, p);
      front := (xs + [Data(all[near..end])]) + ys;
      LeadsFurther(parse, all, held, end, p, xs + [Data(all[near..end])], ys);
    } else {
      front := ReadUp(parse, all, size, held, p);
    }
  }

  lemma HandsOut(parse: Parser, all: bytes, size: nat, cur: nat, rest: seq<Read>)
    requires FindHeaderEnd(all).Some? && Announced(parse, all[..FindHeaderEnd(all).value]) == Some(size)
    requires FindHeaderEnd(all).value <= cur <= |all| && size <= cur
    ensures ReadStep(parse, State(all[..cur], false), rest) ==
            Step(Ok(all[..size]), State(all[size..cur], false), rest)
  {
    NeedsMore(parse, all, size, cur);
    assert all[..cur][..size] == all[..size] && all[..cur][size..] == all[size..cur];
  }

  /** Whatever a reader can hold when it hands out the message, some reads make it do so. */
  lemma LeadTo(parse: Parser, all: bytes, size: nat, held: nat, cur: nat) returns (front: seq<Read>)
    requires FindHeaderEnd(all).Some? && Announced(parse, all[..FindHeaderEnd(all).value]) == Some(size)
    requires cur <= |all| && CanHold(FindHeaderEnd(all).value, size, held, cur)
    ensures Leads(parse, all, held, cur, front)
  {
    var end := FindHeaderEnd(all).value;
    if cur == held {
      front := [];
      LeadsNowhere(parse, all, held);
    } else {
      var p: nat :| held <= p < cur <= p + READ_SIZE && ReadsOnAt(end, size, p);
      var before := LeadOn(parse, all, size, held, p);
      NeedsMore(parse, all, size, p);
      OneReadLeads(parse, all, p, cur);
      front := before + [Data(all[p..cur])];
      LeadsFurther(parse, all, held, p, cur, before, [Data(all[p..cur])]);
    }
  }

  // ------------------------------------------------------------ every stream that can

  lemma ZeroIsHeld(end: nat, held: nat) returns (cur: nat)
    requires Accepts(end, held) && end > 0
    ensures CanHold(end, 0, held, cur) && (cur == held || cur == end)
  {
    if end <= held {
      cur := held;
    } else {
      cur := end;
      var p := if end <= MAX_HEADER_SIZE then end - 1 else MAX_HEADER_SIZE;
      assert held <= p < cur <= p + READ_SIZE && ReadsOnAt(end, 0, p);
    }
  }

  lemma {:induction false} EarlyTape(parse: Parser, all: bytes, held: nat) returns (tape: seq<Read>)
    requires CanEndEarly(parse, all, held) && held <= |all|
    ensures ReadsOf(tape, all[held..])
    ensures var r := Run(parse, State(all[..held], false), tape); r.failed.None? && r.left != []
    decreases |all|
  {
    var end := FindHeaderEnd(all).value;
    var size := Announced(parse, all[..end]).value;
    if size == 0 {
      var cur := ZeroIsHeld(end, held);
      PiecesAreReads(all[cur..]);
      tape := Continue(parse, all, 0, held, cur, Pieces(all[cur..]));
    } else {
      var cur: nat :| cur <= |all| && CanHold(end, size, held, cur) && CanEndEarly(parse, all[size..], cur - size);
      var rest := EarlyTape(parse, all[size..], cur - size);
      assert all[size..][cur - size..] == all[cur..] && all[size..][..cur - size] == all[size..cur];
      tape := Continue(parse, all, size, held, cur, rest);
    }
  }

  /** A call that hands out the message, followed by whatever `rest` leads to. */
  lemma Continue(parse: Parser, all: bytes, size: nat, held: nat, cur: nat, rest: seq<Read>) returns (tape: seq<Read>)
    requires FindHeaderEnd(all).Some? && Announced(parse, all[..FindHeaderEnd(all).value]) == Some(size)
    requires cur <= |all| && CanHold(FindHeaderEnd(all).value, size, held, cur) && ReadsOf(rest, all[cur..])
    ensures ReadsOf(tape, all[held..])
    ensures var r, s := Run(parse, State(all[..held], false), tape), State(all[size..cur], false);
            if size == 0 then r == Session([], None, all)
            else r == Run(parse, s, rest).(msgs := [all[..size]] + Run(parse, s, rest).msgs)
  {
    var front := LeadTo(parse, all, size, held, cur);
    tape := front + rest;
    JoinReads(front, rest, all[held..cur], all[cur..]);
    assert all[held..cur] + all[cur..] == all[held..];
    HandsOut(parse, all, size, cur, rest);
    assert ReadStep(parse, State(all[..held], false), tape) ==
           Step(Ok(all[..size]), State(all[size..cur], false), rest);
    RunFrom(parse, State(all[..held], false), tape, all[..size], State(all[size..cur], false), rest);
    if size == 0 { assert all[0..cur] + all[cur..] == all; }
  }

  lemma RunFrom(parse: Parser, s: State, tape: seq<Read>, msg: bytes, t: State, rest: seq<Read>)
    requires ReadStep(parse, s, tape) == Step(Ok(msg), t, rest)
    ensures var r := Run(parse, t, rest);
            Run(parse, s, tape) == if msg == [] then Session([], None, Unread(t, rest)) else r.(msgs := [msg] + r.msgs)
  {
    ReadLosesNothing(parse, s, tape);
  }

  // ------------------------------------------------------------ and no other

  /** A call on a reader that held `held` bytes handed out the message at a time when the
      reader held `cur`. */
  ghost predicate HandedAt(parse: Parser, all: bytes, held: nat, step: Step, cur: nat) {
    var end := FindHeaderEnd(all);
    end.Some? &&
    var size := Announced(parse, all[..end.value]);
    && size.Some? && cur <= |all| && CanHold(end.value, size.value, held, cur)
    && step.answer == Ok(all[..size.value]) && step.state == State(all[size.value..cur], false)
    && Coming(step.tape) == all[cur..]
  }

  /** Within a call that began with `held` bytes the reader has come to hold `c`. */
  ghost predicate CameTo(parse: Parser, all: bytes, held: nat, c: nat) {
    && held <= c <= |all|
    && (c == held || exists p: nat :: held <= p < c <= p + READ_SIZE && Examine(parse, all[..p]).NeedMore?)
    && (FindHeaderEnd(all).Some? && FindHeaderEnd(all).value <= c ==> Accepts(FindHeaderEnd(all).value, held))
  }

  lemma ComesFurther(parse: Parser, all: bytes, held: nat, c: nat, next: nat)
    requires CameTo(parse, all, held, c) && c < next <= |all| && next <= c + READ_SIZE
    requires Examine(parse, all[..c]).NeedMore?
    ensures CameTo(parse, all, held, next)
  {
    HeaderEndIsStable(all[..c], all[c..]);
    assert all[..c] + all[c..] == all;
  }

  lemma FrameIsHanded(parse: Parser, all: bytes, held: nat, c: nat, tape: seq<Read>)
    requires CameTo(parse, all, held, c) && Coming(tape) == all[c..] && Examine(parse, all[..c]).Frame?
    ensures HandedAt(parse, all, held, ReadStep(parse, State(all[..c], false), tape), c)
  {
    var size, end := Examine(parse, all[..c]).size, FindHeaderEnd(all[..c]).value;
    HeaderEndIsStable(all[..c], all[c..]);
    assert all[..c] + all[c..] == all;
    assert all[..c][..end] == all[..end];
    HandsOut(parse, all, size, c, tape);
    if c != held {
      var p: nat :| held <= p < c <= p + READ_SIZE && Examine(parse, all[..p]).NeedMore?;
      NeedsMore(parse, all, size, p);
    }
  }

  /** A call that answers and does not begin to drain handed out a message like that, or came
      to the end of the stream with nothing left. */
  lemma {:induction false} CallShape(parse: Parser, all: bytes, held: nat, c: nat, tape: seq<Read>) returns (cur: nat)
    requires Fits(tape) && NoFailures(tape) && CameTo(parse, all, held, c) && Coming(tape) == all[c..]
    ensures var step := ReadStep(parse, State(all[..c], false), tape);
            step.answer.Ok? && !step.state.drain ==>
              (step.answer.value == [] && Unread(step.state, step.tape) == []) || HandedAt(parse, all, held, step, cur)
    decreases |tape|
  {
    cur := c;
    var verdict, s := Examine(parse, all[..c]), State(all[..c], false);
    if ReadsOn(verdict, s, tape) {
      var next := c + |tape[0].data|;
      assert all[c..][..|tape[0].data|] == tape[0].data && all[c..][|tape[0].data|..] == all[next..];
      assert all[..c] + tape[0].data == all[..next];
      ComesFurther(parse, all, held, c, next);
      cur := CallShape(parse, all, held, next, tape[1..]);
    } else if verdict.Frame? {
      FrameIsHanded(parse, all, held, c, tape);
    }
  }

  /** A session that drains is complete. */
  lemma DrainedIsComplete(parse: Parser, s: State, tape: seq<Read>)
    requires Fits(tape) && NoFailures(tape) && !s.drain && ReadStep(parse, s, tape).state.drain
    requires ReadStep(parse, s, tape).answer.Ok?
    ensures Run(parse, s, tape).left == []
  {
    var step := ReadStep(parse, s, tape);
    DrainMeansEmpty(parse, s, tape);
    DrainedNotEmpty(parse, s, tape);
    FitsAfter(parse, s, tape);
    DrainIsIdentity(parse, step.tape);
  }

  lemma {:induction false} DrainedNotEmpty(parse: Parser, s: State, tape: seq<Read>)
    requires !s.drain && ReadStep(parse, s, tape).state.drain
    ensures ReadStep(parse, s, tape).answer.Ok? && ReadStep(parse, s, tape).answer.value != []
    decreases |tape|
  {
    if ReadsOn(Examine(parse, s.buf), s, tape) {
      DrainedNotEmpty(parse, State(s.buf + tape[0].data, false), tape[1..]);
    }
  }

  lemma CanStep(parse: Parser, all: bytes, held: nat, size: nat, cur: nat)
    requires FindHeaderEnd(all).Some? && Announced(parse, all[..FindHeaderEnd(all).value]) == Some(size)
    requires cur <= |all| && CanHold(FindHeaderEnd(all).value, size, held, cur)
    requires size == 0 || CanEndEarly(parse, all[size..], cur - size)
    ensures CanEndEarly(parse, all, held)
  {
  }

  ghost predicate EndsEarly(parse: Parser, s: State, tape: seq<Read>) {
    Run(parse, s, tape).failed.None? && Run(parse, s, tape).left != []
  }

  lemma EarlyAfter(parse: Parser, s: State, tape: seq<Read>, msg: bytes, t: State, rest: seq<Read>)
    requires EndsEarly(parse, s, tape) && ReadStep(parse, s, tape) == Step(Ok(msg), t, rest) && msg != []
    ensures EndsEarly(parse, t, rest)
  {
    RunFrom(parse, s, tape, msg, t, rest);
  }

  lemma {:induction false} EarlyMeansCan(parse: Parser, all: bytes, held: nat, tape: seq<Read>)
    requires Fits(tape) && NoFailures(tape) && held <= |all| && Coming(tape) == all[held..]
    requires EndsEarly(parse, State(all[..held], false), tape)
    ensures CanEndEarly(parse, all, held)
    decreases |all|
  {
    var s := State(all[..held], false);
    var step := ReadStep(parse, s, tape);
    if step.state.drain {
      DrainedIsComplete(parse, s, tape);
    } else {
      var cur := CallShape(parse, all, held, held, tape);
      var size := Announced(parse, all[..FindHeaderEnd(all).value]).value;
      if size != 0 {
        FitsAfter(parse, s, tape);
        EarlyAfter(parse, s, tape, all[..size], step.state, step.tape);
        assert all[size..][..cur - size] == all[size..cur] && all[size..][cur - size..] == all[cur..];
        EarlyMeansCan(parse, all[size..], cur - size, step.tape);
      }
      CanStep(parse, all, held, size, cur);
    }
  }

  /** However a stream is cut into reads, a clean end means a complete session. */
  ghost predicate AlwaysComplete(parse: Parser, all: bytes) {
    forall tape ::
      ReadsOf(tape, all) && Run(parse, State([], false), tape).failed.None? ==>
        Run(parse, State([], false), tape).left == []
  }

  /** So it does if and only if no reader can be led to a header block that announces a message
      of no bytes. */
  lemma CompleteIffCannotEndEarly(parse: Parser, all: bytes)
    ensures AlwaysComplete(parse, all) <==> !CanEndEarly(parse, all, 0)
  {
    assert all[..0] == [] && all[0..] == all;
    if CanEndEarly(parse, all, 0) {
      var tape := EarlyTape(parse, all, 0);
    } else {
      forall tape | ReadsOf(tape, all) && Run(parse, State([], false), tape).failed.None?
        ensures Run(parse, State([], false), tape).left == []
      {
        if Run(parse, State([], false), tape).left != [] { EarlyMeansCan(parse, all, 0, tape); }
      }
    }
  }
}
