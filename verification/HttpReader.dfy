/** The incremental HTTP message reader.

    `httparse` is a parameter: a function from a header block, up to and including its blank
    line, to the outcome the reader acts on. */
module HttpReader {
  import opened Bytes

  const MAX_HEADER_SIZE: nat := 65536

  /** The largest number of bytes one read can return. */
  const READ_SIZE: nat := 8192

  /** One more than `usize::MAX`; an addition past it wraps in a release build. */
  const USIZE_LIMIT: nat := 0x1_0000_0000_0000_0000

  type usize = n: nat | n < 0x1_0000_0000_0000_0000

  /** The outcome of parsing a header block: undecided, not HTTP/1.x, or HTTP/1.x with the
      value of its first Content-Length header when that is a `usize`. */
  datatype Head = Partial | Malformed | Parsed(length: Option<usize>)

  type Parser = bytes -> Head

  datatype Error = BadHead | HeadTooLarge | Truncated | ReadFailed

  /** One answer of the underlying stream; when none is left the stream has ended. */
  datatype Read = Data(data: bytes) | Failure

  const BLANK_LINE: bytes := [13, 10, 13, 10]

  predicate BlankLineAt(buf: bytes, i: int) {
    0 <= i && i + 4 <= |buf| && buf[i..i + 4] == BLANK_LINE
  }

  /** The position right after the first blank line at or after `from`. */
  function HeaderEndFrom(buf: bytes, from: nat): (end: Option<nat>)
    requires from <= |buf|
    ensures end.Some? ==> from + 4 <= end.value <= |buf|
    decreases |buf| - from
  {
    if from + 4 > |buf| then None
    else if BlankLineAt(buf, from) then Some(from + 4)
    else HeaderEndFrom(buf, from + 1)
  }

  function FindHeaderEnd(buf: bytes): (end: Option<nat>)
    ensures end.Some? ==> 4 <= end.value <= |buf|
  {
    HeaderEndFrom(buf, 0)
  }

  /** Carriage return and line feed, twice. */
  predicate EmptyLineAt(buf: bytes, i: int) {
    0 <= i && i + 4 <= |buf| && buf[i] == buf[i + 2] == 13 && buf[i + 1] == buf[i + 3] == 10
  }

  /** `end` is the position right after the first empty line of `buf`, if there is one. */
  ghost predicate EndsHeader(buf: bytes, from: nat, end: Option<nat>) {
    match end
    case Some(e) => EmptyLineAt(buf, e - 4) && forall i :: from <= i < e - 4 ==> !EmptyLineAt(buf, i)
    case None => forall i :: from <= i ==> !EmptyLineAt(buf, i)
  }

  lemma BlankMeansEmpty(buf: bytes, i: int)
    ensures BlankLineAt(buf, i) <==> EmptyLineAt(buf, i)
  {
    if 0 <= i && i + 4 <= |buf| {
      var line := buf[i..i + 4];
      assert line[0] == buf[i] && line[1] == buf[i + 1] && line[2] == buf[i + 2] && line[3] == buf[i + 3];
    }
  }

  lemma {:induction false} HeaderEndIsFirst(buf: bytes, from: nat)
    requires from <= |buf|
    ensures EndsHeader(buf, from, HeaderEndFrom(buf, from))
    decreases |buf| - from
  {
    BlankMeansEmpty(buf, from);
    if from + 4 <= |buf| && !BlankLineAt(buf, from) {
      HeaderEndIsFirst(buf, from + 1);
    }
  }

  /** More bytes never move a header end that was found, and one that was not found can
      only lie past the bytes seen so far. */
  lemma HeaderEndIsStable(buf: bytes, more: bytes)
    ensures FindHeaderEnd(buf).Some? ==> FindHeaderEnd(buf + more) == FindHeaderEnd(buf)
    ensures FindHeaderEnd(buf).None? && FindHeaderEnd(buf + more).Some? ==>
              FindHeaderEnd(buf + more).value > |buf|
  {
    var all := buf + more;
    HeaderEndIsFirst(buf, 0);
    HeaderEndIsFirst(all, 0);
    forall i | 0 <= i && i + 4 <= |buf| ensures EmptyLineAt(all, i) == EmptyLineAt(buf, i) {
    }
    var shorter, longer := FindHeaderEnd(buf), FindHeaderEnd(all);
    if shorter.Some? {
      assert EmptyLineAt(all, shorter.value - 4);
    }
  }

  /** What the reader makes of the bytes it has buffered. */
  datatype Verdict = NeedMore | Frame(size: nat) | NoLength | Bad(error: Error)

  function Examine(parse: Parser, buf: bytes): (v: Verdict)
    ensures v.Frame? ==> v.size <= |buf|
    ensures v.NoLength? ==> buf != []
  {
    if buf == [] then NeedMore
    else
      var end := FindHeaderEnd(buf);
      if end.None? then (if |buf| > MAX_HEADER_SIZE then Bad(HeadTooLarge) else NeedMore)
      else
        match parse(buf[..end.value])
        case Malformed => Bad(BadHead)
        case Partial => NeedMore
        case Parsed(None) => NoLength
        case Parsed(Some(length)) =>
          var size := (end.value + length) % USIZE_LIMIT;
          if |buf| < size then NeedMore else Frame(size)
  }

  /** The limits: without an empty line a header of more than 64 KiB is refused and a shorter one
      read on, and a length is added to its header modulo 2 to the 64. */
  lemma HeaderLimits(parse: Parser, buf: bytes)
    requires buf != []
    ensures FindHeaderEnd(buf).None? ==>
              Examine(parse, buf) == if |buf| > 65536 then Bad(HeadTooLarge) else NeedMore
    ensures var end := FindHeaderEnd(buf);
            end.Some? && parse(buf[..end.value]).Parsed? && parse(buf[..end.value]).length.Some? ==>
              var size := (end.value + parse(buf[..end.value]).length.value) % 0x1_0000_0000_0000_0000;
              Examine(parse, buf) == if |buf| < size then NeedMore else Frame(size)
  {
  }

  /** The stream under the reader. */
  class Source {
    var tape: seq<Read>

    constructor (tape: seq<Read>)
      ensures this.tape == tape
    {
      this.tape := tape;
    }

    /** One read: `None` is end of stream. */
    method Next() returns (r: Option<Read>)
      modifies this
      ensures old(tape) == [] ==> r == None && tape == []
      ensures old(tape) != [] ==> r == Some(old(tape)[0]) && tape == old(tape)[1..]
    {
      if tape == [] { return None; }
      r := Some(tape[0]);
      tape := tape[1..];
    }
  }

  datatype State = State(buf: bytes, drain: bool)

  class HttpMessageReader {
    const parse: Parser
    var buf: bytes
    var initialized: bool
    var drainMode: bool

    ghost function View(): (s: State)
      reads this
    {
      State(buf, drainMode)
    }

    constructor (parse: Parser)
      ensures this.parse == parse && View() == State([], false) && !initialized
    {
      this.parse := parse;
      buf, initialized, drainMode := [], false, false;
    }

    method TryParse() returns (r: Result<Option<bytes>, Error>)
      modifies this
      ensures match Examine(parse, old(buf))
        case NeedMore => r == Ok(None) && View() == old(View())
        case Bad(e) => r == Err(e) && View() == old(View())
        case NoLength => r == Ok(Some(old(buf))) && View() == State([], true)
        case Frame(n) => r == Ok(Some(old(buf)[..n])) && View() == State(old(buf)[n..], old(drainMode))
    {
      if buf == [] { return Ok(None); }
      var headerEnd := FindHeaderEnd(buf);
      if headerEnd.None? {
        if |buf| > MAX_HEADER_SIZE { return Err(HeadTooLarge); }
        return Ok(None);
      }
      var head := parse(buf[..headerEnd.value]);
      if head.Malformed? { return Err(BadHead); }
      if head.Partial? { return Ok(None); }
      initialized := true;
      match head.length {
        case Some(length) =>
          var bodyEnd := (headerEnd.value + length) % USIZE_LIMIT;
          if |buf| < bodyEnd { return Ok(None); }
          r := Ok(Some(buf[..bodyEnd]));
          buf := buf[bodyEnd..];
        case None =>
          drainMode := true;
          r := Ok(Some(buf));
          buf := [];
      }
    }

    method ReadMessage(reader: Source) returns (r: Result<bytes, Error>)
      modifies this, reader
      ensures Step(r, View(), reader.tape) == ReadStep(parse, old(View()), old(reader.tape))
    {
      while true
        invariant ReadStep(parse, View(), reader.tape) == ReadStep(parse, old(View()), old(reader.tape))
        decreases |reader.tape|
      {
        if drainMode {
          if buf != [] {
            r := Ok(buf);
            buf := [];
            return;
          }
          var read := reader.Next();
          match read {
            case None => return Ok([]);
            case Some(Failure) => return Err(ReadFailed);
            case Some(Data(data)) => return Ok(data);
          }
        }
        var msg := TryParse();
        if msg.Err? { return Err(msg.error); }
        if msg.value.Some? { return Ok(msg.value.value); }
        var read := reader.Next();
        match read {
          case None =>
            if buf == [] { return Ok([]); }
            return Err(Truncated);
          case Some(Failure) => return Err(ReadFailed);
          case Some(Data(data)) => buf := buf + data;
        }
      }
    }
  }

  /** The answer of one call, the reader after it and the reads still to come. */
  datatype Step = Step(answer: Result<bytes, Error>, state: State, tape: seq<Read>)

  function ReadStep(parse: Parser, s: State, tape: seq<Read>): (step: Step)
    decreases |tape|
  {
    var verdict := Examine(parse, s.buf);
    if ReadsOn(verdict, s, tape) then
      ReadStep(parse, State(s.buf + tape[0].data, false), tape[1..])
    else LastStep(verdict, s, tape)
  }

  /** The reader goes round its loop again, with one more read in its buffer. */
  predicate ReadsOn(verdict: Verdict, s: State, tape: seq<Read>) {
    !s.drain && verdict.NeedMore? && tape != [] && tape[0].Data?
  }

  /** The round in which the reader answers. */
  function LastStep(verdict: Verdict, s: State, tape: seq<Read>): (step: Step)
    requires !ReadsOn(verdict, s, tape) && (verdict.Frame? ==> verdict.size <= |s.buf|)
  {
    if s.drain then
      if s.buf != [] then Step(Ok(s.buf), State([], true), tape)
      else if tape == [] then Step(Ok([]), s, tape)
      else Step(if tape[0].Failure? then Err(ReadFailed) else Ok(tape[0].data), s, tape[1..])
    else
      match verdict
      case Bad(e) => Step(Err(e), s, tape)
      case Frame(n) => Step(Ok(s.buf[..n]), State(s.buf[n..], false), tape)
      case NoLength => Step(Ok(s.buf), State([], true), tape)
      case NeedMore =>
        if tape == [] then Step(if s.buf == [] then Ok([]) else Err(Truncated), s, tape)
        else Step(Err(ReadFailed), s, tape[1..])
  }

  /** A call uses up reads one by one and fails with a read error exactly if the last one it used
      failed; before that it used none that did. */
  lemma {:induction false} ReadErrorsAreReported(parse: Parser, s: State, tape: seq<Read>)
    ensures var step := ReadStep(parse, s, tape);
            var used := |tape| - |step.tape|;
            && 0 <= used && step.tape == tape[used..]
            && (step.answer == Err(ReadFailed) <==> used > 0 && tape[used - 1].Failure?)
            && (forall i :: 0 <= i < used - 1 ==> tape[i].Data?)
    decreases |tape|
  {
    if ReadsOn(Examine(parse, s.buf), s, tape) {
      ReadErrorsAreReported(parse, State(s.buf + tape[0].data, false), tape[1..]);
      var step := ReadStep(parse, s, tape);
      var used := |tape| - |step.tape|;
      forall i | 0 <= i < used - 1 ensures tape[i].Data? {
        if i > 0 { assert tape[i] == tape[1..][i - 1]; }
      }
    }
  }
}
