/** The two copying tasks of an uncompressed stream and the one-shot signals between them.

    A task that reads end of stream or an error signals the other and ends. A task that times
    out signals the other and then waits for the other's signal before it ends, so that a
    stream with one busy direction stays open. */
module StartFlowing {
  import opened Bytes

  datatype Finish = Clean | Broken | GaveUp

  /** A task reads with a timeout, and writes and closes its sink without one. */
  datatype Phase = Reading | Writing | Closing | Waiting | Finished(how: Finish)

  /** One direction: all that its source is going to say, how much of it has been read, what
      has been read and not yet written, what has been written to its sink, whether the sink
      has been closed, and whether the task has sent its signal. */
  datatype Task =
    Task(input: bytes, read: nat, hand: bytes, out: bytes, closed: bool, phase: Phase, signalled: bool)

  datatype Flow = Flow(q2s: Task, s2q: Task)

  datatype Move =
    | Read(count: nat)
    | SeeEnd
    | ReadFails
    | TimeOut
    | WriteAll
    | WriteFails(passed: nat)   // with part of it written
    | Close(done: bool)
    | Resume                    // the other task's signal arrives

  predicate Enabled(t: Task, other: Task, m: Move) {
    match m
    case Read(n) => t.phase == Reading && n > 0 && t.read + n <= |t.input|
    case SeeEnd => t.phase == Reading && t.read == |t.input|
    case ReadFails => t.phase == Reading
    case TimeOut => t.phase == Reading
    case WriteAll => t.phase == Writing
    case WriteFails(passed) => t.phase == Writing && passed <= |t.hand|
    case Close(_) => t.phase == Closing
    case Resume => t.phase == Waiting && other.signalled
  }

  function Apply(t: Task, other: Task, m: Move): (t': Task)
    requires Enabled(t, other, m)
  {
    match m
    case Read(n) => t.(read := t.read + n, hand := t.input[t.read..t.read + n], phase := Writing)
    case SeeEnd => t.(phase := Closing)
    case ReadFails => t.(phase := Finished(Broken), signalled := true)
    case TimeOut => t.(phase := Waiting, signalled := true)
    case WriteAll => t.(out := t.out + t.hand, hand := [], phase := Reading)
    case WriteFails(passed) =>
      t.(out := t.out + t.hand[..passed], hand := [], phase := Finished(Broken), signalled := true)
    case Close(done) => t.(closed := done, phase := Finished(if done then Clean else Broken), signalled := true)
    case Resume => t.(phase := Finished(GaveUp))
  }

  function Begin(input: bytes): (t: Task) {
    Task(input, 0, [], [], false, Reading, false)
  }

  ghost predicate Next(f: Flow, f': Flow) {
    || (exists m :: Enabled(f.q2s, f.s2q, m) && f' == f.(q2s := Apply(f.q2s, f.s2q, m)))
    || (exists m :: Enabled(f.s2q, f.q2s, m) && f' == f.(s2q := Apply(f.s2q, f.q2s, m)))
  }

  ghost predicate Execution(run: seq<Flow>, down: bytes, up: bytes) {
    && run != []
    && run[0] == Flow(Begin(down), Begin(up))
    && forall i :: 0 <= i < |run| - 1 ==> Next(run[i], run[i + 1])
  }

  /** Neither ended nor timed out. */
  predicate Running(t: Task) {
    t.phase == Reading || t.phase == Writing || t.phase == Closing
  }

  /** What holds of a task in every reachable state. */
  ghost predicate TaskInv(t: Task, other: Task, input: bytes) {
    && t.input == input
    && t.read <= |input|
    && t.out <= input[..t.read]
    && (t.hand != [] ==> t.phase == Writing)
    && (t.phase != Finished(Broken) ==> t.out + t.hand == input[..t.read])
    && (t.closed <==> t.phase == Finished(Clean))
    && (t.closed || t.phase == Closing ==> t.read == |input|)
    && (t.signalled <==> !Running(t))
    && (t.phase == Finished(GaveUp) ==> !Running(other))
  }

  ghost predicate Inv(f: Flow, down: bytes, up: bytes) {
    TaskInv(f.q2s, f.s2q, down) && TaskInv(f.s2q, f.q2s, up)
  }

  lemma MoverKeepsInv(t: Task, other: Task, m: Move, input: bytes, others: bytes)
    requires TaskInv(t, other, input) && TaskInv(other, t, others) && Enabled(t, other, m)
    ensures TaskInv(Apply(t, other, m), other, input)
    ensures TaskInv(other, Apply(t, other, m), others)
  {
    match m
    case Read(n) =>
      assert t.out + [] == t.out;
      assert input[..t.read] + input[t.read..t.read + n] == input[..t.read + n];
    case WriteAll =>
      assert (t.out + t.hand) + [] == t.out + t.hand;
    case WriteFails(passed) =>
      assert t.out + t.hand[..passed] <= t.out + t.hand;
    case _ =>
  }

  lemma StepKeepsInv(f: Flow, f': Flow, down: bytes, up: bytes)
    requires Inv(f, down, up) && Next(f, f')
    ensures Inv(f', down, up)
  {
    if m :| Enabled(f.q2s, f.s2q, m) && f' == f.(q2s := Apply(f.q2s, f.s2q, m)) {
      MoverKeepsInv(f.q2s, f.s2q, m, down, up);
    } else {
      var m :| Enabled(f.s2q, f.q2s, m) && f' == f.(s2q := Apply(f.s2q, f.q2s, m));
      MoverKeepsInv(f.s2q, f.q2s, m, up, down);
    }
  }

  lemma {:induction false} ReachableInv(run: seq<Flow>, down: bytes, up: bytes, i: nat)
    requires Execution(run, down, up) && i < |run|
    ensures Inv(run[i], down, up)
  {
    if i > 0 {
      ReachableInv(run, down, up, i - 1);
      StepKeepsInv(run[i - 1], run[i], down, up);
    }
  }

  /** What a task that is not waiting can do next without giving up. */
  function NextMove(t: Task): (m: Move)
    requires Running(t)
    ensures forall other :: t.read <= |t.input| ==> Enabled(t, other, m)
  {
    match t.phase
    case Reading => if t.read < |t.input| then Read(1) else SeeEnd
    case Writing => WriteAll
    case Closing => Close(true)
  }

  /** The tasks never deadlock on their signals: as long as one has not ended some step is
      possible, for a running task one that goes on with its work, and a task that waits can
      go on as soon as the other has ended or timed out too. */
  lemma NeverDeadlocks(run: seq<Flow>, down: bytes, up: bytes)
    requires Execution(run, down, up)
    ensures var f := run[|run| - 1];
            && (!f.q2s.phase.Finished? || !f.s2q.phase.Finished? ==> exists f' :: Next(f, f'))
            && (Running(f.q2s) ==> Enabled(f.q2s, f.s2q, NextMove(f.q2s)))
            && (Running(f.s2q) ==> Enabled(f.s2q, f.q2s, NextMove(f.s2q)))
            && (f.q2s.phase == Waiting && !Running(f.s2q) ==> Enabled(f.q2s, f.s2q, Resume))
            && (f.s2q.phase == Waiting && !Running(f.q2s) ==> Enabled(f.s2q, f.q2s, Resume))
  {
    var f := run[|run| - 1];
    ReachableInv(run, down, up, |run| - 1);
    if Running(f.q2s) || (f.q2s.phase == Waiting && !Running(f.s2q)) {
      var m := if Running(f.q2s) then NextMove(f.q2s) else Resume;
      assert Enabled(f.q2s, f.s2q, m);
      assert Next(f, f.(q2s := Apply(f.q2s, f.s2q, m)));
    } else if !f.s2q.phase.Finished? {
      var m := if Running(f.s2q) then NextMove(f.s2q) else Resume;
      assert Enabled(f.s2q, f.q2s, m);
      assert Next(f, f.(s2q := Apply(f.s2q, f.q2s, m)));
    }
  }

  function Work(t: Task): (w: int) {
    2 * t.read +
    match t.phase case Reading => 0 case Writing => -1 case Closing => 1 case Waiting => 1 case Finished(_) => 2
  }

  lemma StepWorks(f: Flow, f': Flow)
    requires Next(f, f')
    ensures Work(f'.q2s) + Work(f'.s2q) > Work(f.q2s) + Work(f.s2q)
  {
    if m :| Enabled(f.q2s, f.s2q, m) && f' == f.(q2s := Apply(f.q2s, f.s2q, m)) {
      assert Work(Apply(f.q2s, f.s2q, m)) > Work(f.q2s);
    } else {
      var m :| Enabled(f.s2q, f.q2s, m) && f' == f.(s2q := Apply(f.s2q, f.q2s, m));
      assert Work(Apply(f.s2q, f.q2s, m)) > Work(f.s2q);
    }
  }

  lemma {:induction false} WorkSoFar(run: seq<Flow>, down: bytes, up: bytes, i: nat)
    requires Execution(run, down, up) && i < |run|
    ensures i <= Work(run[i].q2s) + Work(run[i].s2q)
  {
    if i > 0 {
      WorkSoFar(run, down, up, i - 1);
      StepWorks(run[i - 1], run[i]);
    }
  }

  /** Neither do they go on for ever over finite inputs; so every execution that is not cut
      short ends with both tasks finished. */
  lemma ExecutionsAreFinite(run: seq<Flow>, down: bytes, up: bytes)
    requires Execution(run, down, up)
    ensures |run| - 1 <= 2 * |down| + 2 * |up| + 4
  {
    WorkSoFar(run, down, up, |run| - 1);
    ReachableInv(run, down, up, |run| - 1);
  }

  /** At every point each sink has a prefix of its source: all that was read but what is being
      written, unless the task broke, and all of it once it is closed; and a direction that
      timed out ends only after the other has ended or timed out too. */
  lemma OutputsArePrefixes(run: seq<Flow>, down: bytes, up: bytes)
    requires Execution(run, down, up)
    ensures var f := run[|run| - 1];
            && f.q2s.out <= down && f.s2q.out <= up
            && (f.q2s.phase == Finished(Clean) ==> f.q2s.out == down && f.q2s.read == |down|)
            && (f.s2q.phase == Finished(Clean) ==> f.s2q.out == up && f.s2q.read == |up|)
            && (f.q2s.phase != Finished(Broken) ==> |f.q2s.out| + |f.q2s.hand| == f.q2s.read)
            && (f.s2q.phase != Finished(Broken) ==> |f.s2q.out| + |f.s2q.hand| == f.s2q.read)
            && (f.q2s.phase == Finished(GaveUp) ==> !Running(f.s2q))
            && (f.s2q.phase == Finished(GaveUp) ==> !Running(f.q2s))
  {
    ReachableInv(run, down, up, |run| - 1);
  }

  // ------------------------------------------------------------ what the moves tell

  datatype Direction = QuicToStream | StreamToQuic

  /** A move of one of the tasks. */
  datatype Act = Act(dir: Direction, move: Move)

  function Opposite(d: Direction): (r: Direction) {
    if d == QuicToStream then StreamToQuic else QuicToStream
  }

  function Of(f: Flow, d: Direction): (t: Task) {
    if d == QuicToStream then f.q2s else f.s2q
  }

  predicate Acts(f: Flow, f': Flow, a: Act) {
    && Enabled(Of(f, a.dir), Of(f, Opposite(a.dir)), a.move)
    && Of(f', a.dir) == Apply(Of(f, a.dir), Of(f, Opposite(a.dir)), a.move)
    && Of(f', Opposite(a.dir)) == Of(f, Opposite(a.dir))
  }

  /** An execution together with the moves that make it up. */
  ghost predicate Traced(run: seq<Flow>, acts: seq<Act>, down: bytes, up: bytes) {
    && |run| == |acts| + 1 && run[0] == Flow(Begin(down), Begin(up))
    && forall i :: 0 <= i < |acts| ==> Acts(run[i], run[i + 1], acts[i])
  }

  /** Every execution has such moves, and they make an execution. */
  lemma {:induction false} ExecutionsHaveMoves(run: seq<Flow>, down: bytes, up: bytes) returns (acts: seq<Act>)
    requires Execution(run, down, up)
    ensures Traced(run, acts, down, up)
  {
    if |run| == 1 { return []; }
    var last := |run| - 1;
    var before := run[..last];
    acts := ExecutionsHaveMoves(before, down, up);
    var f, f' := run[last - 1], run[last];
    assert Next(f, f');
    var a;
    if m :| Enabled(f.q2s, f.s2q, m) && f' == f.(q2s := Apply(f.q2s, f.s2q, m)) {
      a := Act(QuicToStream, m);
    } else {
      var m :| Enabled(f.s2q, f.q2s, m) && f' == f.(s2q := Apply(f.s2q, f.q2s, m));
      a := Act(StreamToQuic, m);
    }
    assert Acts(f, f', a);
    forall i | 0 <= i < |acts + [a]| ensures Acts(run[i], run[i + 1], (acts + [a])[i]) {
      if i < |acts| { assert run[i] == before[i] && run[i + 1] == before[i + 1]; }
    }
    acts := acts + [a];
  }

  lemma TracesAreExecutions(run: seq<Flow>, acts: seq<Act>, down: bytes, up: bytes)
    requires Traced(run, acts, down, up)
    ensures Execution(run, down, up)
  {
    forall i | 0 <= i < |run| - 1 ensures Next(run[i], run[i + 1]) {
      assert Acts(run[i], run[i + 1], acts[i]);
    }
  }

  /** The moves after which a task is over, and that it has timed out. */
  predicate Stops(m: Move) {
    m.ReadFails? || m.WriteFails? || m.Close? || m.TimeOut?
  }

  /** The task for a direction has stopped among the first `n` moves. */
  ghost predicate StoppedBy(acts: seq<Act>, d: Direction, n: nat) {
    exists k :: 0 <= k < n && k < |acts| && acts[k].dir == d && Stops(acts[k].move)
  }

  /** A task signals exactly if it has stopped. */
  lemma {:induction false} SignalsWhenStopped(run: seq<Flow>, acts: seq<Act>, down: bytes, up: bytes, d: Direction,
                                              n: nat)
    requires Traced(run, acts, down, up) && n < |run|
    ensures Of(run[n], d).signalled <==> StoppedBy(acts, d, n)
    ensures Of(run[n], d).signalled <==> !Running(Of(run[n], d))
  {
    if n > 0 {
      SignalsWhenStopped(run, acts, down, up, d, n - 1);
      assert Acts(run[n - 1], run[n], acts[n - 1]);
      if acts[n - 1].dir == d && Stops(acts[n - 1].move) { assert StoppedBy(acts, d, n); }
      if StoppedBy(acts, d, n - 1) {
        var k :| 0 <= k < n - 1 && acts[k].dir == d && Stops(acts[k].move);
        assert StoppedBy(acts, d, n);
      }
    }
  }

  /** A task that has timed out and goes on waiting. */
  ghost predicate HoldsOn(run: seq<Flow>, acts: seq<Act>, d: Direction, i: nat, j: nat)
    requires i <= j < |run| == |acts| + 1
  {
    Of(run[j], d).phase == Waiting && forall k :: i < k < j ==> acts[k].dir != d
  }

  /** A task that times out waits: until the other has stopped too it makes no move at all, so
      that it neither ends nor reads; and if it is over at last, the other has stopped before. */
  lemma {:induction false} TimeOutWaits(run: seq<Flow>, acts: seq<Act>, down: bytes, up: bytes, d: Direction, i: nat,
                                        j: nat)
    requires Traced(run, acts, down, up) && i < j < |run| && acts[i] == Act(d, TimeOut)
    ensures !StoppedBy(acts, Opposite(d), j) ==> HoldsOn(run, acts, d, i, j)
    ensures Of(run[j], d).phase.Finished? ==> StoppedBy(acts, Opposite(d), j)
    ensures HoldsOn(run, acts, d, i, j) || Of(run[j], d).phase == Finished(GaveUp)
    decreases j
  {
    assert Acts(run[j - 1], run[j], acts[j - 1]);
    if j - 1 > i {
      TimeOutWaits(run, acts, down, up, d, i, j - 1);
      SignalsWhenStopped(run, acts, down, up, Opposite(d), j - 1);
      if StoppedBy(acts, Opposite(d), j - 1) {
        var k :| 0 <= k < j - 1 && acts[k].dir == Opposite(d) && Stops(acts[k].move);
        assert StoppedBy(acts, Opposite(d), j);
      }
    }
  }

  /** Any other stop ends the task at once, whatever the other one does; a sink that could be
      closed is closed then, and no other is. */
  lemma OtherStopsEnd(run: seq<Flow>, acts: seq<Act>, down: bytes, up: bytes, i: nat)
    requires Traced(run, acts, down, up) && i < |acts| && Stops(acts[i].move) && acts[i].move != TimeOut
    ensures var t := Of(run[i + 1], acts[i].dir);
            && t.phase == Finished(if acts[i].move == Close(true) then Clean else Broken)
            && (t.closed <==> acts[i].move == Close(true))
  {
    assert Acts(run[i], run[i + 1], acts[i]);
    TracesAreExecutions(run, acts, down, up);
    ReachableInv(run, down, up, i);
  }

  /** How much a task has read, and how much of it its moves have passed on. */
  function ReadCount(acts: seq<Act>, d: Direction): (n: nat) {
    if acts == [] then 0
    else
      var before, a := acts[..|acts| - 1], acts[|acts| - 1];
      ReadCount(before, d) + if a.dir == d && a.move.Read? then a.move.count else 0
  }

  function PassedOn(acts: seq<Act>, d: Direction): (n: nat) {
    if acts == [] then 0
    else
      var before, a := acts[..|acts| - 1], acts[|acts| - 1];
      if a.dir == d && a.move == WriteAll then ReadCount(before, d)
      else PassedOn(before, d) + if a.dir == d && a.move.WriteFails? then a.move.passed else 0
  }

  /** A task that has read `r` bytes and passed `w` of them on. */
  ghost predicate Accounted(t: Task, input: bytes, r: nat, w: nat) {
    && t.input == input && t.read == r && w <= r <= |input| && t.out == input[..w]
    && (t.phase == Writing ==> t.hand == input[w..r])
    && (t.phase == Reading || t.phase == Closing || t.phase == Waiting ==> w == r)
  }

  lemma MoveIsAccounted(t: Task, other: Task, m: Move, input: bytes, r: nat, w: nat)
    requires Accounted(t, input, r, w) && Enabled(t, other, m)
    ensures Accounted(Apply(t, other, m), input, if m.Read? then r + m.count else r,
                      if m == WriteAll then r else if m.WriteFails? then w + m.passed else w)
  {
    match m
    case WriteAll =>
      assert input[..w] + input[w..r] == input[..r];
    case WriteFails(passed) =>
      assert input[..w] + input[w..r][..passed] == input[..w + passed];
    case _ =>
  }

  function InputOf(d: Direction, down: bytes, up: bytes): (input: bytes) {
    if d == QuicToStream then down else up
  }

  /** The moves determine what is in the sinks: the bytes of all reads but the last if that has
      not been written, and of a failed write as much as was passed. */
  lemma {:induction false} SinksHoldWhatWasPassedOn(run: seq<Flow>, acts: seq<Act>, down: bytes, up: bytes,
                                                    d: Direction)
    requires Traced(run, acts, down, up)
    ensures Accounted(Of(run[|acts|], d), InputOf(d, down, up), ReadCount(acts, d), PassedOn(acts, d))
  {
    if acts != [] {
      var n := |acts| - 1;
      var a := acts[n];
      assert Acts(run[n], run[n + 1], a);
      ShorterTrace(run, acts, down, up);
      SinksHoldWhatWasPassedOn(run[..n + 1], acts[..n], down, up, d);
      if a.dir == d {
        MoveIsAccounted(Of(run[n], d), Of(run[n], Opposite(d)), a.move, InputOf(d, down, up),
                        ReadCount(acts[..n], d), PassedOn(acts[..n], d));
      }
    }
  }

  lemma ShorterTrace(run: seq<Flow>, acts: seq<Act>, down: bytes, up: bytes)
    requires Traced(run, acts, down, up) && acts != []
    ensures Traced(run[..|acts|], acts[..|acts| - 1], down, up)
  {
    var shorter, before := run[..|acts|], acts[..|acts| - 1];
    forall i | 0 <= i < |before| ensures Acts(shorter[i], shorter[i + 1], before[i]) {
      assert Acts(run[i], run[i + 1], acts[i]);
    }
  }

  /** Whatever a task is doing can fail: a read also time out, a write after any part of it, and a
      close. */
  lemma AnythingCanFail(t: Task, other: Task)
    ensures t.phase == Reading ==> Enabled(t, other, ReadFails) && Enabled(t, other, TimeOut)
    ensures t.phase == Reading ==>
              forall n :: 0 < n <= |t.input| - t.read ==> Enabled(t, other, Read(n))
    ensures t.phase == Writing ==> forall n: nat :: n <= |t.hand| ==> Enabled(t, other, WriteFails(n))
    ensures t.phase == Closing ==> Enabled(t, other, Close(false))
  {
  }
}
