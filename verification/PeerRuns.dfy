/** Two peers carrying any number of streams and losing entries of their tables at any time.
    Their code is always in the state of a run of the reuse protocol, so what holds of all
    runs of the protocol holds of the code: of its tables, and of what it delivers. */
module PeerRuns {
  import opened Bytes
  import opened Zstd
  import opened CodecPairs
  import opened Handshake
  import opened CodecLoops
  import opened CodecTable
  import opened ReuseProtocol
  import opened StreamLegs
  import opened PeerStreams
  import HttpReader
  import HttpSplit

  // ------------------------------------------------------------ one job

  method Evict(lru: CodecLru, id: Id, ghost other: CodecLru)
    requires Apart(lru, other)
    modifies lru
    ensures Apart(lru, other) && lru.View() == old(lru.View()) - {id} && other.View() == old(other.View())
    ensures Own(lru) <= old(Own(lru)) && Own(other) == old(Own(other))
  {
    lru.Remove(id);
  }

  /** The code and the protocol are in the same state. */
  ghost predicate Follows(a: CodecLru, b: CodecLru, z: Codec, run: seq<Event>)
    reads a, b, a.cache.Values, b.cache.Values
  {
    && Apart(a, b) && a.z == z && Lawful(z) && Run(z, run)
    && a.View() == State(z, run).a && b.View() == State(z, run).b
  }

  lemma RunGrows(z: Codec, run: seq<Event>, e: Event)
    requires Lawful(z) && Run(z, run) && Can(z, State(z, run), e)
    ensures Run(z, run + [e]) && State(z, run + [e]) == After(z, State(z, run), e)
  {
    assert (run + [e])[..|run|] == run;
  }

  /** The new ids of a stream are new, as the generator of ids all but guarantees. */
  predicate IsNew(s: Peers, job: Job)
    requires job.Carried?
  {
    job.newA != 0 && job.newB != 0 && job.newA !in s.b && job.newB !in s.a
  }

  /** The event and the output of a job: none for a stream whose new ids are not new. */
  ghost predicate Explains(z: Codec, s: Peers, job: Job, events: seq<Event>, out: Output)
    requires Lawful(z)
  {
    match job
    case Evicted(side, id) => events == [Lost(side, id)] && out == Output([], [])
    case Carried(_, _, _, _, _, _) =>
      if !IsNew(s, job) then events == [] && out == Output([], [])
      else
        && |events| == 1 && events[0].Streamed? && IsStreamOf(z, s, events[0].stream, job)
        && ShowsBoth(z, s, events[0].stream, out)
  }

  method DoEviction(a: CodecLru, b: CodecLru, side: Side, id: Id, ghost z: Codec, ghost run: seq<Event>)
    requires Follows(a, b, z, run)
    modifies a, b
    ensures Follows(a, b, z, run + [Lost(side, id)]) && Own(a) <= old(Own(a)) && Own(b) <= old(Own(b))
  {
    RunGrows(z, run, Lost(side, id));
    if side == A { Evict(a, id, b); } else { Evict(b, id, a); }
  }

  /** A stream; any entry of a table can be the one that a walk comes to first. */
  method DoStream(a: CodecLru, b: CodecLru, job: Job, ghost z: Codec, ghost run: seq<Event>)
    returns (out: Output, ghost x: Stream)
    requires Follows(a, b, z, run) && job.Carried? && IsNew(State(z, run), job)
    modifies Own(a), Own(b)
    ensures Follows(a, b, z, run + [Streamed(x)]) && IsStreamOf(z, State(z, run), x, job)
    ensures ShowsBoth(z, State(z, run), x, out)
    ensures fresh(Own(a) - old(Own(a))) && fresh(Own(b) - old(Own(b)))
  {
    var idA, idB := job.newA, job.newB;
    if a.cache != map[] { idA :| idA in a.cache; }
    if b.cache != map[] { idB :| idB in b.cache; }
    out, x := RunStream(a, b, job, idA, idB, State(z, run));
    RunGrows(z, run, Streamed(x));
  }

  method DoJob(a: CodecLru, b: CodecLru, job: Job, ghost z: Codec, ghost run: seq<Event>)
    returns (out: Output, ghost events: seq<Event>)
    requires Follows(a, b, z, run)
    modifies Own(a), Own(b)
    ensures Follows(a, b, z, run + events) && Explains(z, State(z, run), job, events, out)
    ensures fresh(Own(a) - old(Own(a))) && fresh(Own(b) - old(Own(b)))
  {
    out := Output([], []);
    if job.Evicted? {
      DoEviction(a, b, job.side, job.id, z, run);
      events := [Lost(job.side, job.id)];
    } else if job.newA == 0 || job.newB == 0 || job.newA in b.cache || job.newB in a.cache {
      events := [];
      assert run + [] == run;
    } else {
      ghost var x;
      out, x := DoStream(a, b, job, z, run);
      events := [Streamed(x)];
    }
  }

  // ------------------------------------------------------------ many jobs

  /** A run that does the jobs one after another, with these outputs. */
  ghost predicate Does(z: Codec, run: seq<Event>, jobs: seq<Job>, outs: seq<Output>)
    requires Lawful(z)
    decreases |jobs|, 1
  {
    |outs| == |jobs| && if jobs == [] then run == [] else exists n: nat :: DoesLast(z, run, jobs, outs, n)
  }

  /** The first `n` events do all jobs but the last, and the others do that. */
  ghost predicate DoesLast(z: Codec, run: seq<Event>, jobs: seq<Job>, outs: seq<Output>, n: nat)
    requires Lawful(z)
    decreases |jobs|, 0
  {
    && 0 < |jobs| == |outs| && n <= |run|
    && var last := |jobs| - 1;
    && Does(z, run[..n], jobs[..last], outs[..last])
    && Explains(z, State(z, run[..n]), jobs[last], run[n..], outs[last])
  }

  lemma DoesMore(z: Codec, run: seq<Event>, jobs: seq<Job>, i: nat, outs: seq<Output>, events: seq<Event>,
                 out: Output)
    requires Lawful(z) && i < |jobs|
    requires Does(z, run, jobs[..i], outs) && Explains(z, State(z, run), jobs[i], events, out)
    ensures Does(z, run + events, jobs[..i + 1], outs + [out])
  {
    var all := run + events;
    assert all[..|run|] == run && all[|run|..] == events;
    assert jobs[..i + 1][..i] == jobs[..i] && (outs + [out])[..i] == outs;
    assert DoesLast(z, all, jobs[..i + 1], outs + [out], |run|);
  }

  /** For a pair that is in both tables, and each direction that its status calls synced, the
      decoder of the one object has been fed exactly the wire of the encoder of the other. */
  ghost predicate Matches(a: CodecLru, b: CodecLru, z: Codec, k: Know, id: Id)
    reads a, b, a.cache.Values, b.cache.Values
  {
    id in a.cache && id in b.cache ==>
      && (k.ab == Synced ==> b.cache[id].decoder.fed == z.wire(a.cache[id].encoder.log))
      && (k.ba == Synced ==> a.cache[id].decoder.fed == z.wire(b.cache[id].encoder.log))
  }

  lemma SyncedPairsMatch(a: CodecLru, b: CodecLru, z: Codec, run: seq<Event>, id: Id)
    requires Follows(a, b, z, run)
    ensures Matches(a, b, z, Known(State(z, run), id), id)
  {
    StatusIsRight(z, run);
    assert PairInv(z, State(z, run), id);
    if id in a.cache && id in b.cache {
      assert a.View()[id] == a.cache[id].View() && b.View()[id] == b.cache[id].View();
    }
  }

  method NewPeers(z: Codec) returns (a: CodecLru, b: CodecLru)
    requires Lawful(z)
    ensures Follows(a, b, z, []) && fresh(Own(a)) && fresh(Own(b))
  {
    a := new CodecLru(z);
    b := new CodecLru(z);
    assert a.View() == map[] && b.View() == map[];
  }

  /** The first `n` of some jobs between two new peers. */
  method RunJobs(z: Codec, jobs: seq<Job>, n: nat)
    returns (a: CodecLru, b: CodecLru, outs: seq<Output>, ghost run: seq<Event>)
    requires Lawful(z) && n <= |jobs|
    ensures Follows(a, b, z, run) && Does(z, run, jobs[..n], outs) && fresh(Own(a)) && fresh(Own(b))
  {
    if n == 0 {
      a, b := NewPeers(z);
      outs, run := [], [];
    } else {
      a, b, outs, run := RunJobs(z, jobs, n - 1);
      outs, run := DoOneMore(a, b, jobs, n - 1, outs, z, run);
    }
  }

  method DoOneMore(a: CodecLru, b: CodecLru, jobs: seq<Job>, i: nat, outs: seq<Output>, ghost z: Codec,
                   ghost run: seq<Event>)
    returns (outs': seq<Output>, ghost run': seq<Event>)
    requires i < |jobs| && Follows(a, b, z, run) && Does(z, run, jobs[..i], outs)
    modifies Own(a), Own(b)
    ensures Follows(a, b, z, run') && Does(z, run', jobs[..i + 1], outs')
    ensures fresh(Own(a) - old(Own(a))) && fresh(Own(b) - old(Own(b)))
  {
    var out;
    ghost var events;
    out, events := DoJob(a, b, jobs[i], z, run);
    DoesMore(z, run, jobs, i, outs, events, out);
    outs', run' := outs + [out], run + events;
  }

  // ------------------------------------------------------------ what the jobs delivered

  /** What one end is left with: the pair it sent over, with these calls made on it, unless the
      encoder or the wire failed or the local stream timed out; and the pair it received over,
      unless that did not decode, its local stream failed or the wire timed out. */
  ghost predicate KeepsOut(z: Codec, sender: Context, id: Id, t: Traffic, table: Table)
    requires Lawful(z)
  {
    && (id in table <==> Goes(z, sender.log, CallsOf(t.local), t.sinks.wire, 0) && !TimesOut(t.local))
    && (id in table ==> table[id] == Context(sender.log + CallsOf(t.local), sender.fed))
  }

  ghost predicate KeepsIn(z: Codec, receiver: Context, w: bytes, id: Id, t: Traffic, table: Table)
    requires Lawful(z)
  {
    && (id in table <==>
          && Drains(z, receiver.fed, w, t.sinks.local, 0)
          && (t.ending == Whole ==> t.sinks.closes) && (t.ending.BreaksOff? ==> !t.ending.timedOut))
    && (id in table ==> table[id] == Context(receiver.log, receiver.fed + w))
  }

  /** What both ends of a stream are left with, from its traffic, where they picked different ids. */
  ghost predicate KeepsPairs(z: Codec, s: Peers, x: Stream, job: Job, s': Peers)
    requires Lawful(z) && job.Carried?
  {
    var ea, eb := EndA(s, x), EndB(s, x);
    && KeepsOut(z, ea.s2q, x.idA, job.ab, s'.a) && KeepsIn(z, eb.q2s, Reaches(z, ea.s2q.log, x.ab), x.idA, job.ab, s'.b)
    && KeepsOut(z, eb.s2q, x.idB, job.ba, s'.b) && KeepsIn(z, ea.q2s, Reaches(z, eb.s2q.log, x.ba), x.idB, job.ba, s'.a)
  }

  lemma PairsAreKept(z: Codec, s: Peers, x: Stream, job: Job)
    requires Lawful(z) && Legal(z, s, x) && job.Carried? && IsStreamOf(z, s, x, job) && x.idA != x.idB
    ensures KeepsPairs(z, s, x, job, After(z, s, Streamed(x)))
  {
    var ea, eb := EndA(s, x), EndB(s, x);
    OnlyTimeoutsTimeOut(job.ab.local);
    OnlyTimeoutsTimeOut(job.ba.local);
    TableAfterAt(z, s.a, x.idA, x.idB, ea.s2qAck, x.ab, x.ba, eb.s2q.log, x.aSenderLast);
    TableAfterAt(z, s.b, x.idB, x.idA, eb.s2qAck, x.ba, x.ab, ea.s2q.log, x.bSenderLast);
  }

  /** Event `m` of a run leaves the pairs of a job where the ends of their loops say. */
  ghost predicate KeepsAt(z: Codec, run: seq<Event>, m: nat, job: Job)
    requires Lawful(z) && job.Carried? && m < |run| && run[m].Streamed?
  {
    run[m].stream.idA != run[m].stream.idB ==>
      KeepsPairs(z, State(z, run[..m]), run[m].stream, job, State(z, run[..m + 1]))
  }

  /** Event `m` of a run is the stream of a job, and its output is what the job's local streams
      read: both ways if the run before it was clean, all of it if it was clean itself, and in
      each safe direction if every encoder loop before it that ended in a local error had
      flushed. */
  ghost predicate DeliversAt(z: Codec, run: seq<Event>, m: nat, job: Job, out: Output)
    requires Lawful(z) && job.Carried?
  {
    && m < |run| && run[m].Streamed? && IsStreamOf(z, State(z, run[..m]), run[m].stream, job)
    && var s, x := State(z, run[..m]), run[m].stream;
    && (CleanRun(run[..m]) ==> Delivers(x.ab, job.ab.local, out.ab) && Delivers(x.ba, job.ba.local, out.ba))
    && (CleanRun(run[..m + 1]) ==> out == Output(Written(job.ab.local), Written(job.ba.local)))
    && (SendersFlush(run[..m]) ==>
          && (SafeAB(s, x) ==> Delivers(x.ab, job.ab.local, out.ab))
          && (SafeBA(s, x) ==> Delivers(x.ba, job.ba.local, out.ba)))
  }

  /** The turn of job `i` comes after the first `m` events, which do the jobs before it, and it
      delivers as it should; a job that is skipped delivers nothing. */
  ghost predicate ServedAt(z: Codec, run: seq<Event>, jobs: seq<Job>, outs: seq<Output>, i: nat, m: nat)
    requires Lawful(z)
  {
    && i < |jobs| == |outs| && m <= |run| && Does(z, run[..m], jobs[..i], outs[..i])
    && if jobs[i].Carried? && IsNew(State(z, run[..m]), jobs[i])
       then DeliversAt(z, run, m, jobs[i], outs[i]) && KeepsAt(z, run, m, jobs[i])
       else outs[i] == Output([], [])
  }

  ghost predicate WasServed(z: Codec, run: seq<Event>, jobs: seq<Job>, outs: seq<Output>, i: nat)
    requires Lawful(z)
  {
    exists m: nat :: ServedAt(z, run, jobs, outs, i, m)
  }

  lemma StreamDelivers(z: Codec, run: seq<Event>, x: Stream, job: Job, out: Output)
    requires Lawful(z) && Run(z, run) && Legal(z, State(z, run), x) && job.Carried?
    requires IsStreamOf(z, State(z, run), x, job)
    requires ShowsBoth(z, State(z, run), x, out)
    ensures var s := State(z, run);
            && (CleanRun(run) ==> Delivers(x.ab, job.ab.local, out.ab) && Delivers(x.ba, job.ba.local, out.ba))
            && (SendersFlush(run) ==>
                  && (SafeAB(s, x) ==> Delivers(x.ab, job.ab.local, out.ab))
                  && (SafeBA(s, x) ==> Delivers(x.ba, job.ba.local, out.ba)))
  {
    var s := State(z, run);
    var ea, eb := EndA(s, x), EndB(s, x);
    if CleanRun(run) {
      CleanRunsDeliver(z, run, x);
    } else if SendersFlush(run) {
      SafeStreamsAreExact(z, run, x);
    }
    if Exact(z, ea.s2q.log, eb.q2s.fed, x.ab) { ExactDelivers(z, ea.s2q.log, eb.q2s.fed, x.ab, job.ab.local, out.ab); }
    if Exact(z, eb.s2q.log, ea.q2s.fed, x.ba) { ExactDelivers(z, eb.s2q.log, ea.q2s.fed, x.ba, job.ba.local, out.ba); }
  }

  lemma {:induction false} RunPrefix(z: Codec, run: seq<Event>, n: nat)
    requires Lawful(z) && Run(z, run) && n <= |run|
    ensures Run(z, run[..n])
    ensures n < |run| ==> Can(z, State(z, run[..n]), run[n])
    decreases |run| - n
  {
    if n == |run| {
      assert run[..n] == run;
    } else {
      RunPrefix(z, run, n + 1);
      assert run[..n + 1][..n] == run[..n];
    }
  }

  lemma LastJobWasServed(z: Codec, run: seq<Event>, n: nat, jobs: seq<Job>, outs: seq<Output>)
    requires Lawful(z) && Run(z, run) && DoesLast(z, run, jobs, outs, n)
    ensures WasServed(z, run, jobs, outs, |jobs| - 1)
  {
    var last := |jobs| - 1;
    var job := jobs[last];
    if job.Carried? && IsNew(State(z, run[..n]), job) {
      assert run[n..][0] == run[n];
      RunPrefix(z, run, n);
      StreamDelivers(z, run[..n], run[n].stream, job, outs[last]);
      assert run[..n + 1][..n] == run[..n] && run[..n + 1][n] == run[n];
      if run[n].stream.idA != run[n].stream.idB { PairsAreKept(z, State(z, run[..n]), run[n].stream, job); }
      CleanStreamDeliversAll(run, n, job, outs[last]);
    }
    assert ServedAt(z, run, jobs, outs, last, n);
  }

  /** A clean stream after clean ones wrote what was read at the other side. */
  lemma CleanStreamDeliversAll(run: seq<Event>, m: nat, job: Job, out: Output)
    requires m < |run| && run[m].Streamed? && job.Carried?
    requires var x := run[m].stream;
             CleanRun(run[..m]) ==> Delivers(x.ab, job.ab.local, out.ab) && Delivers(x.ba, job.ba.local, out.ba)
    ensures CleanRun(run[..m + 1]) ==> out == Output(Written(job.ab.local), Written(job.ba.local))
  {
    if CleanRun(run[..m + 1]) {
      assert run[..m + 1][m] == run[m];
      forall i | 0 <= i < m ensures run[..m][i].Streamed? && AllClean(run[..m][i].stream) {
        assert run[..m + 1][i] == run[..m][i];
      }
    }
  }

  lemma DeliversLater(z: Codec, run: seq<Event>, n: nat, m: nat, job: Job, out: Output)
    requires Lawful(z) && n <= |run| && job.Carried? && DeliversAt(z, run[..n], m, job, out)
    ensures DeliversAt(z, run, m, job, out)
  {
    assert run[..n][..m] == run[..m] && run[..n][..m + 1] == run[..m + 1] && run[..n][m] == run[m];
  }

  lemma KeepsLater(z: Codec, run: seq<Event>, n: nat, m: nat, job: Job)
    requires Lawful(z) && m < n <= |run| && job.Carried? && run[m].Streamed? && KeepsAt(z, run[..n], m, job)
    ensures KeepsAt(z, run, m, job)
  {
    assert run[..n][..m] == run[..m] && run[..n][..m + 1] == run[..m + 1] && run[..n][m] == run[m];
  }

  lemma ServedLater(z: Codec, run: seq<Event>, n: nat, jobs: seq<Job>, outs: seq<Output>, k: nat, i: nat)
    requires Lawful(z) && n <= |run| && i < k <= |jobs| == |outs| && WasServed(z, run[..n], jobs[..k], outs[..k], i)
    ensures WasServed(z, run, jobs, outs, i)
  {
    var m: nat :| ServedAt(z, run[..n], jobs[..k], outs[..k], i, m);
    var job := jobs[i];
    assert run[..n][..m] == run[..m] && jobs[..k][..i] == jobs[..i] && outs[..k][..i] == outs[..i];
    if job.Carried? && IsNew(State(z, run[..m]), job) {
      DeliversLater(z, run, n, m, job, outs[i]);
      KeepsLater(z, run, n, m, job);
    }
    assert ServedAt(z, run, jobs, outs, i, m);
  }

  /** Every job of a run had its turn, and delivered as it should. */
  lemma {:induction false} EveryJobWasServed(z: Codec, run: seq<Event>, jobs: seq<Job>, outs: seq<Output>, i: nat)
    requires Lawful(z) && Run(z, run) && Does(z, run, jobs, outs) && i < |jobs|
    ensures WasServed(z, run, jobs, outs, i)
    decreases |jobs|
  {
    var last := |jobs| - 1;
    var n: nat :| DoesLast(z, run, jobs, outs, n);
    if i < last {
      RunPrefix(z, run, n);
      EveryJobWasServed(z, run[..n], jobs[..last], outs[..last], i);
      ServedLater(z, run, n, jobs, outs, last, i);
    } else {
      LastJobWasServed(z, run, n, jobs, outs);
    }
  }

  /** Where the last job of some began. */
  lemma LastBegan(z: Codec, run: seq<Event>, jobs: seq<Job>, outs: seq<Output>, m: nat) returns (n: nat)
    requires Lawful(z) && m <= |run| && jobs != [] && Does(z, run[..m], jobs, outs)
    ensures var last := |jobs| - 1;
            && n <= m && |outs| == |jobs| && Does(z, run[..n], jobs[..last], outs[..last])
            && Explains(z, State(z, run[..n]), jobs[last], run[n..m], outs[last])
  {
    n :| DoesLast(z, run[..m], jobs, outs, n);
    assert run[..m][..n] == run[..n] && run[..m][n..] == run[n..m];
  }

  /** The turn of a job is the only one it can have. */
  lemma {:induction false} TurnIsUnique(z: Codec, run: seq<Event>, jobs: seq<Job>, outs: seq<Output>, m: nat, m': nat)
    requires Lawful(z) && m <= |run| && m' <= |run|
    requires Does(z, run[..m], jobs, outs) && Does(z, run[..m'], jobs, outs)
    ensures m == m'
    decreases |jobs|
  {
    if jobs != [] {
      var last := |jobs| - 1;
      var n := LastBegan(z, run, jobs, outs, m);
      var n' := LastBegan(z, run, jobs, outs, m');
      TurnIsUnique(z, run, jobs[..last], outs[..last], n, n');
    }
  }

  lemma CleanAt(z: Codec, run: seq<Event>, m: nat, job: Job, out: Output)
    requires Lawful(z) && CleanRun(run) && job.Carried? && DeliversAt(z, run, m, job, out)
    ensures out == Output(Written(job.ab.local), Written(job.ba.local))
    ensures LocalEnd(job.ab.local) == LocalEnd(job.ba.local) == CleanEof
  {
    assert CleanRun(run[..m + 1]);
    assert AllClean(run[m].stream);
  }

  /** In a clean run that is everything: each stream, at its turn, wrote what was read at the
      other side. */
  lemma CleanRunDeliversAll(z: Codec, run: seq<Event>, jobs: seq<Job>, outs: seq<Output>, i: nat, m: nat)
    requires Lawful(z) && Run(z, run) && Does(z, run, jobs, outs) && CleanRun(run)
    requires i < |jobs| && jobs[i].Carried? && m <= |run| && Does(z, run[..m], jobs[..i], outs[..i])
    requires IsNew(State(z, run[..m]), jobs[i])
    ensures outs[i] == Output(Written(jobs[i].ab.local), Written(jobs[i].ba.local))
    ensures LocalEnd(jobs[i].ab.local) == LocalEnd(jobs[i].ba.local) == CleanEof
  {
    EveryJobWasServed(z, run, jobs, outs, i);
    var m': nat :| ServedAt(z, run, jobs, outs, i, m');
    TurnIsUnique(z, run, jobs[..i], outs[..i], m, m');
    CleanAt(z, run, m, jobs[i], outs[i]);
  }

  /** Traffic that nothing goes wrong with: no sink breaks, the wire arrives whole, and no read of
      the local stream fails or times out. */
  ghost predicate Undisturbed(t: Traffic) {
    && t.sinks.wire.None? && t.sinks.local.None? && t.sinks.closes && t.ending == Whole
    && match t.local
       case Basic(turns) => forall i :: 0 <= i < |turns| ==> !Bad(turns[i])
       case Http(parse, tape) => HttpSplit.Run(parse, HttpReader.State([], false), tape).failed.None?
  }

  ghost predicate AcceptsAll(z: Codec) {
    forall log, op :: z.accepts(log, op)
  }

  lemma {:induction false} AllGoes(z: Codec, log: seq<Op>, ops: seq<Op>)
    requires Lawful(z) && AcceptsAll(z)
    ensures Goes(z, log, ops, None, 0)
  {
    if ops != [] { AllGoes(z, log, ops[..|ops| - 1]); }
  }

  lemma UndisturbedEnds(t: Traffic)
    requires Undisturbed(t)
    ensures LocalEnd(t.local) == WireEnd(t.ending) == CleanEof
  {
    if t.local.Basic? { FirstBadTurnDecides(t.local.turns, |t.local.turns|); }
  }

  /** An undisturbed stream after clean ones is clean. */
  lemma UndisturbedIsClean(z: Codec, run: seq<Event>, x: Stream, job: Job)
    requires Lawful(z) && AcceptsAll(z) && Run(z, run) && CleanRun(run) && Legal(z, State(z, run), x)
    requires job.Carried? && Undisturbed(job.ab) && Undisturbed(job.ba)
    requires IsStreamOf(z, State(z, run), x, job) && x.idA != x.idB
    ensures AllClean(x)
  {
    CleanRunsDeliver(z, run, x);
    var s := State(z, run);
    AllGoes(z, EndA(s, x).s2q.log, x.ab.ops);
    AllGoes(z, EndB(s, x).s2q.log, x.ba.ops);
    UndisturbedEnds(job.ab);
    UndisturbedEnds(job.ba);
  }

  ghost predicate AllUndisturbed(jobs: seq<Job>) {
    forall i :: 0 <= i < |jobs| ==> jobs[i].Carried? && Undisturbed(jobs[i].ab) && Undisturbed(jobs[i].ba)
  }

  /** In no stream of a run do both ends pick the same id. */
  predicate PicksDiffer(run: seq<Event>) {
    forall i :: 0 <= i < |run| && run[i].Streamed? ==> run[i].stream.idA != run[i].stream.idB
  }

  lemma {:induction false} UndisturbedRunsAreClean(z: Codec, run: seq<Event>, jobs: seq<Job>, outs: seq<Output>)
    requires Lawful(z) && AcceptsAll(z) && Run(z, run) && Does(z, run, jobs, outs)
    requires AllUndisturbed(jobs) && PicksDiffer(run)
    ensures CleanRun(run)
    decreases |jobs|
  {
    if jobs != [] {
      var last := |jobs| - 1;
      var n: nat :| DoesLast(z, run, jobs, outs, n);
      RunPrefix(z, run, n);
      UndisturbedRunsAreClean(z, run[..n], jobs[..last], outs[..last]);
      forall i | 0 <= i < |run| ensures run[i].Streamed? && AllClean(run[i].stream) {
        if i < n {
          assert run[i] == run[..n][i];
        } else {
          assert run[i] == run[n..][i - n] && i == n;
          UndisturbedIsClean(z, run[..n], run[n].stream, jobs[last]);
        }
      }
    }
  }

  /** So undisturbed streams deliver: whatever two new peers carry, one stream after another, each
      wrote at both sides exactly what was read at the other, unless both ends of some stream
      picked the same id. */
  lemma UndisturbedStreamsDeliver(z: Codec, run: seq<Event>, jobs: seq<Job>, outs: seq<Output>, i: nat, m: nat)
    requires Lawful(z) && AcceptsAll(z) && Run(z, run) && Does(z, run, jobs, outs)
    requires AllUndisturbed(jobs) && PicksDiffer(run)
    requires i < |jobs| && m <= |run| && Does(z, run[..m], jobs[..i], outs[..i]) && IsNew(State(z, run[..m]), jobs[i])
    ensures outs[i] == Output(Written(jobs[i].ab.local), Written(jobs[i].ba.local))
  {
    UndisturbedRunsAreClean(z, run, jobs, outs);
    CleanRunDeliversAll(z, run, jobs, outs, i, m);
  }

  /** A run that accounts for two peers and their output: it does the jobs, the tables are
      those of the run, their synced pairs match, and every job was served. */
  ghost predicate Accounts(a: CodecLru, b: CodecLru, z: Codec, run: seq<Event>, jobs: seq<Job>, outs: seq<Output>)
    reads a, b, a.cache.Values, b.cache.Values
  {
    && Follows(a, b, z, run) && Does(z, run, jobs, outs)
    && (forall id: Id :: Matches(a, b, z, Known(State(z, run), id), id))
    && (forall i :: 0 <= i < |jobs| ==> WasServed(z, run, jobs, outs, i))
  }

  /** Whatever happens to two new peers, a run of the protocol accounts for it. */
  method RunPeers(z: Codec, jobs: seq<Job>) returns (a: CodecLru, b: CodecLru, outs: seq<Output>)
    requires Lawful(z)
    ensures exists run :: Accounts(a, b, z, run, jobs, outs)
  {
    ghost var run;
    a, b, outs, run := RunJobs(z, jobs, |jobs|);
    assert jobs[..|jobs|] == jobs;
    forall id: Id ensures Matches(a, b, z, Known(State(z, run), id), id) {
      SyncedPairsMatch(a, b, z, run, id);
    }
    forall i | 0 <= i < |jobs| ensures WasServed(z, run, jobs, outs, i) {
      EveryJobWasServed(z, run, jobs, outs, i);
    }
    assert Accounts(a, b, z, run, jobs, outs);
  }
}
