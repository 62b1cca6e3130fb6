/** Both ends of the handshake exchanging bytes, in every possible interleaving. */
module HandshakeRuns {
  import opened Bytes
  import opened CodecPairs
  import opened Handshake

  datatype Phase = Idle | Ids | Acks | Done

  /** One end. `out` is all it has written to its QUIC stream so far and `got` counts what
      it has read of the other end's; a stream is reliable and in order, so what it has read
      is the front of what the other end wrote. */
  datatype Peer = Peer(phase: Phase, out: bytes, got: nat, s: Settled)

  datatype Ends = Ends(a: Peer, b: Peer)

  function Begin(t: Table): (p: Peer) {
    Peer(Idle, [], 0, Settled(0, 0, FRESH_CONTEXT, 0, 0, FRESH_CONTEXT, t))
  }

  /** The bytes an end means to have written by the end of its current phase. */
  function Script(p: Peer): (w: bytes) {
    match p.phase
    case Idle => []
    case Ids => ToBe(p.s.s2qId, PAIR_ID_SIZE)
    case _ => ToBe(p.s.s2qId, PAIR_ID_SIZE) + ToBe(p.s.q2sAck, PAIR_ID_SIZE)
  }

  /** The end has written and read all that its current phase asks for. */
  predicate PhaseComplete(p: Peer) {
    p.out == Script(p) && p.got == |Script(p)|
  }

  /** One step of `p`, whose counterpart is `q`. Within a phase writing and reading go on
      side by side, any number of bytes at a time. */
  datatype Move = Pick(id: Id) | Send(count: nat) | Receive(count: nat) | Lookup | Finish

  predicate Enabled(p: Peer, q: Peer, m: Move) {
    match m
    case Pick(id) => p.phase == Idle && id != 0
    case Send(n) => p.phase != Idle && 0 < n && |p.out| + n <= |Script(p)|
    case Receive(n) => p.phase != Idle && 0 < n && p.got + n <= |Script(p)| && p.got + n <= |q.out|
    case Lookup => p.phase == Ids && PhaseComplete(p) && |q.out| >= PAIR_ID_SIZE
    case Finish => p.phase == Acks && PhaseComplete(p) && |q.out| >= 2 * PAIR_ID_SIZE
  }

  function Apply(p: Peer, q: Peer, m: Move): (p': Peer)
    requires Enabled(p, q, m)
  {
    match m
    case Pick(id) =>
      p.(phase := Ids,
         s := p.s.(s2qId := id, s2q := Picked(p.s.table, id), table := p.s.table - {id}))
    case Send(n) => p.(out := Script(p)[..|p.out| + n])
    case Receive(n) => p.(got := p.got + n)
    case Lookup =>
      var theirs := AsId(q.out[..PAIR_ID_SIZE]);
      var hit := theirs != 0 && theirs in p.s.table;
      p.(phase := Acks,
         s := p.s.(q2sId := theirs,
                   q2sAck := if hit then theirs else 0,
                   q2s := if hit then p.s.table[theirs] else FRESH_CONTEXT.(fed := []),
                   table := p.s.table - {theirs}))
    case Finish =>
      var acked := AsId(q.out[PAIR_ID_SIZE..2 * PAIR_ID_SIZE]);
      p.(phase := Done,
         s := p.s.(s2qAck := acked,
                   s2q := if acked == 0 && p.s.s2qId != 0 then p.s.s2q.(log := []) else p.s.s2q))
  }

  ghost predicate Next(s: Ends, s': Ends) {
    || (exists m :: Enabled(s.a, s.b, m) && s' == s.(a := Apply(s.a, s.b, m)))
    || (exists m :: Enabled(s.b, s.a, m) && s' == s.(b := Apply(s.b, s.a, m)))
  }

  ghost predicate Execution(run: seq<Ends>, ta: Table, tb: Table) {
    && run != []
    && run[0] == Ends(Begin(ta), Begin(tb))
    && forall i :: 0 <= i < |run| - 1 ==> Next(run[i], run[i + 1])
  }

  /** What holds of one end in every reachable state. */
  ghost predicate PeerInv(p: Peer, q: Peer, t: Table) {
    && p.out <= Script(p)
    && p.got <= |Script(p)| && p.got <= |q.out|
    && match p.phase
       case Idle => p.s.table == t
       case Ids =>
         && p.s.s2qId != 0
         && p.s.s2q == Picked(t, p.s.s2qId)
         && p.s.table == t - {p.s.s2qId}
       case Acks =>
         && PastIds(p, q, t)
         && p.s == Settle(t, p.s.s2qId, p.s.q2sId, 0).(s2qAck := p.s.s2qAck, s2q := Picked(t, p.s.s2qId))
       case Done =>
         && PastIds(p, q, t)
         && PhaseComplete(p)
         && q.phase != Idle && q.phase != Ids
         && p.s == Settle(t, p.s.s2qId, p.s.q2sId, q.s.q2sAck)
  }

  /** Past the exchange of ids the end knows the id its counterpart picked. */
  ghost predicate PastIds(p: Peer, q: Peer, t: Table) {
    && p.s.s2qId != 0
    && |p.out| >= PAIR_ID_SIZE
    && p.got >= PAIR_ID_SIZE
    && q.phase != Idle
    && p.s.q2sId == q.s.s2qId
  }

  ghost predicate Inv(s: Ends, ta: Table, tb: Table) {
    PeerInv(s.a, s.b, ta) && PeerInv(s.b, s.a, tb)
  }

  lemma OutIsIds(q: Peer)
    requires q.out <= Script(q) && |q.out| >= PAIR_ID_SIZE
    ensures q.phase != Idle && AsId(q.out[..PAIR_ID_SIZE]) == q.s.s2qId
    ensures |q.out| >= 2 * PAIR_ID_SIZE ==>
              && q.phase != Ids
              && AsId(q.out[PAIR_ID_SIZE..2 * PAIR_ID_SIZE]) == q.s.q2sAck
  {
    assert q.out[..PAIR_ID_SIZE] == ToBe(q.s.s2qId, PAIR_ID_SIZE);
    IdRoundTrips(q.s.s2qId);
    if |q.out| >= 2 * PAIR_ID_SIZE {
      assert q.out[PAIR_ID_SIZE..2 * PAIR_ID_SIZE] == ToBe(q.s.q2sAck, PAIR_ID_SIZE);
      IdRoundTrips(q.s.q2sAck);
    }
  }

  /** A step of one end keeps what holds of that end. */
  lemma MoverKeepsInv(p: Peer, q: Peer, m: Move, t: Table)
    requires PeerInv(p, q, t) && q.out <= Script(q) && Enabled(p, q, m)
    ensures PeerInv(Apply(p, q, m), q, t)
  {
    if m.Lookup? || m.Finish? { OutIsIds(q); }
  }

  /** And what holds of the other. */
  lemma OtherKeepsInv(p: Peer, q: Peer, m: Move, t: Table)
    requires PeerInv(p, q, t) && Enabled(q, p, m) && q.out <= Script(q)
    ensures PeerInv(p, Apply(q, p, m), t)
  {
  }

  lemma StepKeepsInv(s: Ends, s': Ends, ta: Table, tb: Table)
    requires Inv(s, ta, tb) && Next(s, s')
    ensures Inv(s', ta, tb)
  {
    if m :| Enabled(s.a, s.b, m) && s' == s.(a := Apply(s.a, s.b, m)) {
      MoverKeepsInv(s.a, s.b, m, ta);
      OtherKeepsInv(s.b, s.a, m, tb);
    } else {
      var m :| Enabled(s.b, s.a, m) && s' == s.(b := Apply(s.b, s.a, m));
      MoverKeepsInv(s.b, s.a, m, tb);
      OtherKeepsInv(s.a, s.b, m, ta);
    }
  }

  lemma {:induction false} ReachableInv(run: seq<Ends>, ta: Table, tb: Table, i: nat)
    requires Execution(run, ta, tb) && i < |run|
    ensures Inv(run[i], ta, tb)
  {
    if i > 0 {
      ReachableInv(run, ta, tb, i - 1);
      StepKeepsInv(run[i - 1], run[i], ta, tb);
    }
  }

  /** A move that an unfinished end can make on its own or that its counterpart owes it. */
  lemma SomeMove(p: Peer, q: Peer, tp: Table, tq: Table) returns (m: Move, byOther: bool)
    requires PeerInv(p, q, tp) && PeerInv(q, p, tq) && p.phase != Done
    ensures if byOther then Enabled(q, p, m) else Enabled(p, q, m)
  {
    byOther := false;
    if p.phase == Idle {
      m := Pick(1);
    } else if |p.out| < |Script(p)| {
      m := Send(1);
    } else if p.got < |Script(p)| && p.got < |q.out| {
      m := Receive(1);
    } else if p.got == |Script(p)| {
      m := if p.phase == Ids then Lookup else Finish;
    } else {
      byOther := true;
      if q.phase == Idle {
        m := Pick(1);
      } else if |q.out| < |Script(q)| {
        m := Send(1);
      } else if q.got < PAIR_ID_SIZE {
        m := Receive(1);
      } else {
        m := Lookup;
      }
    }
  }

  /** No interleaving gets stuck: in every reachable state in which an end is not done, some
      end can make a step. */
  lemma NeverStuck(run: seq<Ends>, ta: Table, tb: Table)
    requires Execution(run, ta, tb)
    ensures var s := run[|run| - 1];
            s.a.phase != Done || s.b.phase != Done ==> exists s' :: Next(s, s')
  {
    var s := run[|run| - 1];
    ReachableInv(run, ta, tb, |run| - 1);
    if s.a.phase != Done || s.b.phase != Done {
      var m, byOther;
      if s.a.phase != Done {
        m, byOther := SomeMove(s.a, s.b, ta, tb);
      } else {
        m, byOther := SomeMove(s.b, s.a, tb, ta);
        byOther := !byOther;
      }
      var s' := if byOther then s.(b := Apply(s.b, s.a, m)) else s.(a := Apply(s.a, s.b, m));
      assert Next(s, s');
    }
  }

  function Work(p: Peer): (w: nat) {
    |p.out| + p.got + match p.phase case Idle => 0 case Ids => 1 case Acks => 2 case Done => 3
  }

  lemma MoveWorks(p: Peer, q: Peer, m: Move)
    requires Enabled(p, q, m)
    ensures Work(Apply(p, q, m)) > Work(p)
  {
  }

  lemma WorkIsBounded(p: Peer, q: Peer, t: Table)
    requires PeerInv(p, q, t)
    ensures Work(p) <= 67
  {
  }

  lemma StepWorks(s: Ends, s': Ends)
    requires Next(s, s')
    ensures Work(s'.a) + Work(s'.b) > Work(s.a) + Work(s.b)
  {
    if m :| Enabled(s.a, s.b, m) && s' == s.(a := Apply(s.a, s.b, m)) {
      MoveWorks(s.a, s.b, m);
    } else {
      var m :| Enabled(s.b, s.a, m) && s' == s.(b := Apply(s.b, s.a, m));
      MoveWorks(s.b, s.a, m);
    }
  }

  lemma {:induction false} WorkSoFar(run: seq<Ends>, ta: Table, tb: Table, i: nat)
    requires Execution(run, ta, tb) && i < |run|
    ensures i <= Work(run[i].a) + Work(run[i].b)
  {
    if i > 0 {
      WorkSoFar(run, ta, tb, i - 1);
      assert Next(run[i - 1], run[i]);
      StepWorks(run[i - 1], run[i]);
    }
  }

  /** And none goes on for ever: an execution has at most 134 steps. */
  lemma ExecutionsAreShort(run: seq<Ends>, ta: Table, tb: Table)
    requires Execution(run, ta, tb)
    ensures |run| - 1 <= 134
  {
    var n := |run| - 1;
    WorkSoFar(run, ta, tb, n);
    ReachableInv(run, ta, tb, n);
    WorkIsBounded(run[n].a, run[n].b, ta);
    WorkIsBounded(run[n].b, run[n].a, tb);
  }

  /** Every interleaving that runs to its end leaves both ends with the same thing: what
      `Settle` says, each end having been acknowledged as the other one's table decides. */
  lemma HandshakeOutcome(run: seq<Ends>, ta: Table, tb: Table)
    requires Execution(run, ta, tb)
    ensures var s := run[|run| - 1];
            s.a.phase == s.b.phase == Done ==>
              var ida, idb := s.a.s.s2qId, s.b.s.s2qId;
              && ida != 0 && idb != 0
              && s.a.s == Settle(ta, ida, idb, Ack(tb, idb, ida))
              && s.b.s == Settle(tb, idb, ida, Ack(ta, ida, idb))
  {
    ReachableInv(run, ta, tb, |run| - 1);
  }

  /** What a sender and its receiver can conclude from an acknowledgement. */
  ghost predicate AckMeans(sender: Settled, receiver: Settled, t: Table) {
    var id, ack := sender.s2qId, sender.s2qAck;
    && receiver.q2sId == id
    && receiver.q2sAck == ack
    && (ack == 0 || ack == id)
    && (ack == 0 ==> sender.s2q.log == [] && receiver.q2s == FRESH_CONTEXT)
    && (ack != 0 ==> id in t && id != receiver.s2qId && receiver.q2s == t[id])
    && (ack == 0 ==> id !in t || id == receiver.s2qId)
  }

  /** For all tables and all picks, the same pick at both ends included: each end's received
      acknowledgement is the one its peer sent and is zero or the id it sent; zero means a
      fresh encoder facing a fresh decoder; and not zero means that the receiver took the
      pair out of its own table under that id, which it does whenever it can. */
  lemma HandshakeAgrees(run: seq<Ends>, ta: Table, tb: Table)
    requires Execution(run, ta, tb)
    ensures var s := run[|run| - 1];
            s.a.phase == s.b.phase == Done ==>
              AckMeans(s.a.s, s.b.s, tb) && AckMeans(s.b.s, s.a.s, ta)
  {
    HandshakeOutcome(run, ta, tb);
  }
}
