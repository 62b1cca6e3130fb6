/** The code of two peers carrying one stream over their tables: handshake, both data loops
    at both ends, and what happens to the four pairs afterwards. Every such stream is one
    step of the reuse protocol. */
module PeerStreams {
  import opened Bytes
  import opened Zstd
  import opened CodecPairs
  import opened Handshake
  import opened CodecLoops
  import opened CodecTable
  import opened ReuseProtocol
  import opened StreamLegs

  // ------------------------------------------------------------ one end

  /** A pair that is with a stream: not in the table, and of the table's codec. */
  ghost predicate Out(lru: CodecLru, pair: CodecPair)
    reads lru
  {
    pair !in lru.cache.Values && pair.z == lru.z
  }

  method RetireOne(lru: CodecLru, id: Id, pair: CodecPair, how: Outcome)
    requires lru.Valid() && lru.Healthy() && id != 0 && Out(lru, pair) && !pair.errored
    requires Kept(how) ==> pair.Settled()
    modifies lru, pair`errored
    ensures lru.Valid() && lru.Healthy() && lru.cache.Values <= old(lru.cache.Values) + {pair}
    ensures lru.View() == if Kept(how) then old(lru.View())[id := pair.View()] else old(lru.View())
  {
    lru.Retire(id, pair, how);
  }

  // ------------------------------------------------------------ the handshake of both ends

  ghost function Pairs(r: HandshakeResult): (s: set<CodecPair>) {
    {r.s2qPair, r.q2sPair}
  }

  /** The objects of a peer: its table, the pairs in it and, with `r`, those out with a stream. */
  ghost function Own(lru: CodecLru): (s: set<object>)
    reads lru
  {
    var stored: set<object> := lru.cache.Values;
    {lru} + stored
  }

  ghost function Foot(lru: CodecLru, r: HandshakeResult): (s: set<object>)
    reads lru
  {
    var out: set<object> := Pairs(r);
    Own(lru) + out
  }

  /** A peer between streams, and one that has finished its handshake. */
  ghost predicate Sound(lru: CodecLru)
    reads lru, lru.cache.Values
  {
    lru.Valid() && lru.Healthy()
  }

  ghost predicate Ready(lru: CodecLru, r: HandshakeResult)
    reads lru, lru.cache.Values, Pairs(r)
  {
    && Sound(lru) && Out(lru, r.s2qPair) && Out(lru, r.q2sPair) && r.s2qPair != r.q2sPair
    && r.s2qPair.Settled() && r.q2sPair.Settled() && !r.s2qPair.errored && !r.q2sPair.errored
    && r.s2qId != 0
  }

  /** What `sent` says: an id and an acknowledgement. */
  predicate Says(sent: bytes, id: Id, ack: Id) {
    sent == ToBe(id, PAIR_ID_SIZE) + ToBe(ack, PAIR_ID_SIZE)
  }

  lemma Heard(sent: bytes, id: Id, ack: Id)
    requires Says(sent, id, ack)
    ensures |sent| == 2 * PAIR_ID_SIZE
    ensures AsId(sent[..PAIR_ID_SIZE]) == id && AsId(sent[PAIR_ID_SIZE..2 * PAIR_ID_SIZE]) == ack
  {
    assert sent[..PAIR_ID_SIZE] == ToBe(id, PAIR_ID_SIZE);
    assert sent[PAIR_ID_SIZE..2 * PAIR_ID_SIZE] == ToBe(ack, PAIR_ID_SIZE);
    IdRoundTrips(id);
    IdRoundTrips(ack);
  }

  /** What an end can pick: an entry of its table, which its walk comes to first, or a new id
      when there is none. */
  predicate CanPick(lru: CodecLru, pick: Id)
    reads lru
  {
    pick != 0 && forall id :: id in lru.cache ==> pick in lru.cache
  }

  /** One end of the handshake, whose remote says `theirs` and `acked`. */
  method Exchange(lru: CodecLru, pick: Id, theirs: Id, acked: Id) returns (r: HandshakeResult, sent: bytes)
    requires Sound(lru) && CanPick(lru, pick)
    modifies Own(lru)
    ensures Ready(lru, r) && fresh(Foot(lru, r) - old(Own(lru)))
    ensures lru.EndOf(r) == Settle(old(lru.View()), pick, theirs, acked)
    ensures Says(sent, pick, r.q2sAck)
  {
    var incoming := ToBe(theirs, PAIR_ID_SIZE) + ToBe(acked, PAIR_ID_SIZE);
    Heard(incoming, theirs, acked);
    if pick !in lru.cache { assert lru.cache == map[]; }
    var end;
    end, sent := lru.ExchangePairId(incoming, pick, pick);
    r := end.value;
  }

  /** The same beside a peer that has not begun its own, and leaves that alone. */
  method ExchangeFirst(lru: CodecLru, pick: Id, theirs: Id, acked: Id, ghost other: CodecLru)
    returns (r: HandshakeResult)
    requires Sound(lru) && CanPick(lru, pick) && Sound(other) && Own(lru) !! Own(other)
    modifies Own(lru)
    ensures Sound(other) && other.View() == old(other.View()) && Own(other) == old(Own(other))
    ensures Ready(lru, r) && fresh(Foot(lru, r) - old(Own(lru))) && Own(other) !! Foot(lru, r)
    ensures lru.EndOf(r) == Settle(old(lru.View()), pick, theirs, acked)
  {
    var sent;
    r, sent := Exchange(lru, pick, theirs, acked);
  }

  /** And beside one that has finished it. */
  method ExchangeSecond(lru: CodecLru, pick: Id, theirs: Id, acked: Id, ghost other: CodecLru,
                        ghost ro: HandshakeResult)
    returns (r: HandshakeResult)
    requires Sound(lru) && CanPick(lru, pick) && Ready(other, ro) && Own(lru) !! Foot(other, ro)
    modifies Own(lru)
    ensures Ready(other, ro) && other.EndOf(ro) == old(other.EndOf(ro))
    ensures Foot(other, ro) == old(Foot(other, ro))
    ensures Ready(lru, r) && fresh(Foot(lru, r) - old(Own(lru))) && Foot(lru, r) !! Foot(other, ro)
    ensures lru.EndOf(r) == Settle(old(lru.View()), pick, theirs, acked)
  {
    var sent;
    r, sent := Exchange(lru, pick, theirs, acked);
    assert Foot(other, ro) == old(Foot(other, ro));
    forall o | o in Foot(lru, r) ensures o !in Foot(other, ro) {
      assert o in old(Own(lru)) || fresh(o);
    }
  }

  /** Two peers that share no objects, between streams and with a stream under way. */
  ghost predicate Apart(a: CodecLru, b: CodecLru)
    reads a, b, a.cache.Values, b.cache.Values
  {
    Sound(a) && Sound(b) && a.z == b.z && Own(a) !! Own(b)
  }

  ghost predicate Flowing(a: CodecLru, b: CodecLru, ra: HandshakeResult, rb: HandshakeResult)
    reads a, b, a.cache.Values, b.cache.Values, Pairs(ra), Pairs(rb)
  {
    Ready(a, ra) && Ready(b, rb) && a.z == b.z && Foot(a, ra) !! Foot(b, rb)
  }

  /** Two ends that know each other's picks and answers are the two ends of the protocol. */
  ghost predicate Met(ta: Table, tb: Table, ea: Settled, eb: Settled) {
    && ea == Settle(ta, ea.s2qId, eb.s2qId, Ack(tb, eb.s2qId, ea.s2qId))
    && eb == Settle(tb, eb.s2qId, ea.s2qId, Ack(ta, ea.s2qId, eb.s2qId))
  }

  /** The answer of an end to the pick of the other. */
  function Answer(lru: CodecLru, mine: Id, theirs: Id): (ack: Id)
    requires lru.Valid()
    reads lru, lru.cache.Values
    ensures ack == Ack(lru.View(), mine, theirs)
  {
    if theirs != mine && theirs in lru.cache then theirs else 0
  }

  /** The handshake of two peers, whatever they pick: each is told what the other says. */
  method Meet(a: CodecLru, b: CodecLru, idA: Id, idB: Id) returns (ra: HandshakeResult, rb: HandshakeResult)
    requires Apart(a, b) && CanPick(a, idA) && CanPick(b, idB)
    modifies Own(a), Own(b)
    ensures Flowing(a, b, ra, rb) && ra.s2qId == rb.q2sId == idA && rb.s2qId == ra.q2sId == idB
    ensures fresh(Foot(a, ra) - old(Own(a))) && fresh(Foot(b, rb) - old(Own(b)))
    ensures Met(old(a.View()), old(b.View()), a.EndOf(ra), b.EndOf(rb))
  {
    ghost var ta, tb := a.View(), b.View();
    var ackA := Answer(a, idA, idB);
    var ackB := Answer(b, idB, idA);
    ghost var ownB := Own(b);
    ra := ExchangeFirst(a, idA, idB, ackB, b);
    ghost var ea := a.EndOf(ra);
    assert ea == Settle(ta, idA, idB, ackB);
    rb := ExchangeSecond(b, idB, idA, ackA, a, ra);
    ghost var eb := b.EndOf(rb);
    assert eb == Settle(tb, idB, idA, ackA);
    MetBySteps(ta, tb, ea, eb, idA, idB, ackA, ackB);
    forall o | o in Foot(b, rb) - ownB ensures fresh(o) {}
  }

  lemma MetBySteps(ta: Table, tb: Table, ea: Settled, eb: Settled, idA: Id, idB: Id, ackA: Id, ackB: Id)
    requires ackA == Ack(ta, idA, idB) && ackB == Ack(tb, idB, idA)
    requires ea == Settle(ta, idA, idB, ackB) && eb == Settle(tb, idB, idA, ackA)
    ensures Met(ta, tb, ea, eb) && ea.s2qId == eb.q2sId == idA && eb.s2qId == ea.q2sId == idB
  {
  }

  // ------------------------------------------------------------ the data of both directions

  /** A peer whose data tasks have ended with these outcomes. */
  ghost predicate Ended(lru: CodecLru, r: HandshakeResult, sent: Outcome, received: Outcome)
    reads lru, lru.cache.Values, Pairs(r)
  {
    && Sound(lru) && Out(lru, r.s2qPair) && Out(lru, r.q2sPair) && r.s2qPair != r.q2sPair
    && !r.s2qPair.errored && !r.q2sPair.errored && r.s2qId != 0 && r.q2sId != 0
    && (Kept(sent) ==> r.s2qPair.Settled()) && (Kept(received) ==> r.q2sPair.Settled())
  }

  /** The two tasks of a direction work on pairs that are in no table, and leave tables alone. */
  method RunLegBesideOne(lru: CodecLru, sender: CodecPair, receiver: CodecPair, t: Traffic)
    returns (f: Flowed, ghost leg: Leg)
    requires sender != receiver && sender.z == receiver.z
    requires sender.Settled() && receiver.Settled()
    requires Sound(lru) && {sender, receiver} !! lru.cache.Values
    modifies sender`encoder, receiver`decoder
    ensures sender.Settled() && (Kept(f.received) ==> receiver.Settled())
    ensures leg.sent == f.sent && leg.received == f.received
    ensures Ran(sender.z, old(sender.View()), old(receiver.View()), sender.View(), receiver.View(), leg, t, f.output)
    ensures Sound(lru) && lru.View() == old(lru.View())
  {
    f, leg := RunLeg(sender, receiver, t);
    assert lru.View() == old(lru.View());
  }

  method RunLegBeside(a: CodecLru, b: CodecLru, sender: CodecPair, receiver: CodecPair, t: Traffic)
    returns (f: Flowed, ghost leg: Leg)
    requires sender != receiver && sender.z == receiver.z
    requires sender.Settled() && receiver.Settled()
    requires Sound(a) && Sound(b) && {sender, receiver} !! a.cache.Values && {sender, receiver} !! b.cache.Values
    modifies sender`encoder, receiver`decoder
    ensures sender.Settled() && (Kept(f.received) ==> receiver.Settled())
    ensures leg.sent == f.sent && leg.received == f.received
    ensures Ran(sender.z, old(sender.View()), old(receiver.View()), sender.View(), receiver.View(), leg, t, f.output)
    ensures Sound(a) && Sound(b) && a.View() == old(a.View()) && b.View() == old(b.View())
  {
    f, leg := RunLegBesideOne(a, sender, receiver, t);
    assert b.View() == old(b.View());
  }

  lemma FourPairs(a: CodecLru, b: CodecLru, ra: HandshakeResult, rb: HandshakeResult)
    requires Flowing(a, b, ra, rb)
    ensures Pairs(ra) !! Pairs(rb)
    ensures Pairs(ra) !! a.cache.Values && Pairs(ra) !! b.cache.Values
    ensures Pairs(rb) !! a.cache.Values && Pairs(rb) !! b.cache.Values
  {
    assert forall p :: p in Pairs(ra) ==> p in Foot(a, ra);
    assert forall p :: p in Pairs(rb) ==> p in Foot(b, rb);
    assert forall p :: p in a.cache.Values ==> p in Foot(a, ra);
    assert forall p :: p in b.cache.Values ==> p in Foot(b, rb);
  }

  /** All four data tasks of a stream. */
  method Carry(a: CodecLru, b: CodecLru, ra: HandshakeResult, rb: HandshakeResult, ab: Traffic, ba: Traffic)
    returns (fAB: Flowed, fBA: Flowed, ghost legAB: Leg, ghost legBA: Leg)
    requires Flowing(a, b, ra, rb)
    requires ra.q2sId != 0 && rb.q2sId != 0
    modifies ra.s2qPair`encoder, rb.q2sPair`decoder, rb.s2qPair`encoder, ra.q2sPair`decoder
    ensures legAB.sent == fAB.sent && legAB.received == fAB.received
    ensures legBA.sent == fBA.sent && legBA.received == fBA.received
    ensures Ended(a, ra, fAB.sent, fBA.received) && Ended(b, rb, fBA.sent, fAB.received)
    ensures a.View() == old(a.View()) && b.View() == old(b.View())
    ensures Ran(a.z, old(ra.s2qPair.View()), old(rb.q2sPair.View()), ra.s2qPair.View(), rb.q2sPair.View(),
                legAB, ab, fAB.output)
    ensures Ran(a.z, old(rb.s2qPair.View()), old(ra.q2sPair.View()), rb.s2qPair.View(), ra.q2sPair.View(),
                legBA, ba, fBA.output)
  {
    FourPairs(a, b, ra, rb);
    fAB, legAB := RunLegBeside(a, b, ra.s2qPair, rb.q2sPair, ab);
    fBA, legBA := RunLegBeside(a, b, rb.s2qPair, ra.q2sPair, ba);
  }

  /** The table that the protocol says a peer is left with. */
  ghost function Left(t: Table, r: HandshakeResult, out: Context, sent: Outcome, incoming: Context, received: Outcome,
                      senderLast: bool): (t': Table)
  {
    if senderLast then CheckIns(t, r.q2sId, incoming, Kept(received), r.s2qId, out, Kept(sent))
    else CheckIns(t, r.s2qId, out, Kept(sent), r.q2sId, incoming, Kept(received))
  }

  /** The ends of both tasks of a peer, in either order. */
  method RetireBoth(lru: CodecLru, r: HandshakeResult, sent: Outcome, received: Outcome, senderLast: bool)
    requires Ended(lru, r, sent, received)
    modifies lru, Pairs(r)
    ensures Sound(lru) && Own(lru) <= old(Foot(lru, r))
    ensures lru.View() == Left(old(lru.View()), r, old(r.s2qPair.View()), sent, old(r.q2sPair.View()), received,
                               senderLast)
  {
    if senderLast {
      RetireOne(lru, r.q2sId, r.q2sPair, received);
      RetireOne(lru, r.s2qId, r.s2qPair, sent);
    } else {
      RetireOne(lru, r.s2qId, r.s2qPair, sent);
      RetireOne(lru, r.q2sId, r.q2sPair, received);
    }
  }

  /** One peer retires its pairs beside one that still has to. */
  method FinishFirst(lru: CodecLru, r: HandshakeResult, sent: Outcome, received: Outcome, senderLast: bool,
                     ghost other: CodecLru, ghost ro: HandshakeResult, ghost sentO: Outcome, ghost receivedO: Outcome)
    requires Ended(lru, r, sent, received) && Ended(other, ro, sentO, receivedO) && Foot(lru, r) !! Foot(other, ro)
    modifies lru, Pairs(r)
    ensures Sound(lru) && Own(lru) <= old(Foot(lru, r))
    ensures lru.View() == Left(old(lru.View()), r, old(r.s2qPair.View()), sent, old(r.q2sPair.View()), received,
                               senderLast)
    ensures Ended(other, ro, sentO, receivedO) && Foot(other, ro) == old(Foot(other, ro))
    ensures other.View() == old(other.View())
    ensures ro.s2qPair.View() == old(ro.s2qPair.View()) && ro.q2sPair.View() == old(ro.q2sPair.View())
  {
    RetireBoth(lru, r, sent, received, senderLast);
  }

  /** And beside one that has. */
  method FinishSecond(lru: CodecLru, r: HandshakeResult, sent: Outcome, received: Outcome, senderLast: bool,
                      ghost other: CodecLru)
    requires Ended(lru, r, sent, received) && Sound(other) && Foot(lru, r) !! Own(other)
    modifies lru, Pairs(r)
    ensures Sound(lru) && Own(lru) <= old(Foot(lru, r))
    ensures lru.View() == Left(old(lru.View()), r, old(r.s2qPair.View()), sent, old(r.q2sPair.View()), received,
                               senderLast)
    ensures Sound(other) && other.View() == old(other.View()) && Own(other) == old(Own(other))
  {
    RetireBoth(lru, r, sent, received, senderLast);
  }

  // ------------------------------------------------------------ whole streams

  /** What a stream wrote to the local streams of both peers. */
  datatype Output = Output(ab: bytes, ba: bytes)

  ghost predicate ShowsBoth(z: Codec, s: Peers, x: Stream, out: Output)
    requires Lawful(z)
  {
    var ea, eb := EndA(s, x), EndB(s, x);
    && Shown(z, eb.q2s.fed, Reaches(z, ea.s2q.log, x.ab), x.ab.received, out.ab)
    && Shown(z, ea.q2s.fed, Reaches(z, eb.s2q.log, x.ba), x.ba.received, out.ba)
  }

  /** What happens to two peers: a stream, or one of them losing an entry of its table. */
  datatype Job =
    | Carried(newA: Id, newB: Id, ab: Traffic, ba: Traffic, aSenderLast: bool, bSenderLast: bool)
    | Evicted(side: Side, id: Id)

  /** Both directions of the stream are what the traffic of the job makes of them. */
  ghost predicate IsStreamOf(z: Codec, s: Peers, x: Stream, job: Job)
    requires Lawful(z) && job.Carried?
  {
    var ea, eb := EndA(s, x), EndB(s, x);
    && LegOf(z, ea.s2q.log, eb.q2s.fed, x.ab, job.ab) && LegOf(z, eb.s2q.log, ea.q2s.fed, x.ba, job.ba)
    && x.aSenderLast == job.aSenderLast && x.bSenderLast == job.bSenderLast
  }

  /** What a stream has done to both peers is a step of the protocol. */
  lemma StreamIsAnEvent(z: Codec, s: Peers, x: Stream, ea: Settled, eb: Settled, ra: HandshakeResult,
                        rb: HandshakeResult, outA: Context, inA: Context, outB: Context, inB: Context, job: Job,
                        out: Output)
    requires Lawful(z) && Met(s.a, s.b, ea, eb)
    requires x.idA == ea.s2qId && x.idB == eb.s2qId && LegalPick(s.a, s.b, x.idA) && LegalPick(s.b, s.a, x.idB)
    requires ra.s2qId == rb.q2sId == x.idA && rb.s2qId == ra.q2sId == x.idB
    requires job.Carried? && x.aSenderLast == job.aSenderLast && x.bSenderLast == job.bSenderLast
    requires Ran(z, ea.s2q, eb.q2s, outA, inB, x.ab, job.ab, out.ab)
    requires Ran(z, eb.s2q, ea.q2s, outB, inA, x.ba, job.ba, out.ba)
    ensures Legal(z, s, x) && IsStreamOf(z, s, x, job) && ShowsBoth(z, s, x, out)
    ensures var s' := After(z, s, Streamed(x));
            && s'.a == Left(ea.table, ra, outA, x.ab.sent, inA, x.ba.received, x.aSenderLast)
            && s'.b == Left(eb.table, rb, outB, x.ba.sent, inB, x.ab.received, x.bSenderLast)
  {
    assert EndA(s, x) == ea && EndB(s, x) == eb;
  }

  /** What the protocol leaves at both peers is what they still have to do to their tables. */
  ghost predicate LeftAtBoth(s': Peers, a: CodecLru, b: CodecLru, ra: HandshakeResult, rb: HandshakeResult,
                             fAB: Flowed, fBA: Flowed, job: Job)
    requires job.Carried?
    reads a, b, a.cache.Values, b.cache.Values, Pairs(ra), Pairs(rb)
  {
    && s'.a == Left(a.View(), ra, ra.s2qPair.View(), fAB.sent, ra.q2sPair.View(), fBA.received, job.aSenderLast)
    && s'.b == Left(b.View(), rb, rb.s2qPair.View(), fBA.sent, rb.q2sPair.View(), fAB.received, job.bSenderLast)
  }

  /** The data tasks of a stream after its handshake are an event of the protocol. */
  method CarryJob(a: CodecLru, b: CodecLru, ra: HandshakeResult, rb: HandshakeResult, job: Job, ghost s: Peers)
    returns (fAB: Flowed, fBA: Flowed, ghost x: Stream)
    requires Flowing(a, b, ra, rb) && job.Carried?
    requires ra.s2qId == rb.q2sId && rb.s2qId == ra.q2sId
    requires Met(s.a, s.b, a.EndOf(ra), b.EndOf(rb))
    requires LegalPick(s.a, s.b, ra.s2qId) && LegalPick(s.b, s.a, rb.s2qId)
    modifies ra.s2qPair`encoder, rb.q2sPair`decoder, rb.s2qPair`encoder, ra.q2sPair`decoder
    ensures Ended(a, ra, fAB.sent, fBA.received) && Ended(b, rb, fBA.sent, fAB.received)
    ensures Legal(a.z, s, x) && IsStreamOf(a.z, s, x, job) && ShowsBoth(a.z, s, x, Output(fAB.output, fBA.output))
    ensures LeftAtBoth(After(a.z, s, Streamed(x)), a, b, ra, rb, fAB, fBA, job)
  {
    ghost var ea, eb := a.EndOf(ra), b.EndOf(rb);
    ghost var legAB, legBA;
    fAB, fBA, legAB, legBA := Carry(a, b, ra, rb, job.ab, job.ba);
    x := Stream(ra.s2qId, rb.s2qId, legAB, legBA, job.aSenderLast, job.bSenderLast);
    StreamIsAnEvent(a.z, s, x, ea, eb, ra, rb, ra.s2qPair.View(), ra.q2sPair.View(), rb.s2qPair.View(),
                    rb.q2sPair.View(), job, Output(fAB.output, fBA.output));
  }

  /** The ends of the tasks of both peers. */
  method FinishBoth(a: CodecLru, b: CodecLru, ra: HandshakeResult, rb: HandshakeResult, fAB: Flowed, fBA: Flowed,
                    job: Job, ghost s': Peers)
    requires Ended(a, ra, fAB.sent, fBA.received) && Ended(b, rb, fBA.sent, fAB.received) && job.Carried?
    requires Foot(a, ra) !! Foot(b, rb) && a.z == b.z && LeftAtBoth(s', a, b, ra, rb, fAB, fBA, job)
    modifies a, b, Pairs(ra), Pairs(rb)
    ensures Apart(a, b) && Own(a) <= old(Foot(a, ra)) && Own(b) <= old(Foot(b, rb))
    ensures s'.a == a.View() && s'.b == b.View()
  {
    FinishFirst(a, ra, fAB.sent, fBA.received, job.aSenderLast, b, rb, fBA.sent, fAB.received);
    FinishSecond(b, rb, fBA.sent, fAB.received, job.bSenderLast, a);
  }

  /** All of a stream after its handshake. */
  method CarryAndFinish(a: CodecLru, b: CodecLru, ra: HandshakeResult, rb: HandshakeResult, job: Job, ghost s: Peers)
    returns (out: Output, ghost x: Stream)
    requires Flowing(a, b, ra, rb) && job.Carried?
    requires ra.s2qId == rb.q2sId && rb.s2qId == ra.q2sId
    requires Met(s.a, s.b, a.EndOf(ra), b.EndOf(rb))
    requires LegalPick(s.a, s.b, ra.s2qId) && LegalPick(s.b, s.a, rb.s2qId)
    modifies a, b, Pairs(ra), Pairs(rb)
    ensures Apart(a, b) && Own(a) <= old(Foot(a, ra)) && Own(b) <= old(Foot(b, rb))
    ensures Legal(a.z, s, x) && IsStreamOf(a.z, s, x, job) && ShowsBoth(a.z, s, x, out)
    ensures After(a.z, s, Streamed(x)).a == a.View() && After(a.z, s, Streamed(x)).b == b.View()
  {
    var fAB, fBA;
    fAB, fBA, x := CarryJob(a, b, ra, rb, job, s);
    FinishBoth(a, b, ra, rb, fAB, fBA, job, After(a.z, s, Streamed(x)));
    out := Output(fAB.output, fBA.output);
  }

  /** One stream between two peers. */
  method RunStream(a: CodecLru, b: CodecLru, job: Job, idA: Id, idB: Id, ghost s: Peers)
    returns (out: Output, ghost x: Stream)
    requires Apart(a, b) && job.Carried?
    requires CanPick(a, idA) && CanPick(b, idB) && LegalPick(s.a, s.b, idA) && LegalPick(s.b, s.a, idB)
    requires s.a == a.View() && s.b == b.View()
    modifies Own(a), Own(b)
    ensures fresh(Own(a) - old(Own(a))) && fresh(Own(b) - old(Own(b)))
    ensures Apart(a, b) && Legal(a.z, s, x) && IsStreamOf(a.z, s, x, job) && ShowsBoth(a.z, s, x, out)
    ensures After(a.z, s, Streamed(x)).a == a.View() && After(a.z, s, Streamed(x)).b == b.View()
  {
    var ra, rb := Meet(a, b, idA, idB);
    out, x := CarryAndFinish(a, b, ra, rb, job, s);
  }
}
