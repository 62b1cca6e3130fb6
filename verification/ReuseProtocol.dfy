/** Codec pairs used over and over by two peers.

    Two tables, streams over them one after another, entries lost from either table at any
    time, and every way in which the data tasks of a stream can end. Each direction of each
    pair has a status that follows from the events alone; the theorems say that the status
    is right, and what a status means for the bytes a stream delivers. */
module ReuseProtocol {
  import opened Bytes
  import opened Zstd
  import opened CodecPairs
  import opened Handshake
  import opened CodecLoops
  import opened CodecPump

  /** What the events say about one direction of a pair that is in both tables: the
      receiver's decoder has been fed exactly the sender's wire, or certainly not, or
      neither can be told. */
  datatype Status = Synced | Stale | Unknown

  datatype Side = A | B

  /** The two directions of a pair: from A to B and from B to A. */
  datatype Know = Know(ab: Status, ba: Status)

  /** The tables, and a history of the events that the protocol itself never looks at: the
      status of each pair and the side that last sent over it. */
  datatype Peers = Peers(a: Table, b: Table, know: map<Id, Know>, last: map<Id, Side>)

  /** One direction of a stream: the calls its encoder loop makes, how that loop ends, how
      many of the wire bytes arrive before the decoder loop ends, and how that one ends. */
  datatype Leg = Leg(ops: seq<Op>, sent: Outcome, arrived: nat, received: Outcome)

  /** A stream: the ids both ends pick, its two directions, and for the case that the picks
      are equal which of an end's two tasks checks its pair in last. */
  datatype Stream = Stream(idA: Id, idB: Id, ab: Leg, ba: Leg, aSenderLast: bool, bSenderLast: bool)

  datatype Event = Lost(side: Side, id: Id) | Streamed(stream: Stream)

  /** The outcomes after which a task checks its pair back in. */
  predicate Kept(out: Outcome) {
    out == CleanEof || out == IoError
  }

  ghost predicate InStep(z: Codec, log: seq<Op>, fed: bytes) {
    fed == z.wire(log)
  }

  ghost predicate Holds(z: Codec, st: Status, log: seq<Op>, fed: bytes) {
    match st
    case Synced => InStep(z, log, fed)
    case Stale => !InStep(z, log, fed)
    case Unknown => true
  }

  /** The wire bytes of a leg that reach the decoder. */
  ghost function Reaches(z: Codec, log: seq<Op>, leg: Leg): (w: bytes)
    requires Lawful(z)
  {
    var w := Sent(z, log, leg.ops);
    if leg.arrived <= |w| then w[..leg.arrived] else w
  }

  /** A leg that the loops can produce between an encoder and a decoder in these states: a
      clean end of the encoder is a flush; a clean end of the decoder has seen all that a
      surviving encoder sent; and a surviving decoder could decode what reached it. */
  ghost predicate Possible(z: Codec, log: seq<Op>, fed: bytes, leg: Leg)
    requires Lawful(z)
  {
    && leg.arrived <= |Sent(z, log, leg.ops)|
    && (leg.sent == CleanEof ==> EndsInFlush(leg.ops))
    && (Kept(leg.sent) && leg.received == CleanEof ==> leg.arrived == |Sent(z, log, leg.ops)|)
    && (Kept(leg.received) ==> Decodable(z, fed + Reaches(z, log, leg)))
  }

  /** The ends of a stream after its handshake. */
  function EndA(s: Peers, x: Stream): (e: Settled) {
    Settle(s.a, x.idA, x.idB, Ack(s.b, x.idB, x.idA))
  }

  function EndB(s: Peers, x: Stream): (e: Settled) {
    Settle(s.b, x.idB, x.idA, Ack(s.a, x.idA, x.idB))
  }

  /** An end picks an id of its own table or one that neither table knows. */
  predicate LegalPick(mine: Table, theirs: Table, id: Id) {
    id != 0 && (id in mine || id !in theirs)
  }

  ghost predicate Legal(z: Codec, s: Peers, x: Stream)
    requires Lawful(z)
  {
    && LegalPick(s.a, s.b, x.idA)
    && LegalPick(s.b, s.a, x.idB)
    && Possible(z, EndA(s, x).s2q.log, EndB(s, x).q2s.fed, x.ab)
    && Possible(z, EndB(s, x).s2q.log, EndA(s, x).q2s.fed, x.ba)
  }

  /** A table after both tasks of a stream have ended. */
  function CheckIns(t: Table, first: Id, c1: Context, keep1: bool, second: Id, c2: Context, keep2: bool): (t': Table) {
    var t1 := if keep1 then t[first := c1] else t;
    if keep2 then t1[second := c2] else t1
  }

  function Sender(c: Context, leg: Leg): (c': Context) {
    c.(log := c.log + leg.ops)
  }

  ghost function Receiver(z: Codec, c: Context, log: seq<Op>, leg: Leg): (c': Context)
    requires Lawful(z)
  {
    c.(fed := c.fed + Reaches(z, log, leg))
  }

  ghost function TableAfter(z: Codec, e: Settled, out: Leg, incoming: Leg, theirLog: seq<Op>, senderLast: bool)
    : (t: Table)
    requires Lawful(z)
  {
    var s2q, q2s := Sender(e.s2q, out), Receiver(z, e.q2s, theirLog, incoming);
    if senderLast
    then CheckIns(e.table, e.q2sId, q2s, Kept(incoming.received), e.s2qId, s2q, Kept(out.sent))
    else CheckIns(e.table, e.s2qId, s2q, Kept(out.sent), e.q2sId, q2s, Kept(incoming.received))
  }

  // ------------------------------------------------------------ the status of a direction

  function Known(s: Peers, id: Id): (k: Know) {
    if id in s.know then s.know[id] else Know(Unknown, Unknown)
  }

  /** The direction a leg runs in: a hit goes on from its status, a miss starts in step, and
      either falls out of step when part of the wire never arrives. */
  ghost function UsedStatus(z: Codec, hit: bool, before: Status, log: seq<Op>, leg: Leg): (st: Status)
    requires Lawful(z)
  {
    var start := if hit then before else Synced;
    if leg.arrived == |Sent(z, log, leg.ops)| then start
    else if start == Synced then Stale
    else Unknown
  }

  /** The direction against it: a hit leaves it alone; a miss faces the sender's decoder,
      which is not reset, with a fresh encoder. */
  function ReverseStatus(hit: bool, before: Status, senderFed: bytes): (st: Status) {
    if hit then before else if senderFed == [] then Synced else Stale
  }

  /** With equal picks an end checks two pairs in under one id. Whether it is left with the one
      that sent, if it is left with any. */
  predicate SenderStays(senderLast: bool, sent: Outcome, received: Outcome) {
    if senderLast then Kept(sent) else !Kept(received)
  }

  predicate SenderStaysAtA(x: Stream) {
    SenderStays(x.aSenderLast, x.ab.sent, x.ba.received)
  }

  predicate SenderStaysAtB(x: Stream) {
    SenderStays(x.bSenderLast, x.ba.sent, x.ab.received)
  }

  /** A fresh encoder that sent `w` faces a decoder that was fed `fed` at other times. */
  function UnrelatedStatus(w: bytes, fed: bytes): (st: Status) {
    if w != [] && fed != [] then Unknown else if w == fed then Synced else Stale
  }

  /** Equal picks, which miss at both ends: a sender facing its receiver is an ordinary miss;
      two receivers have encoders that never wrote; and two senders belong to different
      directions, of which only an unused one tells anything. */
  ghost function ClashStatus(z: Codec, s: Peers, x: Stream): (k: Know)
    requires Lawful(z)
  {
    var ea, eb := EndA(s, x), EndB(s, x);
    match (SenderStaysAtA(x), SenderStaysAtB(x))
    case (true, false) =>
      Know(UsedStatus(z, false, Unknown, ea.s2q.log, x.ab), ReverseStatus(false, Unknown, ea.s2q.fed))
    case (false, true) =>
      Know(ReverseStatus(false, Unknown, eb.s2q.fed), UsedStatus(z, false, Unknown, eb.s2q.log, x.ba))
    case (false, false) =>
      Know(ReverseStatus(false, Unknown, Reaches(z, ea.s2q.log, x.ab)),
           ReverseStatus(false, Unknown, Reaches(z, eb.s2q.log, x.ba)))
    case (true, true) =>
      Know(UnrelatedStatus(Sent(z, ea.s2q.log, x.ab.ops), eb.s2q.fed),
           UnrelatedStatus(Sent(z, eb.s2q.log, x.ba.ops), ea.s2q.fed))
  }

  ghost function KnowAfter(z: Codec, s: Peers, x: Stream): (know: map<Id, Know>)
    requires Lawful(z)
  {
    if x.idA == x.idB then s.know[x.idA := ClashStatus(z, s, x)]
    else
      var ea, eb := EndA(s, x), EndB(s, x);
      var ka, kb := Known(s, x.idA), Known(s, x.idB);
      var hitA, hitB := ea.s2qAck != 0, eb.s2qAck != 0;
      s.know
      [x.idA := Know(UsedStatus(z, hitA, ka.ab, ea.s2q.log, x.ab),
                     ReverseStatus(hitA, ka.ba, ea.s2q.fed))]
      [x.idB := Know(ReverseStatus(hitB, kb.ab, eb.s2q.fed),
                     UsedStatus(z, hitB, kb.ba, eb.s2q.log, x.ba))]
  }

  /** The side that sent over each pair last; with equal picks, the side left with a sender. */
  function LastAfter(s: Peers, x: Stream): (last: map<Id, Side>) {
    if x.idA == x.idB then s.last[x.idA := if SenderStaysAtA(x) then A else B]
    else s.last[x.idA := A][x.idB := B]
  }

  ghost function After(z: Codec, s: Peers, e: Event): (s': Peers)
    requires Lawful(z)
  {
    match e
    case Lost(A, id) => s.(a := s.a - {id})
    case Lost(B, id) => s.(b := s.b - {id})
    case Streamed(x) =>
      var ea, eb := EndA(s, x), EndB(s, x);
      Peers(TableAfter(z, ea, x.ab, x.ba, eb.s2q.log, x.aSenderLast),
          TableAfter(z, eb, x.ba, x.ab, ea.s2q.log, x.bSenderLast),
          KnowAfter(z, s, x),
          LastAfter(s, x))
  }

  ghost predicate Can(z: Codec, s: Peers, e: Event)
    requires Lawful(z)
  {
    e.Streamed? ==> Legal(z, s, e.stream)
  }

  const START: Peers := Peers(map[], map[], map[], map[])

  /** The state after a run of events from empty tables. */
  ghost function State(z: Codec, run: seq<Event>): (s: Peers)
    requires Lawful(z)
  {
    if run == [] then START else After(z, State(z, run[..|run| - 1]), run[|run| - 1])
  }

  ghost predicate Run(z: Codec, run: seq<Event>)
    requires Lawful(z)
  {
    run != [] ==> Run(z, run[..|run| - 1]) && Can(z, State(z, run[..|run| - 1]), run[|run| - 1])
  }

  // ------------------------------------------------------------ the status is right

  ghost predicate PairInv(z: Codec, s: Peers, id: Id) {
    id in s.a && id in s.b ==>
      && Holds(z, Known(s, id).ab, s.a[id].log, s.b[id].fed)
      && Holds(z, Known(s, id).ba, s.b[id].log, s.a[id].fed)
  }

  ghost predicate Inv(z: Codec, s: Peers) {
    forall id: Id :: PairInv(z, s, id)
  }

  /** A leg moves the sender's wire and the receiver's input on together. */
  lemma LegMovesStatus(z: Codec, st: Status, log: seq<Op>, fed: bytes, leg: Leg)
    requires Lawful(z) && Holds(z, st, log, fed)
    requires leg.arrived <= |Sent(z, log, leg.ops)|
    ensures Holds(z, UsedStatus(z, true, st, log, leg), log + leg.ops, fed + Reaches(z, log, leg))
  {
    var w := Sent(z, log, leg.ops);
    assert z.wire(log + leg.ops) == z.wire(log) + w;
    if leg.arrived == |w| {
      assert Reaches(z, log, leg) == w;
      SameTail(fed, z.wire(log), w);
    } else if st == Synced {
      assert |fed + Reaches(z, log, leg)| < |z.wire(log + leg.ops)|;
    }
  }

  lemma SameTail(x: bytes, y: bytes, w: bytes)
    ensures x + w == y + w <==> x == y
  {
    if x + w == y + w {
      assert |x| == |y|;
      assert x == (x + w)[..|x|] == (y + w)[..|y|] == y;
    }
  }

  /** Both directions of the pair that `sender` picked, after a stream in which the other end
      picked something else. */
  lemma UsedPairStatus(z: Codec, mine: Table, theirs: Table, id: Id, other: Id, used: Status, reverse: Status, leg: Leg)
    requires Lawful(z) && id != other && LegalPick(mine, theirs, id)
    requires id in mine && id in theirs ==>
               && Holds(z, used, mine[id].log, theirs[id].fed)
               && Holds(z, reverse, theirs[id].log, mine[id].fed)
    requires var ack := Ack(theirs, other, id);
             leg.arrived <= |Sent(z, Settle(mine, id, other, ack).s2q.log, leg.ops)|
    ensures var ack := Ack(theirs, other, id);
            var s2q := Settle(mine, id, other, ack).s2q;
            forall acked: Id ::
              var q2s := Settle(theirs, other, id, acked).q2s;
              && Holds(z, UsedStatus(z, ack != 0, used, s2q.log, leg),
                       Sender(s2q, leg).log, Receiver(z, q2s, s2q.log, leg).fed)
              && Holds(z, ReverseStatus(ack != 0, reverse, s2q.fed), Receiver(z, q2s, s2q.log, leg).log,
                       Sender(s2q, leg).fed)
  {
    var ack := Ack(theirs, other, id);
    var s2q := Settle(mine, id, other, ack).s2q;
    forall acked: Id
      ensures var q2s := Settle(theirs, other, id, acked).q2s;
              && Holds(z, UsedStatus(z, ack != 0, used, s2q.log, leg),
                       Sender(s2q, leg).log, Receiver(z, q2s, s2q.log, leg).fed)
              && Holds(z, ReverseStatus(ack != 0, reverse, s2q.fed), Receiver(z, q2s, s2q.log, leg).log,
                       Sender(s2q, leg).fed)
    {
      var q2s := Settle(theirs, other, id, acked).q2s;
      LegMovesStatus(z, if ack != 0 then used else Synced, s2q.log, q2s.fed, leg);
    }
  }

  /** A table after a stream: the two pairs of the stream if their tasks kept them, and the
      rest of the table as it was. */
  lemma TableAfterAt(z: Codec, t: Table, mine: Id, theirs: Id, acked: Id, out: Leg, incoming: Leg, theirLog: seq<Op>,
                     senderLast: bool)
    requires Lawful(z)
    ensures var e := Settle(t, mine, theirs, acked);
            var t' := TableAfter(z, e, out, incoming, theirLog, senderLast);
            && (forall id :: id != mine && id != theirs ==>
                  (id in t' <==> id in t) && (id in t ==> t'[id] == t[id]))
            && (mine != theirs ==>
                  && (mine in t' <==> Kept(out.sent))
                  && (theirs in t' <==> Kept(incoming.received))
                  && (mine in t' ==> t'[mine] == Sender(e.s2q, out))
                  && (theirs in t' ==> t'[theirs] == Receiver(z, e.q2s, theirLog, incoming)))
  {
  }

  lemma PickOfA(z: Codec, s: Peers, x: Stream)
    requires Lawful(z) && Legal(z, s, x) && x.idA != x.idB && PairInv(z, s, x.idA)
    ensures PairInv(z, After(z, s, Streamed(x)), x.idA)
  {
    var ea, eb := EndA(s, x), EndB(s, x);
    TableAfterAt(z, s.a, x.idA, x.idB, ea.s2qAck, x.ab, x.ba, eb.s2q.log, x.aSenderLast);
    TableAfterAt(z, s.b, x.idB, x.idA, eb.s2qAck, x.ba, x.ab, ea.s2q.log, x.bSenderLast);
    UsedPairStatus(z, s.a, s.b, x.idA, x.idB, Known(s, x.idA).ab, Known(s, x.idA).ba, x.ab);
  }

  lemma PickOfB(z: Codec, s: Peers, x: Stream)
    requires Lawful(z) && Legal(z, s, x) && x.idA != x.idB && PairInv(z, s, x.idB)
    ensures PairInv(z, After(z, s, Streamed(x)), x.idB)
  {
    var ea, eb := EndA(s, x), EndB(s, x);
    TableAfterAt(z, s.a, x.idA, x.idB, ea.s2qAck, x.ab, x.ba, eb.s2q.log, x.aSenderLast);
    TableAfterAt(z, s.b, x.idB, x.idA, eb.s2qAck, x.ba, x.ab, ea.s2q.log, x.bSenderLast);
    UsedPairStatus(z, s.b, s.a, x.idB, x.idA, Known(s, x.idB).ba, Known(s, x.idB).ab, x.ba);
  }

  /** What an end is left with under an id that both ends picked. */
  lemma ClashTableAt(z: Codec, t: Table, id: Id, out: Leg, incoming: Leg, theirLog: seq<Op>, senderLast: bool)
    requires Lawful(z)
    ensures var e := Settle(t, id, id, 0);
            var t' := TableAfter(z, e, out, incoming, theirLog, senderLast);
            && (id in t' <==> Kept(out.sent) || Kept(incoming.received))
            && (id in t' ==>
                  t'[id] == if SenderStays(senderLast, out.sent, incoming.received) then Sender(e.s2q, out)
                            else Receiver(z, e.q2s, theirLog, incoming))
            && (forall other :: other != id ==>
                  (other in t' <==> other in t) && (other in t ==> t'[other] == t[other]))
  {
  }

  /** What both ends are left with under it is as the status says. */
  lemma ClashStatusHolds(z: Codec, s: Peers, x: Stream, atA: Context, atB: Context)
    requires Lawful(z) && Legal(z, s, x) && x.idA == x.idB
    requires var ea, eb := EndA(s, x), EndB(s, x);
             && atA == (if SenderStaysAtA(x) then Sender(ea.s2q, x.ab) else Receiver(z, ea.q2s, eb.s2q.log, x.ba))
             && atB == (if SenderStaysAtB(x) then Sender(eb.s2q, x.ba) else Receiver(z, eb.q2s, ea.s2q.log, x.ab))
    ensures var k := ClashStatus(z, s, x);
            Holds(z, k.ab, atA.log, atB.fed) && Holds(z, k.ba, atB.log, atA.fed)
  {
    LegMovesStatus(z, Synced, [], [], x.ab);
    LegMovesStatus(z, Synced, [], [], x.ba);
    assert [] + Reaches(z, [], x.ab) == Reaches(z, [], x.ab) && [] + Reaches(z, [], x.ba) == Reaches(z, [], x.ba);
  }

  lemma ClashPick(z: Codec, s: Peers, x: Stream)
    requires Lawful(z) && Legal(z, s, x) && x.idA == x.idB
    ensures PairInv(z, After(z, s, Streamed(x)), x.idA)
  {
    var ea, eb := EndA(s, x), EndB(s, x);
    ClashTableAt(z, s.a, x.idA, x.ab, x.ba, eb.s2q.log, x.aSenderLast);
    ClashTableAt(z, s.b, x.idB, x.ba, x.ab, ea.s2q.log, x.bSenderLast);
    var atA := if SenderStaysAtA(x) then Sender(ea.s2q, x.ab) else Receiver(z, ea.q2s, eb.s2q.log, x.ba);
    var atB := if SenderStaysAtB(x) then Sender(eb.s2q, x.ba) else Receiver(z, eb.q2s, ea.s2q.log, x.ab);
    ClashStatusHolds(z, s, x, atA, atB);
  }

  /** Where two senders are left, each direction is in step exactly if the one's new wire happens
      to be what the other's decoder was fed before. */
  lemma TwoSendersInStepIff(z: Codec, s: Peers, x: Stream)
    requires Lawful(z) && Legal(z, s, x) && x.idA == x.idB
    requires SenderStaysAtA(x) && SenderStaysAtB(x) && Kept(x.ab.sent) && Kept(x.ba.sent)
    ensures var s', id := After(z, s, Streamed(x)), x.idA;
            && id in s'.a && id in s'.b
            && (InStep(z, s'.a[id].log, s'.b[id].fed) <==> EndB(s, x).s2q.fed == z.wire(x.ab.ops))
            && (InStep(z, s'.b[id].log, s'.a[id].fed) <==> EndA(s, x).s2q.fed == z.wire(x.ba.ops))
  {
    SenderIsLeft(z, s.a, x.idA, x.ab, x.ba, EndB(s, x).s2q.log, x.aSenderLast);
    SenderIsLeft(z, s.b, x.idB, x.ba, x.ab, EndA(s, x).s2q.log, x.bSenderLast);
  }

  lemma SenderIsLeft(z: Codec, t: Table, id: Id, out: Leg, incoming: Leg, theirLog: seq<Op>, senderLast: bool)
    requires Lawful(z) && id != 0 && SenderStays(senderLast, out.sent, incoming.received) && Kept(out.sent)
    ensures var e := Settle(t, id, id, 0);
            var t' := TableAfter(z, e, out, incoming, theirLog, senderLast);
            id in t' && t'[id] == Context(out.ops, e.s2q.fed)
  {
    ClashTableAt(z, t, id, out, incoming, theirLog, senderLast);
    assert [] + out.ops == out.ops;
  }

  lemma NotPicked(z: Codec, s: Peers, x: Stream, id: Id)
    requires Lawful(z) && id != x.idA && id != x.idB && PairInv(z, s, id)
    ensures PairInv(z, After(z, s, Streamed(x)), id)
  {
    var ea, eb := EndA(s, x), EndB(s, x);
    TableAfterAt(z, s.a, x.idA, x.idB, ea.s2qAck, x.ab, x.ba, eb.s2q.log, x.aSenderLast);
    TableAfterAt(z, s.b, x.idB, x.idA, eb.s2qAck, x.ba, x.ab, ea.s2q.log, x.bSenderLast);
  }

  lemma StreamKeepsInv(z: Codec, s: Peers, x: Stream)
    requires Lawful(z) && Inv(z, s) && Legal(z, s, x)
    ensures Inv(z, After(z, s, Streamed(x)))
  {
    forall id: Id ensures PairInv(z, After(z, s, Streamed(x)), id) {
      assert PairInv(z, s, id);
      if id != x.idA && id != x.idB {
        NotPicked(z, s, x, id);
      } else if x.idA == x.idB {
        ClashPick(z, s, x);
      } else if id == x.idA {
        PickOfA(z, s, x);
      } else {
        PickOfB(z, s, x);
      }
    }
  }

  /** The status of every direction of every pair is right after every run: any mix of
      endings, entries lost at either side at any time, and hits in directions that are out
      of step included. */
  lemma {:induction false} StatusIsRight(z: Codec, run: seq<Event>)
    requires Lawful(z) && Run(z, run)
    ensures Inv(z, State(z, run))
  {
    if run != [] {
      var before, e := run[..|run| - 1], run[|run| - 1];
      StatusIsRight(z, before);
      var s := State(z, before);
      match e
      case Streamed(x) => StreamKeepsInv(z, s, x);
      case Lost(_, _) =>
        forall id: Id ensures PairInv(z, After(z, s, e), id) {
          assert PairInv(z, s, id);
        }
    }
  }

  /** The status of a pair that a stream used over different picks is undecided only if it was so
      before in a hit, or if part of the wire was lost in a direction that was out of step. */
  lemma StatusIsDecided(z: Codec, s: Peers, x: Stream)
    requires Lawful(z) && Legal(z, s, x) && x.idA != x.idB
    ensures var k, k' := Known(s, x.idA), Known(After(z, s, Streamed(x)), x.idA);
            var hit, lost := EndA(s, x).s2qAck != 0, x.ab.arrived < |Sent(z, EndA(s, x).s2q.log, x.ab.ops)|;
            && (k'.ab == Unknown ==> hit && (k.ab == Unknown || (k.ab == Stale && lost)))
            && (k'.ba == Unknown ==> hit && k.ba == Unknown)
    ensures var k, k' := Known(s, x.idB), Known(After(z, s, Streamed(x)), x.idB);
            var hit, lost := EndB(s, x).s2qAck != 0, x.ba.arrived < |Sent(z, EndB(s, x).s2q.log, x.ba.ops)|;
            && (k'.ba == Unknown ==> hit && (k.ba == Unknown || (k.ba == Stale && lost)))
            && (k'.ab == Unknown ==> hit && k.ab == Unknown)
    ensures forall id :: id != x.idA && id != x.idB ==> Known(After(z, s, Streamed(x)), id) == Known(s, id)
  {
  }

  /** And where both ends picked the same id it is decided, unless two senders are left that were
      both used before and now. */
  lemma ClashIsDecided(z: Codec, s: Peers, x: Stream)
    requires Lawful(z) && Legal(z, s, x) && x.idA == x.idB
    ensures var k := Known(After(z, s, Streamed(x)), x.idA);
            var both := SenderStaysAtA(x) && SenderStaysAtB(x);
            && (k.ab == Unknown ==> both && EndB(s, x).s2q.fed != [] && Sent(z, [], x.ab.ops) != [])
            && (k.ba == Unknown ==> both && EndA(s, x).s2q.fed != [] && Sent(z, [], x.ba.ops) != [])
  {
  }

  // ------------------------------------------------------------ what a stream delivers

  /** What reaches the decoder decodes, to a prefix of what the encoder still held back from
      the stream before followed by what was written; and to all of it at a clean end. */
  ghost predicate Faithful(z: Codec, log: seq<Op>, fed: bytes, leg: Leg)
    requires Lawful(z)
  {
    && Decodable(z, fed + Reaches(z, log, leg))
    && Emitted(z, fed, Reaches(z, log, leg)) <= HeldBack(z, log) + Raw(leg.ops)
    && (leg.sent == leg.received == CleanEof ==>
          Emitted(z, fed, Reaches(z, log, leg)) == HeldBack(z, log) + Raw(leg.ops))
  }

  lemma InStepIsFaithful(z: Codec, log: seq<Op>, fed: bytes, leg: Leg)
    requires Lawful(z) && InStep(z, log, fed) && Possible(z, log, fed, leg)
    ensures Faithful(z, log, fed, leg)
  {
    CutWireDeliversPrefix(z, log, leg.ops, Reaches(z, log, leg));
    if leg.sent == leg.received == CleanEof {
      assert Reaches(z, log, leg) == Sent(z, log, leg.ops);
      FlushedCallsDeliver(z, log, leg.ops);
    }
  }

  /** The direction of a leg is a safe one to go on with: the lookup missed, or it hit and the
      status says the ends are in step. */
  predicate SafeAB(s: Peers, x: Stream) {
    EndA(s, x).s2qAck == 0 || Known(s, x.idA).ab == Synced
  }

  predicate SafeBA(s: Peers, x: Stream) {
    EndB(s, x).s2qAck == 0 || Known(s, x.idB).ba == Synced
  }

  lemma SafeIsInStep(z: Codec, s: Peers, x: Stream)
    requires Lawful(z) && Inv(z, s) && Legal(z, s, x)
    ensures SafeAB(s, x) ==> InStep(z, EndA(s, x).s2q.log, EndB(s, x).q2s.fed)
    ensures SafeBA(s, x) ==> InStep(z, EndB(s, x).s2q.log, EndA(s, x).q2s.fed)
  {
    assert PairInv(z, s, x.idA) && PairInv(z, s, x.idB);
  }

  /** After every run, every stream whose direction is safe is delivered faithfully in that
      direction; the same pick at both ends, which always misses, included. */
  lemma SafeStreamsDeliver(z: Codec, run: seq<Event>, x: Stream)
    requires Lawful(z) && Run(z, run) && Legal(z, State(z, run), x)
    ensures var s := State(z, run);
            && (SafeAB(s, x) ==> Faithful(z, EndA(s, x).s2q.log, EndB(s, x).q2s.fed, x.ab))
            && (SafeBA(s, x) ==> Faithful(z, EndB(s, x).s2q.log, EndA(s, x).q2s.fed, x.ba))
            && (x.idA == x.idB ==> SafeAB(s, x) && SafeBA(s, x))
  {
    var s := State(z, run);
    StatusIsRight(z, run);
    SafeIsInStep(z, s, x);
    if SafeAB(s, x) { InStepIsFaithful(z, EndA(s, x).s2q.log, EndB(s, x).q2s.fed, x.ab); }
    if SafeBA(s, x) { InStepIsFaithful(z, EndB(s, x).s2q.log, EndA(s, x).q2s.fed, x.ba); }
  }

  /** Whenever the events settle the status of a hit, the two ends are in step exactly if the
      status says so. */
  lemma HitInStepIffSynced(z: Codec, run: seq<Event>, x: Stream)
    requires Lawful(z) && Run(z, run) && Legal(z, State(z, run), x)
    ensures var s := State(z, run);
            && (EndA(s, x).s2qAck != 0 && Known(s, x.idA).ab != Unknown ==>
                  (InStep(z, EndA(s, x).s2q.log, EndB(s, x).q2s.fed) <==> Known(s, x.idA).ab == Synced))
            && (EndB(s, x).s2qAck != 0 && Known(s, x.idB).ba != Unknown ==>
                  (InStep(z, EndB(s, x).s2q.log, EndA(s, x).q2s.fed) <==> Known(s, x.idB).ba == Synced))
  {
    StatusIsRight(z, run);
    assert PairInv(z, State(z, run), x.idA) && PairInv(z, State(z, run), x.idB);
  }

  /** A leg that delivers exactly its own input. */
  ghost predicate Exact(z: Codec, log: seq<Op>, fed: bytes, leg: Leg)
    requires Lawful(z)
  {
    && Decodable(z, fed + Reaches(z, log, leg))
    && Emitted(z, fed, Reaches(z, log, leg)) <= Raw(leg.ops)
    && (leg.sent == leg.received == CleanEof ==> Emitted(z, fed, Reaches(z, log, leg)) == Raw(leg.ops))
  }

  lemma FlushedIsExact(z: Codec, log: seq<Op>, fed: bytes, leg: Leg)
    requires Lawful(z) && Flushed(log) && Faithful(z, log, fed, leg)
    ensures Exact(z, log, fed, leg)
  {
    FlushedHoldsNothing(z, log);
    assert [] + Raw(leg.ops) == Raw(leg.ops);
  }

  // ------------------------------------------------------------ runs without losses

  predicate AllClean(x: Stream) {
    && x.idA != x.idB
    && x.ab.sent == x.ab.received == CleanEof
    && x.ba.sent == x.ba.received == CleanEof
  }

  predicate CleanRun(run: seq<Event>) {
    forall i :: 0 <= i < |run| ==> run[i].Streamed? && AllClean(run[i].stream)
  }

  /** An id that is in both tables or in neither; and in both, both directions of its pair
      are in step and nothing is held back in either encoder. */
  ghost predicate MirroredAt(z: Codec, s: Peers, id: Id) {
    && (id in s.a <==> id in s.b)
    && (id in s.a && id in s.b ==>
          && Known(s, id) == Know(Synced, Synced)
          && InStep(z, s.a[id].log, s.b[id].fed) && InStep(z, s.b[id].log, s.a[id].fed)
          && Flushed(s.a[id].log) && Flushed(s.b[id].log))
  }

  ghost predicate Mirrored(z: Codec, s: Peers) {
    && s.a.Keys == s.b.Keys
    && forall id: Id :: MirroredAt(z, s, id)
  }

  /** The two contexts of an id that one end picked and the other did not, when all ends well:
      what the sender wrote is flushed, and the receiver's encoder is as it was. */
  lemma CleanContexts(mine: Table, theirs: Table, id: Id, other: Id, leg: Leg)
    requires id != other && LegalPick(mine, theirs, id) && EndsInFlush(leg.ops)
    requires id in mine <==> id in theirs
    requires id in theirs ==> Flushed(theirs[id].log)
    ensures var ack := Ack(theirs, other, id);
            var s2q := Settle(mine, id, other, ack).s2q;
            && Flushed(Sender(s2q, leg).log)
            && (forall acked: Id :: Flushed(Settle(theirs, other, id, acked).q2s.log))
            && (ack == 0 <==> id !in mine)
            && (ack == 0 ==> s2q.fed == [])
  {
  }

  lemma KnowAfterAt(z: Codec, s: Peers, x: Stream)
    requires Lawful(z) && x.idA != x.idB
    ensures var s' := After(z, s, Streamed(x));
            var ea, eb := EndA(s, x), EndB(s, x);
            && Known(s', x.idA) == Know(UsedStatus(z, ea.s2qAck != 0, Known(s, x.idA).ab, ea.s2q.log, x.ab),
                                        ReverseStatus(ea.s2qAck != 0, Known(s, x.idA).ba, ea.s2q.fed))
            && Known(s', x.idB) == Know(ReverseStatus(eb.s2qAck != 0, Known(s, x.idB).ab, eb.s2q.fed),
                                        UsedStatus(z, eb.s2qAck != 0, Known(s, x.idB).ba, eb.s2q.log, x.ba))
  {
  }

  lemma CleanPickOfA(z: Codec, s: Peers, x: Stream)
    requires Lawful(z) && Legal(z, s, x) && AllClean(x)
    requires MirroredAt(z, s, x.idA) && PairInv(z, s, x.idA)
    ensures MirroredAt(z, After(z, s, Streamed(x)), x.idA)
  {
    var ea, eb := EndA(s, x), EndB(s, x);
    PickOfA(z, s, x);
    TableAfterAt(z, s.a, x.idA, x.idB, ea.s2qAck, x.ab, x.ba, eb.s2q.log, x.aSenderLast);
    TableAfterAt(z, s.b, x.idB, x.idA, eb.s2qAck, x.ba, x.ab, ea.s2q.log, x.bSenderLast);
    KnowAfterAt(z, s, x);
    CleanContexts(s.a, s.b, x.idA, x.idB, x.ab);
    assert Known(After(z, s, Streamed(x)), x.idA) == Know(Synced, Synced);
  }

  lemma CleanPickOfB(z: Codec, s: Peers, x: Stream)
    requires Lawful(z) && Legal(z, s, x) && AllClean(x)
    requires MirroredAt(z, s, x.idB) && PairInv(z, s, x.idB)
    ensures MirroredAt(z, After(z, s, Streamed(x)), x.idB)
  {
    var ea, eb := EndA(s, x), EndB(s, x);
    PickOfB(z, s, x);
    TableAfterAt(z, s.a, x.idA, x.idB, ea.s2qAck, x.ab, x.ba, eb.s2q.log, x.aSenderLast);
    TableAfterAt(z, s.b, x.idB, x.idA, eb.s2qAck, x.ba, x.ab, ea.s2q.log, x.bSenderLast);
    KnowAfterAt(z, s, x);
    CleanContexts(s.b, s.a, x.idB, x.idA, x.ba);
    assert Known(After(z, s, Streamed(x)), x.idB) == Know(Synced, Synced);
  }

  lemma CleanNotPicked(z: Codec, s: Peers, x: Stream, id: Id)
    requires Lawful(z) && id != x.idA && id != x.idB && MirroredAt(z, s, id)
    ensures MirroredAt(z, After(z, s, Streamed(x)), id)
  {
    var ea, eb := EndA(s, x), EndB(s, x);
    TableAfterAt(z, s.a, x.idA, x.idB, ea.s2qAck, x.ab, x.ba, eb.s2q.log, x.aSenderLast);
    TableAfterAt(z, s.b, x.idB, x.idA, eb.s2qAck, x.ba, x.ab, ea.s2q.log, x.bSenderLast);
  }

  lemma CleanStreamKeepsMirror(z: Codec, s: Peers, x: Stream)
    requires Lawful(z) && Mirrored(z, s) && Inv(z, s) && Legal(z, s, x) && AllClean(x)
    ensures Mirrored(z, After(z, s, Streamed(x)))
  {
    var s' := After(z, s, Streamed(x));
    forall id: Id ensures MirroredAt(z, s', id) {
      assert MirroredAt(z, s, id) && PairInv(z, s, id);
      if id == x.idA {
        CleanPickOfA(z, s, x);
      } else if id == x.idB {
        CleanPickOfB(z, s, x);
      } else {
        CleanNotPicked(z, s, x, id);
      }
    }
    SameKeys(z, s');
  }

  lemma SameKeys(z: Codec, s: Peers)
    requires forall id: Id :: MirroredAt(z, s, id)
    ensures s.a.Keys == s.b.Keys
  {
    forall id: Id ensures id in s.a <==> id in s.b {
      assert MirroredAt(z, s, id);
    }
  }

  lemma {:induction false} CleanRunsMirror(z: Codec, run: seq<Event>)
    requires Lawful(z) && Run(z, run) && CleanRun(run)
    ensures Mirrored(z, State(z, run))
  {
    if run != [] {
      var before := run[..|run| - 1];
      CleanRunsMirror(z, before);
      StatusIsRight(z, before);
      CleanStreamKeepsMirror(z, State(z, before), run[|run| - 1].stream);
    }
  }

  /** Over any number of clean streams with distinct picks and no losses, the tables mirror
      each other and the next stream, whatever it picks, delivers exactly its input both ways. */
  lemma CleanRunsDeliver(z: Codec, run: seq<Event>, x: Stream)
    requires Lawful(z) && Run(z, run) && CleanRun(run)
    requires Legal(z, State(z, run), x)
    ensures var s := State(z, run);
            && Mirrored(z, s)
            && Exact(z, EndA(s, x).s2q.log, EndB(s, x).q2s.fed, x.ab)
            && Exact(z, EndB(s, x).s2q.log, EndA(s, x).q2s.fed, x.ba)
  {
    var s := State(z, run);
    CleanRunsMirror(z, run);
    assert MirroredAt(z, s, x.idA) && MirroredAt(z, s, x.idB);
    SafeStreamsDeliver(z, run, x);
    FlushedIsExact(z, EndA(s, x).s2q.log, EndB(s, x).q2s.fed, x.ab);
    FlushedIsExact(z, EndB(s, x).s2q.log, EndA(s, x).q2s.fed, x.ba);
  }

  // ------------------------------------------------------------ runs with losses

  /** An encoder loop that ends in a local error does so with nothing written since a flush, as
      it always does in HTTP mode. */
  predicate FlushesFirst(leg: Leg) {
    leg.sent == IoError ==> Flushed(leg.ops)
  }

  /** All encoder loops do. Everything else may happen: losses, timeouts, codec errors, equal
      picks, hits that are out of step, and decoder loops that end in errors. */
  predicate SendersFlush(run: seq<Event>) {
    forall i :: 0 <= i < |run| && run[i].Streamed? ==>
      FlushesFirst(run[i].stream.ab) && FlushesFirst(run[i].stream.ba)
  }

  ghost predicate AllFlushed(t: Table) {
    forall id :: id in t ==> Flushed(t[id].log)
  }

  lemma EndStaysFlushed(z: Codec, t: Table, mine: Id, theirs: Id, acked: Id, out: Leg, incoming: Leg, theirLog: seq<Op>,
                        senderLast: bool)
    requires Lawful(z) && AllFlushed(t) && (Kept(out.sent) ==> Flushed(out.ops))
    ensures var e := Settle(t, mine, theirs, acked);
            && Flushed(e.s2q.log) && Flushed(e.q2s.log)
            && AllFlushed(TableAfter(z, e, out, incoming, theirLog, senderLast))
  {
    var e := Settle(t, mine, theirs, acked);
    assert Kept(out.sent) ==> Flushed(Sender(e.s2q, out).log);
  }

  /** Then nothing is held back in any encoder of either table. */
  lemma {:induction false} TablesStayFlushed(z: Codec, run: seq<Event>)
    requires Lawful(z) && Run(z, run) && SendersFlush(run)
    ensures AllFlushed(State(z, run).a) && AllFlushed(State(z, run).b)
  {
    if run != [] {
      var before, e := run[..|run| - 1], run[|run| - 1];
      TablesStayFlushed(z, before);
      var s := State(z, before);
      if e.Streamed? {
        var x := e.stream;
        assert run[|run| - 1].stream == x;
        var ea, eb := EndA(s, x), EndB(s, x);
        EndStaysFlushed(z, s.a, x.idA, x.idB, ea.s2qAck, x.ab, x.ba, eb.s2q.log, x.aSenderLast);
        EndStaysFlushed(z, s.b, x.idB, x.idA, eb.s2qAck, x.ba, x.ab, ea.s2q.log, x.bSenderLast);
      }
    }
  }

  /** So after every such run a stream delivers exactly its own input in each direction that
      misses or hits a synced status. */
  lemma SafeStreamsAreExact(z: Codec, run: seq<Event>, x: Stream)
    requires Lawful(z) && Run(z, run) && SendersFlush(run) && Legal(z, State(z, run), x)
    ensures var s := State(z, run);
            && (SafeAB(s, x) ==> Exact(z, EndA(s, x).s2q.log, EndB(s, x).q2s.fed, x.ab))
            && (SafeBA(s, x) ==> Exact(z, EndB(s, x).s2q.log, EndA(s, x).q2s.fed, x.ba))
  {
    var s := State(z, run);
    TablesStayFlushed(z, run);
    SafeStreamsDeliver(z, run, x);
    if SafeAB(s, x) { FlushedIsExact(z, EndA(s, x).s2q.log, EndB(s, x).q2s.fed, x.ab); }
    if SafeBA(s, x) { FlushedIsExact(z, EndB(s, x).s2q.log, EndA(s, x).q2s.fed, x.ba); }
  }

  // ------------------------------------------------------------ the direction of last use

  /** A local error in a loop of a direction does no harm: the encoder loop had flushed, and the
      decoder loop had got all that was sent. */
  ghost predicate Harmless(z: Codec, log: seq<Op>, leg: Leg)
    requires Lawful(z)
  {
    FlushesFirst(leg) && (leg.received == IoError ==> leg.arrived == |Sent(z, log, leg.ops)|)
  }

  /** Any losses, and streams whose local errors do no harm and whose directions miss or hit a
      synced status. Equal picks leave a sender at one end. */
  ghost predicate SafeRun(z: Codec, run: seq<Event>)
    requires Lawful(z)
  {
    run != [] ==>
      var before, e := run[..|run| - 1], run[|run| - 1];
      SafeRun(z, before) && (e.Streamed? ==> SafeStep(z, State(z, before), e.stream))
  }

  ghost predicate SafeStep(z: Codec, s: Peers, x: Stream)
    requires Lawful(z)
  {
    && Harmless(z, EndA(s, x).s2q.log, x.ab) && Harmless(z, EndB(s, x).s2q.log, x.ba)
    && SafeAB(s, x) && SafeBA(s, x)
    && (x.idA == x.idB ==> SenderStaysAtA(x) != SenderStaysAtB(x))
  }

  /** The direction of last use of a pair that is in both tables is in step and flushed. */
  ghost predicate LastUseInv(z: Codec, s: Peers, id: Id) {
    id in s.a && id in s.b ==>
      && id in s.last
      && match s.last[id]
         case A => Known(s, id).ab == Synced && InStep(z, s.a[id].log, s.b[id].fed) && Flushed(s.a[id].log)
         case B => Known(s, id).ba == Synced && InStep(z, s.b[id].log, s.a[id].fed) && Flushed(s.b[id].log)
  }

  /** A direction that was used safely and kept at both ends is synced. */
  lemma UsedSafely(z: Codec, hit: bool, before: Status, log: seq<Op>, fed: bytes, leg: Leg)
    requires Lawful(z) && Possible(z, log, fed, leg) && (!hit || before == Synced)
    requires Harmless(z, log, leg) && Kept(leg.sent) && Kept(leg.received) && Flushed(log)
    ensures UsedStatus(z, hit, before, log, leg) == Synced && Flushed(log + leg.ops)
  {
  }

  lemma SafePickOfA(z: Codec, s: Peers, x: Stream)
    requires Lawful(z) && Legal(z, s, x) && x.idA != x.idB && SafeStep(z, s, x) && PairInv(z, s, x.idA)
    requires AllFlushed(s.a) && AllFlushed(s.b)
    ensures LastUseInv(z, After(z, s, Streamed(x)), x.idA)
  {
    var ea, eb := EndA(s, x), EndB(s, x);
    PickOfA(z, s, x);
    KnowAfterAt(z, s, x);
    TableAfterAt(z, s.a, x.idA, x.idB, ea.s2qAck, x.ab, x.ba, eb.s2q.log, x.aSenderLast);
    TableAfterAt(z, s.b, x.idB, x.idA, eb.s2qAck, x.ba, x.ab, ea.s2q.log, x.bSenderLast);
    if Kept(x.ab.sent) && Kept(x.ab.received) {
      UsedSafely(z, ea.s2qAck != 0, Known(s, x.idA).ab, ea.s2q.log, eb.q2s.fed, x.ab);
    }
  }

  lemma SafePickOfB(z: Codec, s: Peers, x: Stream)
    requires Lawful(z) && Legal(z, s, x) && x.idA != x.idB && SafeStep(z, s, x) && PairInv(z, s, x.idB)
    requires AllFlushed(s.a) && AllFlushed(s.b)
    ensures LastUseInv(z, After(z, s, Streamed(x)), x.idB)
  {
    var ea, eb := EndA(s, x), EndB(s, x);
    PickOfB(z, s, x);
    KnowAfterAt(z, s, x);
    TableAfterAt(z, s.a, x.idA, x.idB, ea.s2qAck, x.ab, x.ba, eb.s2q.log, x.aSenderLast);
    TableAfterAt(z, s.b, x.idB, x.idA, eb.s2qAck, x.ba, x.ab, ea.s2q.log, x.bSenderLast);
    if Kept(x.ba.sent) && Kept(x.ba.received) {
      UsedSafely(z, eb.s2qAck != 0, Known(s, x.idB).ba, eb.s2q.log, ea.q2s.fed, x.ba);
    }
  }

  lemma SafeClash(z: Codec, s: Peers, x: Stream)
    requires Lawful(z) && Legal(z, s, x) && x.idA == x.idB && SafeStep(z, s, x)
    requires AllFlushed(s.a) && AllFlushed(s.b)
    ensures LastUseInv(z, After(z, s, Streamed(x)), x.idA)
  {
    var ea, eb := EndA(s, x), EndB(s, x);
    ClashPick(z, s, x);
    ClashTableAt(z, s.a, x.idA, x.ab, x.ba, eb.s2q.log, x.aSenderLast);
    ClashTableAt(z, s.b, x.idB, x.ba, x.ab, ea.s2q.log, x.bSenderLast);
    if SenderStaysAtA(x) && Kept(x.ab.sent) && Kept(x.ab.received) {
      UsedSafely(z, false, Unknown, ea.s2q.log, eb.q2s.fed, x.ab);
    }
    if SenderStaysAtB(x) && Kept(x.ba.sent) && Kept(x.ba.received) {
      UsedSafely(z, false, Unknown, eb.s2q.log, ea.q2s.fed, x.ba);
    }
  }

  lemma SafeNotPicked(z: Codec, s: Peers, x: Stream, id: Id)
    requires Lawful(z) && id != x.idA && id != x.idB && LastUseInv(z, s, id)
    ensures LastUseInv(z, After(z, s, Streamed(x)), id)
  {
    var ea, eb := EndA(s, x), EndB(s, x);
    TableAfterAt(z, s.a, x.idA, x.idB, ea.s2qAck, x.ab, x.ba, eb.s2q.log, x.aSenderLast);
    TableAfterAt(z, s.b, x.idB, x.idA, eb.s2qAck, x.ba, x.ab, ea.s2q.log, x.bSenderLast);
  }

  lemma {:induction false} SafeRunsFlush(z: Codec, run: seq<Event>)
    requires Lawful(z) && SafeRun(z, run)
    ensures SendersFlush(run)
  {
    if run != [] {
      var before := run[..|run| - 1];
      SafeRunsFlush(z, before);
      forall i | 0 <= i < |run| && run[i].Streamed?
        ensures FlushesFirst(run[i].stream.ab) && FlushesFirst(run[i].stream.ba)
      {
        if i < |run| - 1 { assert before[i] == run[i]; }
      }
    }
  }

  /** With one-sided losses at any time and any mix of clean ends, timeouts, codec errors and
      harmless local errors, every pair in both tables is in step in the direction of its last
      use, whichever side that was, as long as no stream hit a direction that was not synced. */
  lemma {:induction false} LastUseAgrees(z: Codec, run: seq<Event>, id: Id)
    requires Lawful(z) && Run(z, run) && SafeRun(z, run)
    ensures LastUseInv(z, State(z, run), id)
  {
    if run != [] {
      var before, e := run[..|run| - 1], run[|run| - 1];
      LastUseAgrees(z, before, id);
      if e.Streamed? {
        var s, x := State(z, before), e.stream;
        StatusIsRight(z, before);
        SafeRunsFlush(z, before);
        TablesStayFlushed(z, before);
        assert PairInv(z, s, id);
        if id != x.idA && id != x.idB {
          SafeNotPicked(z, s, x, id);
        } else if x.idA == x.idB {
          SafeClash(z, s, x);
        } else if id == x.idA {
          SafePickOfA(z, s, x);
        } else {
          SafePickOfB(z, s, x);
        }
      }
    }
  }

  /** That condition is exact: a direction that ends cleanly at both ends is in step afterwards
      if and only if it was safe, whenever its status was settled. */
  lemma CleanUseInStepIffSafe(z: Codec, run: seq<Event>, x: Stream)
    requires Lawful(z) && Run(z, run) && Legal(z, State(z, run), x) && x.idA != x.idB
    ensures var s := State(z, run);
            var s' := After(z, s, Streamed(x));
            && (x.ab.sent == x.ab.received == CleanEof && (SafeAB(s, x) || Known(s, x.idA).ab == Stale) ==>
                  x.idA in s'.a && x.idA in s'.b &&
                  (InStep(z, s'.a[x.idA].log, s'.b[x.idA].fed) <==> SafeAB(s, x)))
            && (x.ba.sent == x.ba.received == CleanEof && (SafeBA(s, x) || Known(s, x.idB).ba == Stale) ==>
                  x.idB in s'.a && x.idB in s'.b &&
                  (InStep(z, s'.b[x.idB].log, s'.a[x.idB].fed) <==> SafeBA(s, x)))
  {
    var s := State(z, run);
    var ea, eb := EndA(s, x), EndB(s, x);
    StatusIsRight(z, run);
    assert PairInv(z, s, x.idA) && PairInv(z, s, x.idB);
    PickOfA(z, s, x);
    PickOfB(z, s, x);
    KnowAfterAt(z, s, x);
    TableAfterAt(z, s.a, x.idA, x.idB, ea.s2qAck, x.ab, x.ba, eb.s2q.log, x.aSenderLast);
    TableAfterAt(z, s.b, x.idB, x.idA, eb.s2qAck, x.ba, x.ab, ea.s2q.log, x.bSenderLast);
  }

  /** A hit that sends over a pair in the direction it was last used in. */
  predicate FollowsLastUse(s: Peers, x: Stream) {
    && (EndA(s, x).s2qAck != 0 ==> x.idA in s.last && s.last[x.idA] == A)
    && (EndB(s, x).s2qAck != 0 ==> x.idB in s.last && s.last[x.idB] == B)
  }

  lemma LastUseIsSafe(z: Codec, run: seq<Event>, x: Stream)
    requires Lawful(z) && Run(z, run) && SafeRun(z, run)
    requires Legal(z, State(z, run), x) && FollowsLastUse(State(z, run), x)
    ensures SafeAB(State(z, run), x) && SafeBA(State(z, run), x)
  {
    LastUseAgrees(z, run, x.idA);
    LastUseAgrees(z, run, x.idB);
  }

  /** So the next stream delivers exactly its input wherever it misses or hits in the
      direction of last use. */
  lemma LastUseDelivers(z: Codec, run: seq<Event>, x: Stream)
    requires Lawful(z) && Run(z, run) && SafeRun(z, run)
    requires Legal(z, State(z, run), x) && FollowsLastUse(State(z, run), x)
    ensures var s := State(z, run);
            && Exact(z, EndA(s, x).s2q.log, EndB(s, x).q2s.fed, x.ab)
            && Exact(z, EndB(s, x).s2q.log, EndA(s, x).q2s.fed, x.ba)
  {
    LastUseIsSafe(z, run, x);
    SafeRunsFlush(z, run);
    SafeStreamsAreExact(z, run, x);
  }
}
