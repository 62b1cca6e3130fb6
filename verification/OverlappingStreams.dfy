/** Any number of streams between two peers at the same time, with the contents of their pairs.

    A pick, a lookup, each of the four data loops of a stream, each check-in and each eviction
    is a step of its own, of any stream, at either peer and in any order. A pair that is out
    with a stream is touched by that stream alone, so a loop can be one step. */
module OverlappingStreams {
  import opened Bytes
  import opened Zstd
  import opened Handshake
  import opened CodecLoops
  import opened CodecPump
  import opened ReuseProtocol

  /** One end of a stream. */
  datatype End = End(side: Side, k: nat)

  function Other(side: Side): (s: Side) {
    if side == A then B else A
  }

  function Peer(e: End): (p: End) {
    End(Other(e.side), e.k)
  }

  /** Where a pair can be: in a table, or with an end that sends or receives over it. */
  datatype Place = Slot(at: Side, id: Id) | Out(end: End) | In(end: End)

  function SideOf(p: Place): (s: Side) {
    if p.Slot? then p.at else p.end.side
  }

  /** A pair object under its id. Its encoder and its decoder carry stamps that the protocol never
      looks at: an encoder gets a new one when it has sent, and a decoder that has been fed all
      of that gets the same if it carried the one the encoder had before. */
  datatype Held = Held(id: Id, ref: nat, log: seq<Op>, fed: bytes, enc: nat, dec: nat)

  function NewPair(id: Id, ref: nat): (h: Held) {
    Held(id, ref, [], [], 0, 0)
  }

  /** What an encoder loop did: the log it started from, its calls and its end. */
  datatype Sending = Sending(log: seq<Op>, ops: seq<Op>, how: Outcome, before: nat, after: nat)

  /** Where all pairs are and how many have been made, how far each end has got, and the log that
      each stamp of an encoder stands for. The lookup of an end is recorded with whether it hit. */
  datatype World = World(at: map<Place, Held>, made: nat, picked: map<End, Id>, looked: map<End, bool>,
                         sends: map<End, Sending>, received: map<End, Outcome>,
                         logs: map<nat, seq<Op>>, next: nat)

  const NEW_WORLD: World := World(map[], 0, map[], map[], map[], map[], map[0 := []], 1)

  datatype Step =
    | Pick(end: End, id: Id)
    | Look(end: End)
    | Send(end: End, ops: seq<Op>, how: Outcome)
    | Receive(end: End, arrived: nat, how: Outcome)
    | EndOut(end: End)
    | EndIn(end: End)
    | Abort(end: End)
    | Evict(side: Side, id: Id)

  /** Both ends have looked the other's pick up, so both know the answers. */
  predicate ShookHands(w: World, e: End) {
    e in w.looked && Peer(e) in w.looked
  }

  /** The direction towards an end, once the other has sent, with what the receiving loop adds. */
  function LegTo(w: World, e: End, arrived: nat, how: Outcome): (leg: Leg)
    requires Peer(e) in w.sends
  {
    Leg(w.sends[Peer(e)].ops, w.sends[Peer(e)].how, arrived, how)
  }

  ghost predicate Enabled(z: Codec, w: World, step: Step)
    requires Lawful(z)
  {
    match step
    case Pick(e, id) => e !in w.picked && id != 0
    case Look(e) => Out(e) in w.at && e in w.picked && Peer(e) in w.picked && e !in w.looked
    case Send(e, ops, how) =>
      Out(e) in w.at && ShookHands(w, e) && e !in w.sends && (how == CleanEof ==> EndsInFlush(ops))
    case Receive(e, arrived, how) =>
      && In(e) in w.at && ShookHands(w, e) && e !in w.received
      && (Peer(e) in w.sends ==>
            Possible(z, w.sends[Peer(e)].log, w.at[In(e)].fed, LegTo(w, e, arrived, how)))
    case EndOut(e) => Out(e) in w.at && e in w.sends
    case EndIn(e) => In(e) in w.at && e in w.received
    case Abort(e) => Out(e) in w.at && e !in w.sends && e !in w.received
    case Evict(side, id) => Slot(side, id) in w.at
  }

  /** A lookup that misses makes a new pair, and the answer starts the sender's encoder afresh. */
  function Missed(at: map<Place, Held>, e: End, h: Held): (at': map<Place, Held>) {
    var sender := Out(Peer(e));
    var heeded := if sender in at then at[sender := at[sender].(log := [], enc := 0)] else at;
    heeded[In(e) := h]
  }

  /** A pair goes back to the table, displacing what is there, or is dropped. */
  function CheckIn(at: map<Place, Held>, p: Place, keep: bool): (at': map<Place, Held>)
    requires p in at
  {
    if keep then (at - {p})[Slot(SideOf(p), at[p].id) := at[p]] else at - {p}
  }

  /** The stamp of a decoder after a loop: that of the encoder if it carried the one before and
      all has arrived, its own if nothing has, and otherwise one that no encoder has. */
  ghost function StampAfter(z: Codec, dec: nat, s: Sending, leg: Leg, next: nat): (dec': nat)
    requires Lawful(z)
  {
    if dec == s.before && leg.arrived == |Sent(z, s.log, s.ops)| then s.after
    else if Reaches(z, s.log, leg) == [] then dec
    else next
  }

  ghost function Apply(z: Codec, w: World, step: Step): (w': World)
    requires Lawful(z) && Enabled(z, w, step)
  {
    match step
    case Pick(e, id) =>
      var slot := Slot(e.side, id);
      if slot in w.at then w.(at := (w.at - {slot})[Out(e) := w.at[slot]], picked := w.picked[e := id])
      else w.(at := w.at[Out(e) := NewPair(id, w.made)], made := w.made + 1, picked := w.picked[e := id])
    case Look(e) =>
      var id := w.picked[Peer(e)];
      var slot := Slot(e.side, id);
      if slot in w.at then w.(at := (w.at - {slot})[In(e) := w.at[slot]], looked := w.looked[e := true])
      else w.(at := Missed(w.at, e, NewPair(id, w.made)), made := w.made + 1, looked := w.looked[e := false])
    case Send(e, ops, how) =>
      var h := w.at[Out(e)];
      w.(at := w.at[Out(e) := h.(log := h.log + ops, enc := w.next)],
         sends := w.sends[e := Sending(h.log, ops, how, h.enc, w.next)],
         logs := w.logs[w.next := h.log + ops], next := w.next + 1)
    case Receive(e, arrived, how) =>
      var w' := w.(received := w.received[e := how], next := w.next + 1);
      if Peer(e) !in w.sends then w'
      else
        var h, s, leg := w.at[In(e)], w.sends[Peer(e)], LegTo(w, e, arrived, how);
        w'.(at := w.at[In(e) := h.(fed := h.fed + Reaches(z, s.log, leg), dec := StampAfter(z, h.dec, s, leg, w.next))])
    case EndOut(e) => w.(at := CheckIn(w.at, Out(e), Kept(w.sends[e].how)))
    case EndIn(e) => w.(at := CheckIn(w.at, In(e), Kept(w.received[e])))
    case Abort(e) => w.(at := w.at - {Out(e), In(e)})
    case Evict(side, id) => w.(at := w.at - {Slot(side, id)})
  }

  /** The world after some steps of any streams. */
  ghost function WorldAfter(z: Codec, steps: seq<Step>): (w: World)
    requires Lawful(z) && Interleaving(z, steps)
    decreases |steps|, 1
  {
    if steps == [] then NEW_WORLD else Apply(z, WorldAfter(z, steps[..|steps| - 1]), steps[|steps| - 1])
  }

  ghost predicate Interleaving(z: Codec, steps: seq<Step>)
    requires Lawful(z)
    decreases |steps|, 0
  {
    steps == [] ||
    (Interleaving(z, steps[..|steps| - 1]) && Enabled(z, WorldAfter(z, steps[..|steps| - 1]), steps[|steps| - 1]))
  }

  // ------------------------------------------------------------ the stamps are right

  /** An encoder has the log its stamp stands for; a decoder with the stamp of an encoder has
      been fed exactly the wire of that log. */
  ghost predicate Stamped(z: Codec, logs: map<nat, seq<Op>>, next: nat, h: Held) {
    && h.enc in logs && h.log == logs[h.enc] && h.dec < next
    && (h.dec in logs ==> InStep(z, logs[h.dec], h.fed))
  }

  predicate Recorded(logs: map<nat, seq<Op>>, s: Sending) {
    s.before in logs && logs[s.before] == s.log && s.after in logs && logs[s.after] == s.log + s.ops
  }

  ghost predicate AllStamped(z: Codec, w: World) {
    && 0 in w.logs && w.logs[0] == []
    && (forall n :: n in w.logs ==> n < w.next)
    && (forall p :: p in w.at ==> Stamped(z, w.logs, w.next, w.at[p]))
    && (forall e :: e in w.sends ==> Recorded(w.logs, w.sends[e]))
  }

  lemma SendKeepsStamps(z: Codec, w: World, e: End, ops: seq<Op>, how: Outcome)
    requires Lawful(z) && AllStamped(z, w) && Enabled(z, w, Send(e, ops, how))
    ensures AllStamped(z, Apply(z, w, Send(e, ops, how)))
  {
    var w' := Apply(z, w, Send(e, ops, how));
    forall p | p in w'.at ensures Stamped(z, w'.logs, w'.next, w'.at[p]) {
      assert Stamped(z, w.logs, w.next, w.at[p]);
    }
    forall f | f in w'.sends ensures Recorded(w'.logs, w'.sends[f]) {
      assert f == e || Recorded(w.logs, w.sends[f]);
      assert Stamped(z, w.logs, w.next, w.at[Out(e)]);
    }
  }

  lemma StampMovesOn(z: Codec, logs: map<nat, seq<Op>>, next: nat, h: Held, s: Sending, leg: Leg)
    requires Lawful(z) && Stamped(z, logs, next, h) && Recorded(logs, s)
    requires forall n :: n in logs ==> n < next
    requires leg.ops == s.ops && leg.arrived <= |Sent(z, s.log, s.ops)|
    ensures Stamped(z, logs, next + 1,
                    h.(fed := h.fed + Reaches(z, s.log, leg), dec := StampAfter(z, h.dec, s, leg, next)))
  {
    var w := Sent(z, s.log, s.ops);
    assert z.wire(s.log + s.ops) == z.wire(s.log) + w;
    assert leg.arrived == |w| ==> Reaches(z, s.log, leg) == w;
    assert h.fed + [] == h.fed;
  }

  lemma ReceiveKeepsStamps(z: Codec, w: World, e: End, arrived: nat, how: Outcome)
    requires Lawful(z) && AllStamped(z, w) && Enabled(z, w, Receive(e, arrived, how))
    ensures AllStamped(z, Apply(z, w, Receive(e, arrived, how)))
  {
    var w' := Apply(z, w, Receive(e, arrived, how));
    if Peer(e) in w.sends {
      StampMovesOn(z, w.logs, w.next, w.at[In(e)], w.sends[Peer(e)], LegTo(w, e, arrived, how));
    }
    forall p | p in w'.at ensures Stamped(z, w'.logs, w'.next, w'.at[p]) {
      assert Stamped(z, w.logs, w.next, w.at[p]);
    }
  }

  lemma PickKeepsStamps(z: Codec, w: World, e: End, id: Id)
    requires Lawful(z) && AllStamped(z, w) && Enabled(z, w, Pick(e, id))
    ensures AllStamped(z, Apply(z, w, Pick(e, id)))
  {
    var w' := Apply(z, w, Pick(e, id));
    forall p | p in w'.at ensures Stamped(z, w'.logs, w'.next, w'.at[p]) {
    }
  }

  lemma LookKeepsStamps(z: Codec, w: World, e: End)
    requires Lawful(z) && AllStamped(z, w) && Enabled(z, w, Look(e))
    ensures AllStamped(z, Apply(z, w, Look(e)))
  {
    var w' := Apply(z, w, Look(e));
    forall p | p in w'.at ensures Stamped(z, w'.logs, w'.next, w'.at[p]) {
      assert p in w.at ==> Stamped(z, w.logs, w.next, w.at[p]);
    }
  }

  lemma LeavingKeepsStamps(z: Codec, w: World, step: Step)
    requires Lawful(z) && AllStamped(z, w) && Enabled(z, w, step)
    requires step.EndOut? || step.EndIn? || step.Abort? || step.Evict?
    ensures AllStamped(z, Apply(z, w, step))
  {
    var w' := Apply(z, w, step);
    forall p | p in w'.at ensures Stamped(z, w'.logs, w'.next, w'.at[p]) {
    }
  }

  lemma {:induction false} AlwaysStamped(z: Codec, steps: seq<Step>)
    requires Lawful(z) && Interleaving(z, steps)
    ensures AllStamped(z, WorldAfter(z, steps))
  {
    if steps != [] {
      var before, last := steps[..|steps| - 1], steps[|steps| - 1];
      AlwaysStamped(z, before);
      match last
      case Send(e, ops, how) => SendKeepsStamps(z, WorldAfter(z, before), e, ops, how);
      case Receive(e, arrived, how) => ReceiveKeepsStamps(z, WorldAfter(z, before), e, arrived, how);
      case Pick(e, id) => PickKeepsStamps(z, WorldAfter(z, before), e, id);
      case Look(e) => LookKeepsStamps(z, WorldAfter(z, before), e);
      case _ => LeavingKeepsStamps(z, WorldAfter(z, before), last);
    }
  }

  /** In every interleaving, wherever two pairs are: a decoder with the stamp of an encoder has
      been fed exactly its wire; and with the stamp of another one, exactly if the logs of both
      stamps have the same wire. */
  lemma StampsAreRight(z: Codec, steps: seq<Step>, p: Place, q: Place)
    requires Lawful(z) && Interleaving(z, steps) && p in WorldAfter(z, steps).at && q in WorldAfter(z, steps).at
    ensures var w := WorldAfter(z, steps);
            var sender, receiver := w.at[p], w.at[q];
            && (sender.enc == receiver.dec ==> InStep(z, sender.log, receiver.fed))
            && (receiver.dec in w.logs ==>
                  && sender.enc in w.logs
                  && (InStep(z, sender.log, receiver.fed) <==>
                      z.wire(w.logs[receiver.dec]) == z.wire(w.logs[sender.enc])))
  {
    AlwaysStamped(z, steps);
    var w := WorldAfter(z, steps);
    assert Stamped(z, w.logs, w.next, w.at[p]) && Stamped(z, w.logs, w.next, w.at[q]);
  }

  // ------------------------------------------------------------ what a stream delivers

  /** The decoder of an end carries the stamp that the sender's encoder had when it began. */
  predicate Safe(w: World, e: End) {
    Peer(e) in w.sends && In(e) in w.at && w.at[In(e)].dec == w.sends[Peer(e)].before
  }

  predicate StepFlushes(step: Step) {
    step.Send? && step.how == IoError ==> Flushed(step.ops)
  }

  /** All encoder loops that end in a local error have flushed. */
  predicate SendsFlush(steps: seq<Step>) {
    forall i :: 0 <= i < |steps| ==> StepFlushes(steps[i])
  }

  /** Nothing is held back in a pair that is, or can get, back in a table. */
  ghost predicate AllFlushedOut(w: World) {
    && (forall p :: p in w.at && !WillBeDropped(w, p) ==> Flushed(w.at[p].log))
    && (forall e :: e in w.sends ==> Flushed(w.sends[e].log))
  }

  predicate WillBeDropped(w: World, p: Place) {
    p.Out? && p.end in w.sends && !Kept(w.sends[p.end].how)
  }

  lemma PickKeepsFlushed(z: Codec, w: World, e: End, id: Id)
    requires Lawful(z) && AllFlushedOut(w) && Enabled(z, w, Pick(e, id))
    ensures AllFlushedOut(Apply(z, w, Pick(e, id)))
  {
  }

  lemma LookKeepsFlushed(z: Codec, w: World, e: End)
    requires Lawful(z) && AllFlushedOut(w) && Enabled(z, w, Look(e))
    ensures AllFlushedOut(Apply(z, w, Look(e)))
  {
  }

  lemma LoopKeepsFlushed(z: Codec, w: World, step: Step)
    requires Lawful(z) && AllFlushedOut(w) && Enabled(z, w, step) && StepFlushes(step) && (step.Send? || step.Receive?)
    ensures AllFlushedOut(Apply(z, w, step))
  {
  }

  lemma LeavingKeepsFlushed(z: Codec, w: World, step: Step)
    requires Lawful(z) && AllFlushedOut(w) && Enabled(z, w, step)
    requires step.EndOut? || step.EndIn? || step.Abort? || step.Evict?
    ensures AllFlushedOut(Apply(z, w, step))
  {
  }

  lemma {:induction false} AlwaysFlushed(z: Codec, steps: seq<Step>)
    requires Lawful(z) && Interleaving(z, steps) && SendsFlush(steps)
    ensures AllFlushedOut(WorldAfter(z, steps))
  {
    if steps != [] {
      var before, last := steps[..|steps| - 1], steps[|steps| - 1];
      AlwaysFlushed(z, before);
      assert StepFlushes(last);
      match last
      case Pick(e, id) => PickKeepsFlushed(z, WorldAfter(z, before), e, id);
      case Look(e) => LookKeepsFlushed(z, WorldAfter(z, before), e);
      case Send(_, _, _) => LoopKeepsFlushed(z, WorldAfter(z, before), last);
      case Receive(_, _, _) => LoopKeepsFlushed(z, WorldAfter(z, before), last);
      case _ => LeavingKeepsFlushed(z, WorldAfter(z, before), last);
    }
  }

  /** Whatever else is going on, a safe direction is delivered faithfully, and exactly if all
      encoder loops that ended in a local error had flushed. */
  lemma SafeIsDelivered(z: Codec, steps: seq<Step>, e: End, arrived: nat, how: Outcome)
    requires Lawful(z) && Interleaving(z, steps) && Enabled(z, WorldAfter(z, steps), Receive(e, arrived, how))
    requires Safe(WorldAfter(z, steps), e)
    ensures var w := WorldAfter(z, steps);
            var log, fed, leg := w.sends[Peer(e)].log, w.at[In(e)].fed, LegTo(w, e, arrived, how);
            && Faithful(z, log, fed, leg)
            && (SendsFlush(steps) ==> Exact(z, log, fed, leg))
  {
    AlwaysStamped(z, steps);
    var w := WorldAfter(z, steps);
    var log, fed, leg := w.sends[Peer(e)].log, w.at[In(e)].fed, LegTo(w, e, arrived, how);
    assert Recorded(w.logs, w.sends[Peer(e)]) && Stamped(z, w.logs, w.next, w.at[In(e)]);
    InStepIsFaithful(z, log, fed, leg);
    if SendsFlush(steps) {
      AlwaysFlushed(z, steps);
      FlushedIsExact(z, log, fed, leg);
    }
  }

  /** What the places of a stream's pairs say about how far it has got. */
  ghost predicate Ordered(w: World) {
    && (forall e :: e in w.looked ==> e in w.picked && Peer(e) in w.picked)
    && (forall e :: e in w.sends || e in w.received ==> ShookHands(w, e))
    && (forall p :: p in w.at ==> PlacedRight(w, p))
  }

  predicate PlacedRight(w: World, p: Place)
    requires p in w.at
  {
    match p
    case Slot(_, id) => w.at[p].id == id
    case Out(e) => e in w.picked && w.at[p].id == w.picked[e]
    case In(e) => e in w.looked && Peer(e) in w.picked && w.at[p].id == w.picked[Peer(e)]
  }

  lemma PickKeepsOrder(z: Codec, w: World, e: End, id: Id)
    requires Lawful(z) && Ordered(w) && Enabled(z, w, Pick(e, id))
    ensures Ordered(Apply(z, w, Pick(e, id)))
  {
    var w' := Apply(z, w, Pick(e, id));
    forall p | p in w'.at ensures PlacedRight(w', p) {
      assert p in w.at ==> PlacedRight(w, p);
      assert Slot(e.side, id) in w.at ==> PlacedRight(w, Slot(e.side, id));
    }
  }

  lemma LookKeepsOrder(z: Codec, w: World, e: End)
    requires Lawful(z) && Ordered(w) && Enabled(z, w, Look(e))
    ensures Ordered(Apply(z, w, Look(e)))
  {
    var w', slot := Apply(z, w, Look(e)), Slot(e.side, w.picked[Peer(e)]);
    forall p | p in w'.at ensures PlacedRight(w', p) {
      assert p in w.at ==> PlacedRight(w, p);
      assert slot in w.at ==> PlacedRight(w, slot);
    }
  }

  lemma LoopKeepsOrder(z: Codec, w: World, step: Step)
    requires Lawful(z) && Ordered(w) && Enabled(z, w, step) && (step.Send? || step.Receive?)
    ensures Ordered(Apply(z, w, step))
  {
    var w' := Apply(z, w, step);
    forall p | p in w'.at ensures PlacedRight(w', p) {
      assert PlacedRight(w, p);
    }
  }

  lemma LeavingKeepsOrder(z: Codec, w: World, step: Step)
    requires Lawful(z) && Ordered(w) && Enabled(z, w, step)
    requires step.EndOut? || step.EndIn? || step.Abort? || step.Evict?
    ensures Ordered(Apply(z, w, step))
  {
    var w' := Apply(z, w, step);
    forall p | p in w'.at ensures PlacedRight(w', p) {
      assert p in w.at ==> PlacedRight(w, p);
    }
  }

  lemma StepKeepsOrder(z: Codec, w: World, step: Step)
    requires Lawful(z) && Ordered(w) && Enabled(z, w, step)
    ensures Ordered(Apply(z, w, step))
  {
    match step
    case Pick(e, id) => PickKeepsOrder(z, w, e, id);
    case Look(e) => LookKeepsOrder(z, w, e);
    case Send(_, _, _) => LoopKeepsOrder(z, w, step);
    case Receive(_, _, _) => LoopKeepsOrder(z, w, step);
    case _ => LeavingKeepsOrder(z, w, step);
  }

  /** After a miss both ends start afresh. */
  ghost predicate FreshAfterMiss(w: World, e: End) {
    e in w.looked && !w.looked[e] ==>
      && (In(e) in w.at && e !in w.received ==> w.at[In(e)].dec == 0)
      && (Out(Peer(e)) in w.at && Peer(e) !in w.sends ==> w.at[Out(Peer(e))].enc == 0)
      && (Peer(e) in w.sends ==> w.sends[Peer(e)].before == 0)
  }

  lemma PickKeepsFresh(z: Codec, w: World, f: End, id: Id, e: End)
    requires Lawful(z) && Ordered(w) && Enabled(z, w, Pick(f, id)) && FreshAfterMiss(w, e)
    ensures FreshAfterMiss(Apply(z, w, Pick(f, id)), e)
  {
  }

  lemma LookStartsFresh(z: Codec, w: World, e: End)
    requires Lawful(z) && Ordered(w) && Enabled(z, w, Look(e))
    ensures FreshAfterMiss(Apply(z, w, Look(e)), e)
  {
    assert Peer(Peer(e)) == e;
    assert Peer(e) in w.sends ==> ShookHands(w, Peer(e));
  }

  lemma LookKeepsFresh(z: Codec, w: World, f: End, e: End)
    requires Lawful(z) && Enabled(z, w, Look(f)) && FreshAfterMiss(w, e) && e != f
    ensures FreshAfterMiss(Apply(z, w, Look(f)), e)
  {
    var w' := Apply(z, w, Look(f));
    assert w'.looked == w.looked[f := w'.looked[f]] && w'.sends == w.sends && w'.received == w.received;
    assert In(e) in w'.at ==> In(e) in w.at && w'.at[In(e)] == w.at[In(e)];
  }

  lemma LoopKeepsFresh(z: Codec, w: World, step: Step, e: End)
    requires Lawful(z) && Ordered(w) && Enabled(z, w, step) && FreshAfterMiss(w, e) && (step.Send? || step.Receive?)
    ensures FreshAfterMiss(Apply(z, w, step), e)
  {
  }

  lemma LeavingKeepsFresh(z: Codec, w: World, step: Step, e: End)
    requires Lawful(z) && Enabled(z, w, step) && FreshAfterMiss(w, e)
    requires step.EndOut? || step.EndIn? || step.Abort? || step.Evict?
    ensures FreshAfterMiss(Apply(z, w, step), e)
  {
  }

  lemma StepKeepsFresh(z: Codec, w: World, step: Step, e: End)
    requires Lawful(z) && Ordered(w) && Enabled(z, w, step) && FreshAfterMiss(w, e)
    ensures FreshAfterMiss(Apply(z, w, step), e)
  {
    match step
    case Pick(f, id) => PickKeepsFresh(z, w, f, id, e);
    case Look(f) => if e == f { LookStartsFresh(z, w, e); } else { LookKeepsFresh(z, w, f, e); }
    case Send(_, _, _) => LoopKeepsFresh(z, w, step, e);
    case Receive(_, _, _) => LoopKeepsFresh(z, w, step, e);
    case _ => LeavingKeepsFresh(z, w, step, e);
  }

  lemma {:induction false} AlwaysOrdered(z: Codec, steps: seq<Step>)
    requires Lawful(z) && Interleaving(z, steps)
    ensures Ordered(WorldAfter(z, steps)) && forall e: End :: FreshAfterMiss(WorldAfter(z, steps), e)
  {
    if steps != [] {
      var before, last := steps[..|steps| - 1], steps[|steps| - 1];
      AlwaysOrdered(z, before);
      StepKeepsOrder(z, WorldAfter(z, before), last);
      forall e: End ensures FreshAfterMiss(WorldAfter(z, steps), e) {
        StepKeepsFresh(z, WorldAfter(z, before), last, e);
      }
    }
  }

  /** A miss is always safe: also when the pair was not there because the other end had picked
      it for a stream of its own, or had not checked it in yet. */
  lemma MissIsSafe(z: Codec, steps: seq<Step>, e: End)
    requires Lawful(z) && Interleaving(z, steps)
    ensures var w := WorldAfter(z, steps);
            e in w.looked && !w.looked[e] && Peer(e) in w.sends && In(e) in w.at && e !in w.received ==> Safe(w, e)
  {
    AlwaysOrdered(z, steps);
    assert FreshAfterMiss(WorldAfter(z, steps), e);
  }
}
