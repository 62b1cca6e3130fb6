/** Where the pair objects of overlapping streams are: each is at one place, the end of its loop
    decides where it goes, and a pair that was dropped never comes back. */
module PairPlaces {
  import opened Zstd
  import opened Handshake
  import opened CodecLoops
  import opened CodecPump
  import opened ReuseProtocol
  import opened OverlappingStreams

  /** A pair leaves a place, with no other place touched. */
  ghost predicate Leaves(w: World, w': World, p: Place) {
    && p !in w'.at
    && (forall q :: q != p ==> (q in w'.at <==> q in w.at) && (q in w.at ==> w'.at[q] == w.at[q]))
  }

  /** And is in the slot of its id instead, whatever was there. */
  ghost predicate GoesBack(w: World, w': World, p: Place)
    requires p in w.at
  {
    var slot := Slot(SideOf(p), w.at[p].id);
    && p !in w'.at && slot in w'.at && w'.at[slot] == w.at[p]
    && (forall q :: q != p && q != slot ==> (q in w'.at <==> q in w.at) && (q in w.at ==> w'.at[q] == w.at[q]))
  }

  /** In every interleaving the end of a loop decides: after a clean end or a local error exactly
      that pair is in the slot of its id, and after a timeout or a codec error it is gone and
      every slot as it was. */
  lemma EndsDecide(z: Codec, steps: seq<Step>, e: End)
    requires Lawful(z) && Interleaving(z, steps)
    ensures var w := WorldAfter(z, steps);
            && (Enabled(z, w, EndOut(e)) ==>
                  var w' := Apply(z, w, EndOut(e));
                  if w.sends[e].how == CleanEof || w.sends[e].how == IoError then GoesBack(w, w', Out(e))
                  else Leaves(w, w', Out(e)))
            && (Enabled(z, w, EndIn(e)) ==>
                  var w' := Apply(z, w, EndIn(e));
                  if w.received[e] == CleanEof || w.received[e] == IoError then GoesBack(w, w', In(e))
                  else Leaves(w, w', In(e)))
  {
  }

  /** Every pair has a number of its own. */
  ghost predicate Numbered(w: World) {
    && (forall p :: p in w.at ==> w.at[p].ref < w.made)
    && (forall p, q :: p in w.at && q in w.at && p != q ==> w.at[p].ref != w.at[q].ref)
  }

  /** Where the pair that is at a place after a step was before it, if it is not new. */
  function CameFrom(w: World, step: Step, p: Place): (q: Place) {
    match step
    case Pick(e, id) => if p == Out(e) then Slot(e.side, id) else p
    case Look(e) => if p == In(e) && Peer(e) in w.picked then Slot(e.side, w.picked[Peer(e)]) else p
    case EndOut(e) => if Out(e) in w.at && p == Slot(e.side, w.at[Out(e)].id) && e in w.sends && Kept(w.sends[e].how)
                      then Out(e) else p
    case EndIn(e) => if In(e) in w.at && p == Slot(e.side, w.at[In(e)].id) && e in w.received && Kept(w.received[e])
                     then In(e) else p
    case _ => p
  }

  /** The pair at a place is the one from there, or new. */
  ghost predicate KeepsItsNumber(w: World, w': World, step: Step, p: Place) {
    p in w'.at ==>
      var q := CameFrom(w, step, p);
      if q in w.at then w'.at[p].ref == w.at[q].ref
      else w'.at[p].ref == w.made && w'.made == w.made + 1 && (step.Pick? || step.Look?)
  }

  lemma PickCameFrom(z: Codec, w: World, e: End, id: Id, p: Place)
    requires Lawful(z) && Enabled(z, w, Pick(e, id))
    ensures KeepsItsNumber(w, Apply(z, w, Pick(e, id)), Pick(e, id), p)
  {
  }

  lemma LookCameFrom(z: Codec, w: World, e: End, p: Place)
    requires Lawful(z) && Enabled(z, w, Look(e))
    ensures KeepsItsNumber(w, Apply(z, w, Look(e)), Look(e), p)
  {
  }

  lemma LoopCameFrom(z: Codec, w: World, step: Step, p: Place)
    requires Lawful(z) && Enabled(z, w, step) && (step.Send? || step.Receive?)
    ensures KeepsItsNumber(w, Apply(z, w, step), step, p)
  {
  }

  lemma LeavingCameFrom(z: Codec, w: World, step: Step, p: Place)
    requires Lawful(z) && Enabled(z, w, step) && (step.EndOut? || step.EndIn? || step.Abort? || step.Evict?)
    ensures KeepsItsNumber(w, Apply(z, w, step), step, p)
  {
  }

  lemma PairsCameFrom(z: Codec, w: World, step: Step, p: Place)
    requires Lawful(z) && Enabled(z, w, step)
    ensures KeepsItsNumber(w, Apply(z, w, step), step, p) && w.made <= Apply(z, w, step).made
  {
    match step
    case Pick(e, id) => PickCameFrom(z, w, e, id, p);
    case Look(e) => LookCameFrom(z, w, e, p);
    case Send(_, _, _) => LoopCameFrom(z, w, step, p);
    case Receive(_, _, _) => LoopCameFrom(z, w, step, p);
    case _ => LeavingCameFrom(z, w, step, p);
  }

  /** Two pairs that are at different places came from different ones, at most one of them new. */
  ghost predicate CameApart(w: World, step: Step, p: Place, q: Place) {
    && CameFrom(w, step, p) != CameFrom(w, step, q)
    && (CameFrom(w, step, p) in w.at || CameFrom(w, step, q) in w.at)
  }

  lemma HandshakeCameApart(z: Codec, w: World, step: Step, p: Place, q: Place)
    requires Lawful(z) && Enabled(z, w, step) && p != q && (step.Pick? || step.Look?)
    requires p in Apply(z, w, step).at && q in Apply(z, w, step).at
    ensures CameApart(w, step, p, q)
  {
  }

  lemma LeavingCameApart(z: Codec, w: World, step: Step, p: Place, q: Place)
    requires Lawful(z) && Enabled(z, w, step) && p != q
    requires step.EndOut? || step.EndIn? || step.Abort? || step.Evict?
    requires p in Apply(z, w, step).at && q in Apply(z, w, step).at
    ensures CameApart(w, step, p, q)
  {
  }

  lemma LoopCameApart(z: Codec, w: World, step: Step, p: Place, q: Place)
    requires Lawful(z) && Enabled(z, w, step) && p != q && (step.Send? || step.Receive?)
    requires p in Apply(z, w, step).at && q in Apply(z, w, step).at
    ensures CameApart(w, step, p, q)
  {
  }

  lemma PairsCameApart(z: Codec, w: World, step: Step, p: Place, q: Place)
    requires Lawful(z) && Enabled(z, w, step) && p != q
    requires p in Apply(z, w, step).at && q in Apply(z, w, step).at
    ensures CameApart(w, step, p, q)
  {
    match step
    case Pick(_, _) => HandshakeCameApart(z, w, step, p, q);
    case Look(_) => HandshakeCameApart(z, w, step, p, q);
    case Send(_, _, _) => LoopCameApart(z, w, step, p, q);
    case Receive(_, _, _) => LoopCameApart(z, w, step, p, q);
    case _ => LeavingCameApart(z, w, step, p, q);
  }

  lemma NumbersStayApart(w: World, w': World, step: Step, p: Place, q: Place)
    requires Numbered(w) && KeepsItsNumber(w, w', step, p) && KeepsItsNumber(w, w', step, q)
    requires p in w'.at && q in w'.at && CameFrom(w, step, p) != CameFrom(w, step, q)
    requires CameFrom(w, step, p) in w.at || CameFrom(w, step, q) in w.at
    ensures w'.at[p].ref != w'.at[q].ref
  {
  }

  lemma StepKeepsNumbers(z: Codec, w: World, step: Step)
    requires Lawful(z) && Numbered(w) && Enabled(z, w, step)
    ensures Numbered(Apply(z, w, step))
  {
    var w' := Apply(z, w, step);
    forall p | p in w'.at ensures w'.at[p].ref < w'.made { PairsCameFrom(z, w, step, p); }
    forall p, q | p in w'.at && q in w'.at && p != q ensures w'.at[p].ref != w'.at[q].ref {
      PairsCameFrom(z, w, step, p);
      PairsCameFrom(z, w, step, q);
      PairsCameApart(z, w, step, p, q);
      NumbersStayApart(w, w', step, p, q);
    }
  }

  lemma {:induction false} AlwaysNumbered(z: Codec, steps: seq<Step>)
    requires Lawful(z) && Interleaving(z, steps)
    ensures Numbered(WorldAfter(z, steps))
  {
    if steps != [] {
      var before := steps[..|steps| - 1];
      AlwaysNumbered(z, before);
      StepKeepsNumbers(z, WorldAfter(z, before), steps[|steps| - 1]);
    }
  }

  /** A pair that was made and is nowhere. */
  ghost predicate Gone(w: World, ref: nat) {
    ref < w.made && forall p :: p in w.at ==> w.at[p].ref != ref
  }

  lemma StepKeepsGone(z: Codec, w: World, step: Step, ref: nat)
    requires Lawful(z) && Enabled(z, w, step) && Gone(w, ref)
    ensures Gone(Apply(z, w, step), ref)
  {
    var w' := Apply(z, w, step);
    PairsCameFrom(z, w, step, Slot(A, 0));
    forall p | p in w'.at ensures w'.at[p].ref != ref { PairsCameFrom(z, w, step, p); }
  }

  lemma {:induction false} PrefixInterleaves(z: Codec, steps: seq<Step>, n: nat)
    requires Lawful(z) && Interleaving(z, steps) && n <= |steps|
    ensures Interleaving(z, steps[..n])
    ensures n < |steps| ==>
              && Enabled(z, WorldAfter(z, steps[..n]), steps[n])
              && Interleaving(z, steps[..n + 1])
              && WorldAfter(z, steps[..n + 1]) == Apply(z, WorldAfter(z, steps[..n]), steps[n])
    decreases |steps| - n
  {
    if n == |steps| {
      assert steps[..n] == steps;
    } else {
      PrefixInterleaves(z, steps, n + 1);
      assert steps[..n + 1][..n] == steps[..n];
    }
  }

  /** A pair that is nowhere never comes back. */
  lemma {:induction false} GoneForGood(z: Codec, steps: seq<Step>, n: nat, ref: nat)
    requires Lawful(z) && Interleaving(z, steps) && n <= |steps| && Interleaving(z, steps[..n])
    requires Gone(WorldAfter(z, steps[..n]), ref)
    ensures Gone(WorldAfter(z, steps), ref)
    decreases |steps| - n
  {
    if n == |steps| {
      assert steps[..n] == steps;
    } else {
      PrefixInterleaves(z, steps, n);
      StepKeepsGone(z, WorldAfter(z, steps[..n]), steps[n], ref);
      GoneForGood(z, steps, n + 1, ref);
    }
  }

  /** The pairs that a step takes out of the world: that of a loop that timed out or had a codec
      error, both of a failed handshake, an evicted one, and one that a check-in displaces. */
  predicate Drops(w: World, step: Step, p: Place) {
    match step
    case EndOut(e) => e in w.sends && if Kept(w.sends[e].how) then Displaced(w, Out(e), p) else p == Out(e)
    case EndIn(e) => e in w.received && if Kept(w.received[e]) then Displaced(w, In(e), p) else p == In(e)
    case Abort(e) => p == Out(e) || p == In(e)
    case Evict(side, id) => p == Slot(side, id)
    case _ => false
  }

  predicate Displaced(w: World, back: Place, p: Place) {
    back in w.at && p == Slot(SideOf(back), w.at[back].id)
  }

  lemma DroppedLeaves(z: Codec, w: World, step: Step, p: Place, q: Place)
    requires Lawful(z) && Enabled(z, w, step) && p in w.at && Drops(w, step, p) && q in Apply(z, w, step).at
    ensures CameFrom(w, step, q) in w.at && CameFrom(w, step, q) != p
  {
  }

  lemma DroppedIsGone(z: Codec, w: World, step: Step, p: Place)
    requires Lawful(z) && Numbered(w) && Enabled(z, w, step) && p in w.at && Drops(w, step, p)
    ensures Gone(Apply(z, w, step), w.at[p].ref)
  {
    var w' := Apply(z, w, step);
    forall q | q in w'.at ensures w'.at[q].ref != w.at[p].ref {
      PairsCameFrom(z, w, step, q);
      DroppedLeaves(z, w, step, p, q);
    }
  }

  /** In every interleaving those pairs are in no table and with no end ever after. */
  lemma DroppedForGood(z: Codec, steps: seq<Step>, n: nat, p: Place)
    requires Lawful(z) && Interleaving(z, steps) && n < |steps| && Interleaving(z, steps[..n])
    requires p in WorldAfter(z, steps[..n]).at && Drops(WorldAfter(z, steps[..n]), steps[n], p)
    ensures Gone(WorldAfter(z, steps), WorldAfter(z, steps[..n]).at[p].ref)
  {
    var w := WorldAfter(z, steps[..n]);
    AlwaysNumbered(z, steps[..n]);
    PrefixInterleaves(z, steps, n);
    DroppedIsGone(z, w, steps[n], p);
    GoneForGood(z, steps, n + 1, w.at[p].ref);
  }

  /** Where the pair at a place goes in a step that does not drop it. */
  function GoesTo(w: World, step: Step, p: Place): (q: Place) {
    match step
    case Pick(e, id) => if p == Slot(e.side, id) then Out(e) else p
    case Look(e) => if Peer(e) in w.picked && p == Slot(e.side, w.picked[Peer(e)]) then In(e) else p
    case EndOut(e) => if p == Out(e) && p in w.at then Slot(e.side, w.at[p].id) else p
    case EndIn(e) => if p == In(e) && p in w.at then Slot(e.side, w.at[p].id) else p
    case _ => p
  }

  /** The pair is there after the step, the same one under the same id; and only a pair of the
      stream at work has changed: the sender's log and the receiver's input in their loops, and
      the sender's log, which is empty then, in a miss. */
  ghost predicate Stays(w: World, w': World, step: Step, p: Place)
    requires p in w.at
  {
    var q := GoesTo(w, step, p);
    && q in w'.at && w'.at[q].ref == w.at[p].ref && w'.at[q].id == w.at[p].id
    && (w'.at[q].log != w.at[p].log ==>
          || (step.Send? && p == Out(step.end) && w'.at[q].log == w.at[p].log + step.ops)
          || (step.Look? && p == Out(Peer(step.end)) && w'.at[q].log == []))
    && (w'.at[q].fed != w.at[p].fed ==> step.Receive? && p == In(step.end))
  }

  lemma PickStays(z: Codec, w: World, e: End, id: Id, p: Place)
    requires Lawful(z) && Ordered(w) && Enabled(z, w, Pick(e, id)) && p in w.at
    ensures Stays(w, Apply(z, w, Pick(e, id)), Pick(e, id), p)
  {
    assert PlacedRight(w, p);
  }

  lemma LookStays(z: Codec, w: World, e: End, p: Place)
    requires Lawful(z) && Ordered(w) && Enabled(z, w, Look(e)) && p in w.at
    ensures Stays(w, Apply(z, w, Look(e)), Look(e), p)
  {
    assert PlacedRight(w, p);
  }

  lemma LoopStays(z: Codec, w: World, step: Step, p: Place)
    requires Lawful(z) && Enabled(z, w, step) && p in w.at && (step.Send? || step.Receive?)
    ensures Stays(w, Apply(z, w, step), step, p)
  {
  }

  lemma LeavingStays(z: Codec, w: World, step: Step, p: Place)
    requires Lawful(z) && Enabled(z, w, step) && p in w.at && !Drops(w, step, p)
    requires step.EndOut? || step.EndIn? || step.Abort? || step.Evict?
    ensures Stays(w, Apply(z, w, step), step, p)
  {
  }

  /** In every interleaving all other pairs stay, each at one place. */
  lemma OthersStay(z: Codec, steps: seq<Step>, step: Step, p: Place)
    requires Lawful(z) && Interleaving(z, steps) && Enabled(z, WorldAfter(z, steps), step)
    requires p in WorldAfter(z, steps).at && !Drops(WorldAfter(z, steps), step, p)
    ensures Stays(WorldAfter(z, steps), Apply(z, WorldAfter(z, steps), step), step, p)
    ensures Numbered(Apply(z, WorldAfter(z, steps), step))
  {
    AlwaysOrdered(z, steps);
    AlwaysNumbered(z, steps);
    var w := WorldAfter(z, steps);
    StepKeepsNumbers(z, w, step);
    match step
    case Pick(e, id) => PickStays(z, w, e, id, p);
    case Look(e) => LookStays(z, w, e, p);
    case Send(_, _, _) => LoopStays(z, w, step, p);
    case Receive(_, _, _) => LoopStays(z, w, step, p);
    case _ => LeavingStays(z, w, step, p);
  }

  /** In every interleaving an end can pick any id and look up what the other has picked, and until
      the loops begin its handshake can fail. */
  lemma HandshakesGoOn(z: Codec, steps: seq<Step>, e: End)
    requires Lawful(z) && Interleaving(z, steps)
    ensures var w := WorldAfter(z, steps);
            && (e !in w.picked ==> forall id: Id :: id != 0 ==> Enabled(z, w, Pick(e, id)))
            && (Out(e) in w.at && e !in w.sends && e !in w.received ==> Enabled(z, w, Abort(e)))
            && (Out(e) in w.at && Peer(e) in w.picked && e !in w.looked ==> Enabled(z, w, Look(e)))
  {
    AlwaysOrdered(z, steps);
    var w := WorldAfter(z, steps);
    assert Out(e) in w.at ==> PlacedRight(w, Out(e));
  }

  lemma {:induction false} CleanSendsFlush(z: Codec, steps: seq<Step>, e: End)
    requires Lawful(z) && Interleaving(z, steps)
    ensures var w := WorldAfter(z, steps);
            e in w.sends && w.sends[e].how == CleanEof ==> EndsInFlush(w.sends[e].ops)
  {
    if steps != [] {
      CleanSendsFlush(z, steps[..|steps| - 1], e);
      SendsAreRecorded(z, WorldAfter(z, steps[..|steps| - 1]), steps[|steps| - 1]);
    }
  }

  lemma SendsAreRecorded(z: Codec, w: World, step: Step)
    requires Lawful(z) && Enabled(z, w, step)
    ensures var w' := Apply(z, w, step);
            if step.Send? then
              && step.end in w'.sends && w'.sends == w.sends[step.end := w'.sends[step.end]]
              && w'.sends[step.end].how == step.how && w'.sends[step.end].ops == step.ops
            else w'.sends == w.sends
  {
  }

  /** Its loops can end in every way that the bytes allow. */
  lemma LoopsEndAnyHow(z: Codec, steps: seq<Step>, e: End)
    requires Lawful(z) && Interleaving(z, steps)
    ensures ShookHands(WorldAfter(z, steps), e) ==> EndsAnyHow(z, WorldAfter(z, steps), e)
  {
    CleanSendsFlush(z, steps, Peer(e));
    var w := WorldAfter(z, steps);
    if ShookHands(w, e) { CanEndAnyHow(z, w, e); }
  }

  lemma CanEndAnyHow(z: Codec, w: World, e: End)
    requires Lawful(z) && ShookHands(w, e)
    requires Peer(e) in w.sends && w.sends[Peer(e)].how == CleanEof ==> EndsInFlush(w.sends[Peer(e)].ops)
    ensures EndsAnyHow(z, w, e)
  {
  }

  ghost predicate EndsAnyHow(z: Codec, w: World, e: End)
    requires Lawful(z)
  {
    && (Out(e) in w.at && e !in w.sends ==>
          forall ops, how :: how != CleanEof || EndsInFlush(ops) ==> Enabled(z, w, Send(e, ops, how)))
    && (In(e) in w.at && e !in w.received ==>
          && Enabled(z, w, Receive(e, 0, Timeout)) && Enabled(z, w, Receive(e, 0, CodecError))
          && (Peer(e) in w.sends ==>
                forall n, how :: Possible(z, w.sends[Peer(e)].log, w.at[In(e)].fed, LegTo(w, e, n, how)) ==>
                  Enabled(z, w, Receive(e, n, how))))
  }

  /** A loop that has ended can give its pair up, and any entry of a table can be evicted. */
  lemma PairsCanLeave(z: Codec, w: World, e: End)
    requires Lawful(z)
    ensures Out(e) in w.at && e in w.sends ==> Enabled(z, w, EndOut(e))
    ensures In(e) in w.at && e in w.received ==> Enabled(z, w, EndIn(e))
    ensures forall side, id :: Slot(side, id) in w.at ==> Enabled(z, w, Evict(side, id))
  {
  }
}
