/** Why overlapping streams have to be orderly: a run over the difference codec in which every
    loop ends cleanly and nothing is lost, and yet a stream delivers what was not written. */
module OverlapLimits {
  import opened Bytes
  import opened Zstd
  import opened DeltaCodec
  import opened Handshake
  import opened CodecLoops
  import opened ReuseProtocol
  import opened OverlappingStreams
  import opened ReuseLimits

  /** Loops end cleanly, nothing is evicted and no handshake fails. */
  predicate CleanStep(step: Step) {
    match step
    case Send(_, _, how) => how == CleanEof
    case Receive(_, _, how) => how == CleanEof
    case Abort(_) => false
    case Evict(_, _) => false
    case _ => true
  }

  ghost predicate LeadsTo(steps: seq<Step>, w: World)
    requires Lawful(Delta())
  {
    && Interleaving(Delta(), steps) && WorldAfter(Delta(), steps) == w
    && forall i :: 0 <= i < |steps| ==> CleanStep(steps[i])
  }

  ghost predicate Reached(w: World)
    requires Lawful(Delta())
  {
    exists steps :: LeadsTo(steps, w)
  }

  lemma OneMoreStep(w: World, step: Step)
    requires Lawful(Delta()) && Reached(w) && Enabled(Delta(), w, step) && CleanStep(step)
    ensures Reached(Apply(Delta(), w, step))
  {
    var steps :| LeadsTo(steps, w);
    var more := steps + [step];
    assert more[..|more| - 1] == steps;
    assert LeadsTo(more, Apply(Delta(), w, step));
  }

  predicate At(w: World, p: Place, h: Option<Held>) {
    if h.Some? then p in w.at && w.at[p] == h.value else p !in w.at
  }

  /** What the run is about: the pair with id 1 in both tables, and the one of that id that the
      receiver of stream 0 has, which it has not checked in yet. */
  datatype PairOne = PairOne(atA: Option<Held>, atB: Option<Held>, late: Option<Held>)

  ghost predicate Shows(w: World, one: PairOne) {
    && At(w, Slot(A, 1), one.atA) && At(w, Slot(B, 1), one.atB)
    && (one.late.Some? ==>
          At(w, In(End(B, 0)), one.late) && End(B, 0) in w.received && w.received[End(B, 0)] == CleanEof)
  }

  /** Streams from `k` on and ids from `k + 2` on are new. */
  ghost predicate NewFrom(w: World, k: nat) {
    && (forall e: End :: e.k >= k ==> e !in w.picked && e !in w.looked && e !in w.sends && e !in w.received)
    && (forall side: Side, id: Id :: id >= k + 2 ==> Slot(side, id) !in w.at)
  }

  /** Stream `k` is next. */
  ghost predicate Before(w: World, k: nat, one: PairOne)
    requires Lawful(Delta())
  {
    Reached(w) && NewFrom(w, k) && Shows(w, one) && (one.late.Some? ==> k > 0)
  }

  /** Stream `k` is under way. */
  ghost predicate During(w: World, k: nat, one: PairOne)
    requires Lawful(Delta())
  {
    Reached(w) && NewFrom(w, k + 1) && Shows(w, one) && (one.late.Some? ==> k > 0)
  }

  predicate Idle(w: World, e: End) {
    e !in w.looked && e !in w.sends && e !in w.received
  }

  /** How far stream `k` has got: A has picked pair 1, then B a new one, then both have looked. */
  predicate PickedAtA(w: World, k: nat) {
    && k < 9 && Idle(w, End(A, k)) && Idle(w, End(B, k)) && End(B, k) !in w.picked
    && End(A, k) in w.picked && w.picked[End(A, k)] == 1 && Slot(A, k + 2) !in w.at && Slot(B, k + 2) !in w.at
  }

  predicate PickedAtBoth(w: World, k: nat) {
    && k < 9 && Idle(w, End(A, k)) && Idle(w, End(B, k)) && Out(End(B, k)) in w.at && Slot(A, k + 2) !in w.at
    && End(A, k) in w.picked && w.picked[End(A, k)] == 1 && End(B, k) in w.picked && w.picked[End(B, k)] == k + 2
  }

  predicate LookedAtA(w: World, k: nat) {
    && End(A, k) in w.looked && Idle(w, End(B, k)) && End(A, k) !in w.sends && Out(End(B, k)) in w.at
    && End(A, k) in w.picked && w.picked[End(A, k)] == 1 && End(B, k) in w.picked
  }

  predicate LookedAtBoth(w: World, k: nat) {
    ShookHands(w, End(A, k)) && End(A, k) !in w.sends && End(B, k) !in w.received
  }

  lemma PickTakes(w: World, k: nat, one: PairOne) returns (w': World)
    requires Lawful(Delta()) && Before(w, k, one) && k < 9 && one.atA.Some?
    ensures During(w', k, one.(atA := None)) && PickedAtA(w', k) && At(w', Out(End(A, k)), one.atA)
  {
    var step := Pick(End(A, k), 1);
    w' := Apply(Delta(), w, step);
    OneMoreStep(w, step);
  }

  lemma PickMakes(w: World, k: nat, one: PairOne) returns (w': World)
    requires Lawful(Delta()) && Before(w, k, one) && k < 9 && one.atA.None?
    ensures During(w', k, one) && PickedAtA(w', k) && At(w', Out(End(A, k)), Some(NewPair(1, w.made)))
  {
    var step := Pick(End(A, k), 1);
    w' := Apply(Delta(), w, step);
    OneMoreStep(w, step);
  }

  lemma PickAtB(w: World, k: nat, one: PairOne, h: Held) returns (w': World)
    requires Lawful(Delta()) && During(w, k, one) && PickedAtA(w, k) && At(w, Out(End(A, k)), Some(h))
    ensures During(w', k, one) && PickedAtBoth(w', k) && At(w', Out(End(A, k)), Some(h))
  {
    var step := Pick(End(B, k), k + 2);
    w' := Apply(Delta(), w, step);
    OneMoreStep(w, step);
  }

  lemma LookAtA(w: World, k: nat, one: PairOne, h: Held) returns (w': World)
    requires Lawful(Delta()) && During(w, k, one) && PickedAtBoth(w, k) && At(w, Out(End(A, k)), Some(h))
    ensures During(w', k, one) && LookedAtA(w', k) && At(w', Out(End(A, k)), Some(h))
  {
    var step := Look(End(A, k));
    w' := Apply(Delta(), w, step);
    OneMoreStep(w, step);
  }

  lemma LookHits(w: World, k: nat, one: PairOne, h: Held) returns (w': World)
    requires Lawful(Delta()) && During(w, k, one) && LookedAtA(w, k) && At(w, Out(End(A, k)), Some(h))
    requires one.atB.Some?
    ensures During(w', k, one.(atB := None)) && LookedAtBoth(w', k)
    ensures At(w', Out(End(A, k)), Some(h)) && At(w', In(End(B, k)), one.atB) && w'.looked[End(B, k)]
  {
    var step := Look(End(B, k));
    w' := Apply(Delta(), w, step);
    OneMoreStep(w, step);
  }

  lemma LookMisses(w: World, k: nat, one: PairOne, h: Held) returns (w': World, g: Held)
    requires Lawful(Delta()) && During(w, k, one) && LookedAtA(w, k) && At(w, Out(End(A, k)), Some(h))
    requires one.atB.None?
    ensures During(w', k, one) && LookedAtBoth(w', k)
    ensures At(w', Out(End(A, k)), Some(h.(log := [], enc := 0)))
    ensures At(w', In(End(B, k)), Some(g)) && g == NewPair(1, w.made)
  {
    var step := Look(End(B, k));
    g := NewPair(1, w.made);
    w' := Apply(Delta(), w, step);
    OneMoreStep(w, step);
  }

  lemma SendByte(w: World, k: nat, one: PairOne, h: Held, g: Held, b: byte) returns (w': World)
    requires Lawful(Delta()) && During(w, k, one) && LookedAtBoth(w, k)
    requires At(w, Out(End(A, k)), Some(h)) && At(w, In(End(B, k)), Some(g))
    ensures During(w', k, one) && ShookHands(w', End(A, k)) && End(B, k) !in w'.received
    ensures At(w', In(End(B, k)), Some(g)) && Out(End(A, k)) in w'.at && w'.looked == w.looked
    ensures w'.at[Out(End(A, k))].id == h.id && w'.at[Out(End(A, k))].log == h.log + OneByte(b)
    ensures End(A, k) in w'.sends && w'.sends[End(A, k)].log == h.log && w'.sends[End(A, k)].ops == OneByte(b)
    ensures w'.sends[End(A, k)].how == CleanEof
  {
    var step := Send(End(A, k), OneByte(b), CleanEof);
    w' := Apply(Delta(), w, step);
    OneMoreStep(w, step);
  }

  /** B receives a byte that came over new contexts. */
  lemma ReceiveByte(w: World, k: nat, one: PairOne, h: Held, g: Held, b: byte) returns (w': World, g': Held)
    requires Lawful(Delta()) && During(w, k, one) && ShookHands(w, End(A, k)) && End(B, k) !in w.received
    requires At(w, Out(End(A, k)), Some(h)) && At(w, In(End(B, k)), Some(g)) && g.fed == []
    requires End(A, k) in w.sends && w.sends[End(A, k)].log == [] && w.sends[End(A, k)].ops == OneByte(b)
    requires w.sends[End(A, k)].how == CleanEof
    ensures During(w', k, one) && At(w', Out(End(A, k)), Some(h)) && End(A, k) in w'.sends
    ensures w'.sends[End(A, k)].how == CleanEof && g'.id == g.id && g'.fed == [b]
    ensures At(w', In(End(B, k)), Some(g')) && End(B, k) in w'.received && w'.received[End(B, k)] == CleanEof
  {
    FirstByteSent(b);
    assert [] + [b] == [b];
    assert LegTo(w, End(B, k), 1, CleanEof) == ByteLeg(b);
    assert Possible(Delta(), [], [], ByteLeg(b));
    var step := Receive(End(B, k), 1, CleanEof);
    w' := Apply(Delta(), w, step);
    g' := w'.at[In(End(B, k))];
    OneMoreStep(w, step);
  }

  lemma CheckInAtA(w: World, k: nat, one: PairOne, h: Held) returns (w': World)
    requires Lawful(Delta()) && During(w, k, one) && At(w, Out(End(A, k)), Some(h)) && h.id == 1
    requires End(A, k) in w.sends && w.sends[End(A, k)].how == CleanEof
    ensures During(w', k, one.(atA := Some(h)))
    ensures w'.received == w.received
    ensures forall p: Place :: p.In? ==> At(w', p, if p in w.at then Some(w.at[p]) else None)
  {
    var step := EndOut(End(A, k));
    w' := Apply(Delta(), w, step);
    OneMoreStep(w, step);
  }

  lemma CheckInAtB(w: World, k: nat, d: End, one: PairOne, g: Held) returns (w': World)
    requires Lawful(Delta()) && During(w, k, one) && At(w, In(d), Some(g)) && g.id == 1 && d.side == B && d.k <= k
    requires d in w.received && w.received[d] == CleanEof
    ensures During(w', k, PairOne(one.atA, Some(g), if d.k == 0 then None else one.late))
  {
    var step := EndIn(d);
    w' := Apply(Delta(), w, step);
    OneMoreStep(w, step);
  }

  /** Both ends of stream `k` pick, and A looks B's pick up. */
  lemma PickAndLook(w: World, k: nat, one: PairOne) returns (w': World, h: Held)
    requires Lawful(Delta()) && Before(w, k, one) && k < 9
    ensures During(w', k, one.(atA := None)) && LookedAtA(w', k)
    ensures At(w', Out(End(A, k)), Some(h)) && h == if one.atA.Some? then one.atA.value else NewPair(1, w.made)
  {
    h := if one.atA.Some? then one.atA.value else NewPair(1, w.made);
    if one.atA.Some? {
      w' := PickTakes(w, k, one);
    } else {
      w' := PickMakes(w, k, one);
    }
    w' := PickAtB(w', k, one.(atA := None), h);
    w' := LookAtA(w', k, one.(atA := None), h);
  }

  /** While B does not have pair 1, A sends a byte over it and checks it in. */
  lemma SendOverMiss(w: World, k: nat, one: PairOne, b: byte) returns (w': World, h: Held, g: Held)
    requires Lawful(Delta()) && Before(w, k, one) && k < 9 && one.atB.None? && (one.atA.Some? ==> one.atA.value.id == 1)
    ensures During(w', k, one.(atA := Some(h))) && h.id == 1 && h.log == OneByte(b)
    ensures At(w', In(End(B, k)), Some(g)) && g.id == 1 && g.fed == [b]
    ensures End(B, k) in w'.received && w'.received[End(B, k)] == CleanEof
  {
    var out := one.(atA := None);
    w', h := PickAndLook(w, k, one);
    var blank;
    w', blank := LookMisses(w', k, out, h);
    h := h.(log := [], enc := 0);
    w' := SendByte(w', k, out, h, blank, b);
    assert [] + OneByte(b) == OneByte(b);
    h := w'.at[Out(End(A, k))];
    w', g := ReceiveByte(w', k, out, h, blank, b);
    w' := CheckInAtA(w', k, out, h);
  }

  /** The pair of stream 1, in step with A's, is displaced by the one of stream 0, which B checks
      in after it. */
  lemma LateCheckIn() returns (w: World, h: Held, g: Held)
    requires Lawful(Delta())
    ensures Before(w, 2, PairOne(Some(h), Some(g), None))
    ensures h.id == g.id == 1 && h.log == OneByte(7) && g.fed == [5]
  {
    assert LeadsTo([], NEW_WORLD);
    w, h, g := SendOverMiss(NEW_WORLD, 0, PairOne(None, None, None), 5);
    var displaced;
    w, h, displaced := SendOverMiss(w, 1, PairOne(Some(h), None, Some(g)), 7);
    w := CheckInAtB(w, 1, End(B, 1), PairOne(Some(h), None, Some(g)), displaced);
    w := CheckInAtB(w, 1, End(B, 0), PairOne(Some(h), Some(displaced), Some(g)), g);
  }

  /** What reaches a decoder is not what was written. */
  ghost predicate GoesWrong(w: World, e: End, arrived: nat)
    requires Lawful(Delta())
  {
    && Enabled(Delta(), w, Receive(e, arrived, CleanEof)) && Peer(e) in w.sends && w.sends[Peer(e)].how == CleanEof
    && var log, fed, leg := w.sends[Peer(e)].log, w.at[In(e)].fed, LegTo(w, e, arrived, CleanEof);
    Emitted(Delta(), fed, Reaches(Delta(), log, leg)) != Raw(leg.ops)
  }

  lemma NineGoesWrong(w: World, e: End)
    requires Lawful(Delta()) && In(e) in w.at && w.at[In(e)].fed == [5] && ShookHands(w, e) && e !in w.received
    requires Peer(e) in w.sends && w.sends[Peer(e)].log == OneByte(7) && w.sends[Peer(e)].ops == OneByte(9)
    requires w.sends[Peer(e)].how == CleanEof
    ensures GoesWrong(w, e, 1)
  {
    NineAfterSeven();
    assert LegTo(w, e, 1, CleanEof) == ByteLeg(9);
  }

  /** So a clean end of the next receiver over that pair delivers what was not written, although
      every loop so far ended cleanly, nothing was lost, and the lookup hit. */
  lemma LateCheckInMisdelivers() returns (w: World, e: End)
    ensures Lawful(Delta()) && Reached(w) && GoesWrong(w, e, 1) && e in w.looked && w.looked[e]
  {
    DeltaIsLawful();
    var h, g;
    w, h, g := LateCheckIn();
    var one := PairOne(Some(h), Some(g), None);
    w, h := PickAndLook(w, 2, one);
    w := LookHits(w, 2, one.(atA := None), h);
    w := SendByte(w, 2, PairOne(None, None, None), h, g, 9);
    e := End(B, 2);
    NineGoesWrong(w, e);
  }
}
