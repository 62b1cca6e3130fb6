/** Overlapping streams that never use one pair at the same time: as long as all of them end
    cleanly, both tables stay in step, and every stream delivers exactly its input. */
module OrderlyStreams {
  import opened Zstd
  import opened Handshake
  import opened CodecLoops
  import opened ReuseProtocol
  import opened OverlappingStreams

  /** A pick takes a pair, or a new id, that no stream at either peer is using; loops end cleanly,
      those that receive after those that send; nothing is evicted and no handshake fails. */
  predicate Orderly(w: World, step: Step) {
    match step
    case Pick(_, id) => forall p :: p in w.at && w.at[p].id == id ==> p.Slot?
    case Look(_) => true
    case Send(_, _, how) => how == CleanEof
    case Receive(e, _, how) => how == CleanEof && Peer(e) in w.sends
    case EndOut(_) => true
    case EndIn(_) => true
    case Abort(_) => false
    case Evict(_, _) => false
  }

  ghost predicate OrderlyRun(z: Codec, steps: seq<Step>)
    requires Lawful(z) && Interleaving(z, steps)
  {
    steps == [] ||
    (OrderlyRun(z, steps[..|steps| - 1]) && Orderly(WorldAfter(z, steps[..|steps| - 1]), steps[|steps| - 1]))
  }

  // ------------------------------------------------------------ what orderly steps keep

  /** No peer has two pairs of one id. */
  ghost predicate OneEach(w: World) {
    forall p, q :: p in w.at && q in w.at && p != q && SideOf(p) == SideOf(q) ==> w.at[p].id != w.at[q].id
  }

  predicate Partners(p: Place, q: Place) {
    (p.Out? && q == In(Peer(p.end))) || (q.Out? && p == In(Peer(q.end)))
  }

  /** Two pairs of one id that are out are out with the two ends of one direction. */
  ghost predicate OneUse(w: World) {
    forall p, q :: p in w.at && q in w.at && p != q && !p.Slot? && !q.Slot? && w.at[p].id == w.at[q].id ==>
      Partners(p, q)
  }

  /** What was sent to an end is still to be received. */
  predicate Pending(w: World, q: Place) {
    q.In? && q.end !in w.received && Peer(q.end) in w.sends
  }

  /** The decoder at `q` carries the stamp of the encoder at `p`, or the one before while what
      that encoder has sent is pending. */
  predicate Matched(w: World, p: Place, q: Place)
    requires p in w.at && q in w.at
  {
    if Pending(w, q)
    then w.at[q].dec == w.sends[Peer(q.end)].before && w.at[p].enc == w.sends[Peer(q.end)].after
    else w.at[p].enc == w.at[q].dec
  }

  predicate Companions(w: World, p: Place, q: Place) {
    p in w.at && q in w.at && SideOf(q) != SideOf(p) && w.at[q].id == w.at[p].id
  }

  ghost predicate AllMatched(w: World) {
    forall p, q :: Companions(w, p, q) ==> Matched(w, p, q)
  }

  ghost predicate Accompanied(w: World, p: Place) {
    exists q :: Companions(w, p, q)
  }

  /** A pair that the other peer does not have is new, and not looked up yet. */
  predicate StillNew(w: World, p: Place)
    requires p in w.at
  {
    p.Out? && Peer(p.end) !in w.looked && w.at[p].enc == w.at[p].dec == 0
  }

  ghost predicate NoneAlone(w: World) {
    forall p :: p in w.at ==> Accompanied(w, p) || StillNew(w, p)
  }

  /** Pairs are out with their streams until their loops have ended, cleanly. */
  ghost predicate InStage(w: World) {
    && (forall e :: e in w.picked && e !in w.sends ==> Out(e) in w.at)
    && (forall e :: e in w.looked && e !in w.received ==> In(e) in w.at)
    && (forall e :: e in w.received ==> Peer(e) in w.sends && w.received[e] == CleanEof)
    && (forall e :: e in w.sends ==> w.sends[e].how == CleanEof)
  }

  ghost predicate Tidy(w: World) {
    Ordered(w) && OneEach(w) && OneUse(w) && AllMatched(w) && NoneAlone(w) && InStage(w)
  }

  // ------------------------------------------------------------ a pair moves, or is new

  function Was(from: Place, to: Place, p: Place): (q: Place) {
    if p == to then from else p
  }

  /** A pair goes from one place of a peer to another. */
  ghost predicate Moved(w: World, w': World, from: Place, to: Place) {
    && from in w.at && to !in w.at && SideOf(from) == SideOf(to)
    && w'.at == (w.at - {from})[to := w.at[from]]
    && w'.sends == w.sends && w'.received == w.received
    && !Pending(w, from) && !Pending(w', to)
  }

  lemma MovedFrom(w: World, w': World, from: Place, to: Place, p: Place)
    requires Moved(w, w', from, to) && p in w'.at
    ensures var q := Was(from, to, p);
            && q in w.at && w'.at[p] == w.at[q] && SideOf(q) == SideOf(p)
            && Pending(w', p) == Pending(w, q) && (Pending(w', p) ==> p == q)
  {
  }

  lemma MoveKeepsOneEach(w: World, w': World, from: Place, to: Place)
    requires OneEach(w) && Moved(w, w', from, to)
    ensures OneEach(w')
  {
    forall p, q | p in w'.at && q in w'.at && p != q && SideOf(p) == SideOf(q) ensures w'.at[p].id != w'.at[q].id {
      MovedFrom(w, w', from, to, p);
      MovedFrom(w, w', from, to, q);
      assert Was(from, to, p) != Was(from, to, q);
    }
  }

  lemma MoveKeepsMatched(w: World, w': World, from: Place, to: Place)
    requires AllMatched(w) && Moved(w, w', from, to)
    ensures AllMatched(w')
  {
    forall p, q | Companions(w', p, q) ensures Matched(w', p, q) {
      MovedFrom(w, w', from, to, p);
      MovedFrom(w, w', from, to, q);
      assert Companions(w, Was(from, to, p), Was(from, to, q));
    }
  }

  lemma MoveKeepsCompany(w: World, w': World, from: Place, to: Place, p: Place)
    requires Moved(w, w', from, to) && p in w'.at && Was(from, to, p) in w.at && Accompanied(w, Was(from, to, p))
    ensures Accompanied(w', p)
  {
    MovedFrom(w, w', from, to, p);
    var was := Was(from, to, p);
    var q :| Companions(w, was, q);
    var now := if q == from then to else q;
    assert Companions(w', p, now);
  }

  /** A peer makes a new pair for an id that it has none of, and if the other peer has one
      that is new too. */
  ghost predicate Made(w: World, w': World, to: Place, id: Id) {
    && to !in w.at && w'.at == w.at[to := NewPair(id, w.made)]
    && w'.sends == w.sends && w'.received == w.received && !Pending(w', to)
    && (forall p :: p in w.at && w.at[p].id == id ==>
          SideOf(p) != SideOf(to) && w.at[p].enc == w.at[p].dec == 0 && !Pending(w, p))
  }

  lemma MakingKeepsOneEach(w: World, w': World, to: Place, id: Id)
    requires OneEach(w) && Made(w, w', to, id)
    ensures OneEach(w')
  {
    forall p, q | p in w'.at && q in w'.at && p != q && SideOf(p) == SideOf(q) ensures w'.at[p].id != w'.at[q].id {
      assert p == to || p in w.at;
      assert q == to || q in w.at;
    }
  }

  lemma MakingKeepsMatched(w: World, w': World, to: Place, id: Id)
    requires AllMatched(w) && Made(w, w', to, id)
    ensures AllMatched(w')
  {
    forall p, q | Companions(w', p, q) ensures Matched(w', p, q) {
      if p != to && q != to { assert Companions(w, p, q); }
    }
  }

  lemma MovedInCompany(w: World, w': World, from: Place, to: Place)
    requires NoneAlone(w) && Moved(w, w', from, to) && w'.looked == w.looked && !StillNew(w, from)
    ensures NoneAlone(w')
  {
    forall p | p in w'.at && !Accompanied(w', p) ensures StillNew(w', p) {
      MovedFrom(w, w', from, to, p);
      if Accompanied(w, Was(from, to, p)) { MoveKeepsCompany(w, w', from, to, p); }
    }
  }

  lemma MakingKeepsCompany(w: World, w': World, to: Place, id: Id, p: Place)
    requires Made(w, w', to, id) && p in w.at && Accompanied(w, p)
    ensures Accompanied(w', p)
  {
    var q :| Companions(w, p, q);
    assert Companions(w', p, q);
  }

  lemma MadeInCompany(w: World, w': World, to: Place, id: Id)
    requires NoneAlone(w) && Made(w, w', to, id) && w'.looked == w.looked && StillNew(w', to)
    ensures NoneAlone(w')
  {
    forall p | p in w'.at && !Accompanied(w', p) ensures StillNew(w', p) {
      if p in w.at && Accompanied(w, p) { MakingKeepsCompany(w, w', to, id, p); }
    }
  }

  /** The pair at `to` is out now, beside at most its partner. */
  lemma NowInUse(w: World, w': World, to: Place)
    requires OneUse(w) && to in w'.at
    requires forall p :: p in w'.at && p != to ==> p in w.at && w'.at[p] == w.at[p]
    requires forall p :: p in w.at && p != to && !p.Slot? && w.at[p].id == w'.at[to].id ==> Partners(p, to)
    ensures OneUse(w')
  {
  }

  // ------------------------------------------------------------ step by step

  /** An idle pair is in both tables. */
  lemma BothHaveIt(w: World, p: Place)
    requires Ordered(w) && NoneAlone(w) && p in w.at
    requires forall q :: q in w.at && w.at[q].id == w.at[p].id ==> q.Slot?
    ensures Slot(A, w.at[p].id) in w.at && Slot(B, w.at[p].id) in w.at
  {
    var q :| Companions(w, p, q);
    assert PlacedRight(w, p) && PlacedRight(w, q);
  }

  lemma PickMoves(z: Codec, w: World, e: End, id: Id)
    requires Lawful(z) && Ordered(w) && NoneAlone(w) && Enabled(z, w, Pick(e, id)) && Orderly(w, Pick(e, id))
    ensures var w', slot := Apply(z, w, Pick(e, id)), Slot(e.side, id);
            if slot in w.at then Moved(w, w', slot, Out(e)) else Made(w, w', Out(e), id)
  {
    assert Out(e) in w.at ==> PlacedRight(w, Out(e));
    var slot := Slot(e.side, id);
    if slot !in w.at {
      if p :| p in w.at && w.at[p].id == id { BothHaveIt(w, p); }
    }
  }

  lemma PickKeepsCompany(z: Codec, w: World, e: End, id: Id)
    requires Lawful(z) && Tidy(w) && Enabled(z, w, Pick(e, id)) && Orderly(w, Pick(e, id))
    ensures NoneAlone(Apply(z, w, Pick(e, id)))
  {
    var w', slot := Apply(z, w, Pick(e, id)), Slot(e.side, id);
    PickMoves(z, w, e, id);
    if slot in w.at {
      MovedInCompany(w, w', slot, Out(e));
    } else {
      assert Peer(Peer(e)) == e;
      MadeInCompany(w, w', Out(e), id);
    }
  }

  lemma PickKeepsOneUse(z: Codec, w: World, e: End, id: Id)
    requires Lawful(z) && Ordered(w) && OneUse(w) && Enabled(z, w, Pick(e, id)) && Orderly(w, Pick(e, id))
    ensures OneUse(Apply(z, w, Pick(e, id)))
  {
    assert Slot(e.side, id) in w.at ==> PlacedRight(w, Slot(e.side, id));
    NowInUse(w, Apply(z, w, Pick(e, id)), Out(e));
  }

  lemma PickKeepsEach(z: Codec, w: World, e: End, id: Id)
    requires Lawful(z) && Tidy(w) && Enabled(z, w, Pick(e, id)) && Orderly(w, Pick(e, id))
    ensures var w' := Apply(z, w, Pick(e, id)); OneEach(w') && AllMatched(w')
  {
    var w', slot := Apply(z, w, Pick(e, id)), Slot(e.side, id);
    PickMoves(z, w, e, id);
    if slot in w.at {
      MoveKeepsOneEach(w, w', slot, Out(e));
      MoveKeepsMatched(w, w', slot, Out(e));
    } else {
      MakingKeepsOneEach(w, w', Out(e), id);
      MakingKeepsMatched(w, w', Out(e), id);
    }
  }

  lemma PickKeepsStage(z: Codec, w: World, e: End, id: Id)
    requires Lawful(z) && InStage(w) && Enabled(z, w, Pick(e, id))
    ensures InStage(Apply(z, w, Pick(e, id)))
  {
  }

  lemma PickKeepsTidy(z: Codec, w: World, e: End, id: Id)
    requires Lawful(z) && Tidy(w) && Enabled(z, w, Pick(e, id)) && Orderly(w, Pick(e, id))
    ensures Tidy(Apply(z, w, Pick(e, id)))
  {
    StepKeepsOrder(z, w, Pick(e, id));
    PickKeepsEach(z, w, e, id);
    PickKeepsCompany(z, w, e, id);
    PickKeepsOneUse(z, w, e, id);
    PickKeepsStage(z, w, e, id);
  }

  // The lookup.

  lemma SenderIsOut(w: World, e: End)
    requires Ordered(w) && InStage(w) && e in w.picked && Peer(e) in w.picked && e !in w.looked
    ensures Out(Peer(e)) in w.at && w.at[Out(Peer(e))].id == w.picked[Peer(e)]
    ensures In(e) !in w.at && Peer(e) !in w.sends
  {
    assert Peer(Peer(e)) == e;
    assert Peer(e) in w.sends ==> ShookHands(w, Peer(e));
    assert In(e) in w.at ==> PlacedRight(w, In(e));
    assert PlacedRight(w, Out(Peer(e)));
  }

  lemma OnlyTheSender(w: World, e: End, p: Place)
    requires OneEach(w) && OneUse(w) && Out(Peer(e)) in w.at && In(e) !in w.at
    requires p in w.at && PlacedRight(w, p) && w.at[p].id == w.at[Out(Peer(e))].id
    requires p != Slot(e.side, w.at[p].id)
    ensures p == Out(Peer(e))
  {
    assert Peer(Peer(e)) == e;
  }

  lemma LookMoves(z: Codec, w: World, e: End)
    requires Lawful(z) && AllStamped(z, w) && Tidy(w) && Enabled(z, w, Look(e))
    ensures var w', id := Apply(z, w, Look(e)), w.picked[Peer(e)];
            if Slot(e.side, id) in w.at then Moved(w, w', Slot(e.side, id), In(e)) else Made(w, w', In(e), id)
  {
    SenderIsOut(w, e);
    var id, sender := w.picked[Peer(e)], Out(Peer(e));
    if Slot(e.side, id) !in w.at {
      forall p | p in w.at && w.at[p].id == id ensures p == sender { OnlyTheSender(w, e, p); }
      assert !Accompanied(w, sender);
      assert Stamped(z, w.logs, w.next, w.at[sender]);
      assert w.at[sender].(log := [], enc := 0) == w.at[sender];
      assert w.at[sender := w.at[sender]] == w.at;
    }
  }

  ghost predicate LooksMore(w: World, w': World, e: End) {
    forall d :: d in w'.looked <==> d in w.looked || d == e
  }

  lemma LookLooksMore(z: Codec, w: World, e: End)
    requires Lawful(z) && Enabled(z, w, Look(e))
    ensures LooksMore(w, Apply(z, w, Look(e)), e)
  {
  }

  /** An end has looked the other's pick up. */
  ghost predicate HasLooked(w: World, w': World, e: End, slot: Place, id: Id) {
    && slot.Slot? && (Moved(w, w', slot, In(e)) || Made(w, w', In(e), id))
    && LooksMore(w, w', e) && Companions(w', Out(Peer(e)), In(e)) && Out(Peer(e)) in w.at
    && w.at[Out(Peer(e))].id == w'.at[In(e)].id == id
  }

  lemma MovedIsLooked(w: World, w': World, e: End, slot: Place, id: Id)
    requires if slot in w.at then Moved(w, w', slot, In(e)) else Made(w, w', In(e), id)
    requires slot.Slot? && (slot in w.at ==> w.at[slot].id == id) && LooksMore(w, w', e)
    requires Out(Peer(e)) in w.at && w.at[Out(Peer(e))].id == id
    ensures HasLooked(w, w', e, slot, id)
  {
  }

  lemma LookIsLooked(z: Codec, w: World, e: End)
    requires Lawful(z) && AllStamped(z, w) && Tidy(w) && Enabled(z, w, Look(e))
    ensures HasLooked(w, Apply(z, w, Look(e)), e, Slot(e.side, w.picked[Peer(e)]), w.picked[Peer(e)])
  {
    var slot := Slot(e.side, w.picked[Peer(e)]);
    LookMoves(z, w, e);
    LookLooksMore(z, w, e);
    SenderIsOut(w, e);
    assert slot in w.at ==> PlacedRight(w, slot);
    MovedIsLooked(w, Apply(z, w, Look(e)), e, slot, w.picked[Peer(e)]);
  }

  lemma LookedIsMatched(w: World, w': World, e: End, slot: Place, id: Id)
    requires OneEach(w) && AllMatched(w) && HasLooked(w, w', e, slot, id)
    ensures OneEach(w') && AllMatched(w')
  {
    if Moved(w, w', slot, In(e)) {
      MoveKeepsOneEach(w, w', slot, In(e));
      MoveKeepsMatched(w, w', slot, In(e));
    } else {
      MakingKeepsOneEach(w, w', In(e), id);
      MakingKeepsMatched(w, w', In(e), id);
    }
  }

  /** The lookup gives the sender's pair a companion, and leaves the others theirs. */
  lemma LookedInCompany(w: World, w': World, e: End, slot: Place, id: Id)
    requires NoneAlone(w) && HasLooked(w, w', e, slot, id)
    ensures NoneAlone(w')
  {
    assert Companions(w', In(e), Out(Peer(e)));
    assert forall d :: Peer(d) == e ==> d == Peer(e);
    forall p | p in w'.at && !Accompanied(w', p) ensures StillNew(w', p) {
      if Moved(w, w', slot, In(e)) {
        MovedFrom(w, w', slot, In(e), p);
        if Accompanied(w, p) { MoveKeepsCompany(w, w', slot, In(e), p); }
      } else if Accompanied(w, p) {
        MakingKeepsCompany(w, w', In(e), id, p);
      }
    }
  }

  lemma LookedInUse(w: World, w': World, e: End, slot: Place, id: Id)
    requires Ordered(w) && OneEach(w) && OneUse(w) && HasLooked(w, w', e, slot, id)
    ensures OneUse(w')
  {
    assert Peer(Peer(e)) == e;
    forall p | p in w.at && !p.Slot? && w.at[p].id == id ensures p == Out(Peer(e)) {
      assert PlacedRight(w, p);
      OnlyTheSender(w, e, p);
    }
    NowInUse(w, w', In(e));
  }

  lemma LookKeepsStage(z: Codec, w: World, e: End)
    requires Lawful(z) && InStage(w) && Enabled(z, w, Look(e))
    ensures InStage(Apply(z, w, Look(e)))
  {
  }

  lemma LookKeepsTidy(z: Codec, w: World, e: End)
    requires Lawful(z) && AllStamped(z, w) && Tidy(w) && Enabled(z, w, Look(e))
    ensures Tidy(Apply(z, w, Look(e)))
  {
    var w', id := Apply(z, w, Look(e)), w.picked[Peer(e)];
    StepKeepsOrder(z, w, Look(e));
    LookIsLooked(z, w, e);
    LookedIsMatched(w, w', e, Slot(e.side, id), id);
    LookedInCompany(w, w', e, Slot(e.side, id), id);
    LookedInUse(w, w', e, Slot(e.side, id), id);
    LookKeepsStage(z, w, e);
  }

  // The loops.

  /** One pair changes where it is. */
  ghost predicate Changed(w: World, w': World, p: Place) {
    && p in w.at && p in w'.at && w'.at == w.at[p := w'.at[p]] && w'.at[p].id == w.at[p].id
    && w'.looked == w.looked && w'.picked == w.picked
  }

  lemma ChangeKeepsUse(w: World, w': World, p: Place)
    requires OneEach(w) && OneUse(w) && Changed(w, w', p)
    ensures OneEach(w') && OneUse(w')
  {
    assert forall q :: q in w'.at ==> q in w.at && w'.at[q].id == w.at[q].id;
  }

  lemma ChangeKeepsCompany(w: World, w': World, p: Place)
    requires NoneAlone(w) && Changed(w, w', p) && (p.Out? ==> Peer(p.end) in w.looked)
    ensures NoneAlone(w')
  {
    forall q | q in w'.at && !Accompanied(w', q) ensures StillNew(w', q) {
      if r :| Companions(w, q, r) { assert Companions(w', q, r); }
    }
  }

  /** An end has sent. */
  ghost predicate HasSent(w: World, w': World, e: End) {
    && Changed(w, w', Out(e)) && w'.at[Out(e)].dec == w.at[Out(e)].dec
    && e !in w.sends && e in w'.sends && w'.sends == w.sends[e := w'.sends[e]] && w'.received == w.received
    && w'.sends[e].before == w.at[Out(e)].enc && w'.sends[e].after == w'.at[Out(e)].enc
    && In(Peer(e)) in w.at && w.at[In(Peer(e))].id == w.at[Out(e)].id && Peer(e) !in w.received
  }

  lemma SentStaysMatched(w: World, w': World, e: End)
    requires OneEach(w) && AllMatched(w) && HasSent(w, w', e)
    ensures AllMatched(w')
  {
    var sender, receiver := Out(e), In(Peer(e));
    assert Peer(Peer(e)) == e;
    forall p, q | Companions(w', p, q) ensures Matched(w', p, q) {
      assert Companions(w, p, q);
      if p == sender || q == receiver { assert p == sender && q == receiver; }
    }
  }

  lemma SendIsSent(z: Codec, w: World, e: End, ops: seq<Op>, how: Outcome)
    requires Lawful(z) && Ordered(w) && InStage(w) && Enabled(z, w, Send(e, ops, how))
    ensures HasSent(w, Apply(z, w, Send(e, ops, how)), e)
  {
    assert Peer(Peer(e)) == e;
    assert PlacedRight(w, Out(e)) && Peer(e) !in w.received;
    assert PlacedRight(w, In(Peer(e)));
  }

  lemma SendKeepsTidy(z: Codec, w: World, e: End, ops: seq<Op>, how: Outcome)
    requires Lawful(z) && Tidy(w) && Enabled(z, w, Send(e, ops, how)) && Orderly(w, Send(e, ops, how))
    ensures Tidy(Apply(z, w, Send(e, ops, how)))
  {
    var w' := Apply(z, w, Send(e, ops, how));
    StepKeepsOrder(z, w, Send(e, ops, how));
    SendIsSent(z, w, e, ops, how);
    SentStaysMatched(w, w', e);
    ChangeKeepsUse(w, w', Out(e));
    ChangeKeepsCompany(w, w', Out(e));
    SendKeepsStage(z, w, e, ops, how);
  }

  lemma SendKeepsStage(z: Codec, w: World, e: End, ops: seq<Op>, how: Outcome)
    requires Lawful(z) && InStage(w) && Enabled(z, w, Send(e, ops, how)) && how == CleanEof
    ensures InStage(Apply(z, w, Send(e, ops, how)))
  {
  }

  /** An end has received all that was sent to it. */
  ghost predicate HasReceived(w: World, w': World, e: End) {
    && Changed(w, w', In(e)) && w'.at[In(e)].enc == w.at[In(e)].enc
    && w'.sends == w.sends && e !in w.received && e in w'.received
    && w'.received == w.received[e := w'.received[e]] && Peer(e) in w.sends
    && (w.at[In(e)].dec == w.sends[Peer(e)].before ==> w'.at[In(e)].dec == w.sends[Peer(e)].after)
  }

  lemma ReceivedStaysMatched(w: World, w': World, e: End)
    requires AllMatched(w) && HasReceived(w, w', e)
    ensures AllMatched(w')
  {
    forall p, q | Companions(w', p, q) ensures Matched(w', p, q) {
      assert Companions(w, p, q);
    }
  }

  lemma ReceiveIsReceived(z: Codec, w: World, e: End, arrived: nat, how: Outcome)
    requires Lawful(z) && InStage(w) && Enabled(z, w, Receive(e, arrived, how))
    requires Orderly(w, Receive(e, arrived, how))
    ensures HasReceived(w, Apply(z, w, Receive(e, arrived, how)), e)
  {
    assert w.sends[Peer(e)].how == CleanEof;
  }

  lemma ReceiveKeepsStage(z: Codec, w: World, e: End, arrived: nat, how: Outcome)
    requires Lawful(z) && InStage(w) && Enabled(z, w, Receive(e, arrived, how))
    requires Orderly(w, Receive(e, arrived, how))
    ensures InStage(Apply(z, w, Receive(e, arrived, how)))
  {
  }

  lemma ReceiveKeepsTidy(z: Codec, w: World, e: End, arrived: nat, how: Outcome)
    requires Lawful(z) && Tidy(w) && Enabled(z, w, Receive(e, arrived, how))
    requires Orderly(w, Receive(e, arrived, how))
    ensures Tidy(Apply(z, w, Receive(e, arrived, how)))
  {
    var w' := Apply(z, w, Receive(e, arrived, how));
    StepKeepsOrder(z, w, Receive(e, arrived, how));
    ReceiveIsReceived(z, w, e, arrived, how);
    ReceivedStaysMatched(w, w', e);
    ChangeKeepsUse(w, w', In(e));
    ChangeKeepsCompany(w, w', In(e));
    ReceiveKeepsStage(z, w, e, arrived, how);
  }

  // The check-ins.

  lemma CheckInMoves(w: World, w': World, p: Place)
    requires Ordered(w) && OneEach(w) && p in w.at && !p.Slot? && (p.Out? || p.end in w.received)
    requires w' == w.(at := CheckIn(w.at, p, true))
    ensures Moved(w, w', p, Slot(SideOf(p), w.at[p].id))
  {
    var slot := Slot(SideOf(p), w.at[p].id);
    assert slot in w.at ==> PlacedRight(w, slot);
  }

  lemma CheckInKeepsCompany(w: World, w': World, p: Place)
    requires OneUse(w) && NoneAlone(w) && p in w.at && Moved(w, w', p, Slot(SideOf(p), w.at[p].id))
    requires !p.Slot? && w' == w.(at := CheckIn(w.at, p, true))
    requires if p.Out? then Peer(p.end) in w.looked else p.end in w.received
    ensures NoneAlone(w') && OneUse(w')
  {
    MovedInCompany(w, w', p, Slot(SideOf(p), w.at[p].id));
  }

  lemma CheckInKeepsTidy(z: Codec, w: World, step: Step)
    requires Lawful(z) && Tidy(w) && Enabled(z, w, step) && (step.EndOut? || step.EndIn?)
    ensures Tidy(Apply(z, w, step))
  {
    var w', p := Apply(z, w, step), if step.EndOut? then Out(step.end) else In(step.end);
    assert w' == w.(at := CheckIn(w.at, p, true));
    var slot := Slot(SideOf(p), w.at[p].id);
    StepKeepsOrder(z, w, step);
    CheckInMoves(w, w', p);
    MoveKeepsOneEach(w, w', p, slot);
    MoveKeepsMatched(w, w', p, slot);
    CheckInKeepsCompany(w, w', p);
    CheckInKeepsStage(z, w, step);
  }

  lemma CheckInKeepsStage(z: Codec, w: World, step: Step)
    requires Lawful(z) && InStage(w) && Enabled(z, w, step) && (step.EndOut? || step.EndIn?)
    ensures InStage(Apply(z, w, step))
  {
  }

  // ------------------------------------------------------------ orderly runs

  lemma {:induction false} OrderlyRunsStayTidy(z: Codec, steps: seq<Step>)
    requires Lawful(z) && Interleaving(z, steps) && OrderlyRun(z, steps)
    ensures Tidy(WorldAfter(z, steps))
  {
    if steps != [] {
      var before, last := steps[..|steps| - 1], steps[|steps| - 1];
      OrderlyRunsStayTidy(z, before);
      AlwaysStamped(z, before);
      var w := WorldAfter(z, before);
      match last
      case Pick(e, id) => PickKeepsTidy(z, w, e, id);
      case Look(e) => LookKeepsTidy(z, w, e);
      case Send(e, ops, how) => SendKeepsTidy(z, w, e, ops, how);
      case Receive(e, arrived, how) => ReceiveKeepsTidy(z, w, e, arrived, how);
      case EndOut(_) => CheckInKeepsTidy(z, w, last);
      case EndIn(_) => CheckInKeepsTidy(z, w, last);
    }
  }

  lemma {:induction false} OrderlyRunsFlush(z: Codec, steps: seq<Step>)
    requires Lawful(z) && Interleaving(z, steps) && OrderlyRun(z, steps)
    ensures SendsFlush(steps)
  {
    if steps != [] {
      var last := |steps| - 1;
      OrderlyRunsFlush(z, steps[..last]);
      forall i | 0 <= i < |steps| ensures StepFlushes(steps[i]) {
        if i < last { assert steps[i] == steps[..last][i]; }
      }
    }
  }

  lemma TidyIsSafe(w: World, e: End)
    requires AllMatched(w) && NoneAlone(w) && In(e) in w.at && e !in w.received && Peer(e) in w.sends
    ensures Safe(w, e)
  {
    var p :| Companions(w, In(e), p);
    assert Companions(w, p, In(e));
  }

  /** In every orderly run whatever is received is exact, and all of it at a clean end. */
  lemma OrderlyRunsDeliver(z: Codec, steps: seq<Step>, e: End, arrived: nat, how: Outcome)
    requires Lawful(z) && Interleaving(z, steps) && OrderlyRun(z, steps)
    requires Enabled(z, WorldAfter(z, steps), Receive(e, arrived, how)) && Peer(e) in WorldAfter(z, steps).sends
    ensures var w := WorldAfter(z, steps);
            var log, fed, leg := w.sends[Peer(e)].log, w.at[In(e)].fed, LegTo(w, e, arrived, how);
            && Exact(z, log, fed, leg)
            && (how == CleanEof ==> Emitted(z, fed, Reaches(z, log, leg)) == Raw(leg.ops))
  {
    OrderlyRunsStayTidy(z, steps);
    OrderlyRunsFlush(z, steps);
    TidyIsSafe(WorldAfter(z, steps), e);
    SafeIsDelivered(z, steps, e, arrived, how);
  }

  /** And an id that no stream is using is in both tables or in neither, with both directions of
      its pair in step. */
  lemma OrderlyTablesMirror(z: Codec, steps: seq<Step>, id: Id)
    requires Lawful(z) && Interleaving(z, steps) && OrderlyRun(z, steps)
    requires forall p :: p in WorldAfter(z, steps).at && WorldAfter(z, steps).at[p].id == id ==> p.Slot?
    ensures var at := WorldAfter(z, steps).at;
            && (Slot(A, id) in at <==> Slot(B, id) in at)
            && (Slot(A, id) in at && Slot(B, id) in at ==>
                  && InStep(z, at[Slot(A, id)].log, at[Slot(B, id)].fed)
                  && InStep(z, at[Slot(B, id)].log, at[Slot(A, id)].fed))
  {
    OrderlyRunsStayTidy(z, steps);
    var w := WorldAfter(z, steps);
    var a, b := Slot(A, id), Slot(B, id);
    if a in w.at || b in w.at {
      assert PlacedRight(w, if a in w.at then a else b);
      BothHaveIt(w, if a in w.at then a else b);
      assert PlacedRight(w, a) && PlacedRight(w, b);
      assert Companions(w, a, b) && Companions(w, b, a);
      StampsAreRight(z, steps, a, b);
      StampsAreRight(z, steps, b, a);
    }
  }
}
