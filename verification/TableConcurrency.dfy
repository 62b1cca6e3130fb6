/** Any number of streams at work on one table at the same time.

    Every access to the cache is a step of its own: the scan, the removal of what the scan
    found, the removal of the remote's id, each check-in and each eviction, of any stream and
    in any order. The question is where the pair objects are. */
module TableConcurrency {
  import opened Bytes
  import opened Handshake
  import CodecLoops

  /** A pair object. */
  type Ref = nat

  /** Where a reference to a pair can be: in a slot of the cache, or with the sending or the
      receiving task of a stream. */
  datatype Place = Slot(id: Id) | Sending(stream: nat) | Receiving(stream: nat)

  datatype Phase =
    | Scanned(found: Option<Id>)
    | Picked(id: Id)
    | Flowing(out: Id, incoming: Id, outDone: bool, inDone: bool)
    | Failed

  /** What refers to what, which pairs are marked errored, how far each stream has got, and
      the next pair to be made. */
  datatype Table = Table(at: map<Place, Ref>, errored: set<Ref>, streams: map<nat, Phase>, next: Ref)

  datatype Step =
    | Scan(k: nat, found: Option<Id>)
    | Checkout(k: nat, newId: Id)
    | Lookup(k: nat, theirs: Id)
    | Abort(k: nat)
    | SenderEnds(k: nat, how: CodecLoops.Outcome)
    | ReceiverEnds(k: nat, how: CodecLoops.Outcome)
    | Evict(id: Id)

  const EMPTY: Table := Table(map[], {}, map[], 0)

  predicate Enabled(t: Table, step: Step) {
    match step
    case Scan(k, found) =>
      && k !in t.streams
      && (found.Some? ==> Slot(found.value) in t.at && t.at[Slot(found.value)] !in t.errored)
    case Checkout(k, newId) => k in t.streams && t.streams[k].Scanned? && newId != 0
    case Lookup(k, _) => k in t.streams && t.streams[k].Picked?
    case Abort(k) => k in t.streams && (t.streams[k].Picked? || t.streams[k].Scanned?)
    case SenderEnds(k, _) => k in t.streams && t.streams[k].Flowing? && !t.streams[k].outDone && Sending(k) in t.at
    case ReceiverEnds(k, _) => k in t.streams && t.streams[k].Flowing? && !t.streams[k].inDone && Receiving(k) in t.at
    case Evict(id) => Slot(id) in t.at
  }

  /** `cache.remove(id)`, the check of the errored flag, and a new pair when either fails. */
  function TakeOrMake(t: Table, id: Option<Id>, place: Place): (t': Table) {
    if id.Some? && Slot(id.value) in t.at then
      var ref, rest := t.at[Slot(id.value)], t.at - {Slot(id.value)};
      if ref !in t.errored then t.(at := rest[place := ref])
      else t.(at := rest[place := t.next], next := t.next + 1)
    else t.(at := t.at[place := t.next], next := t.next + 1)
  }

  /** The id a checkout ends up with: the one it found if that was still there and healthy. */
  function CheckedOut(t: Table, found: Option<Id>, newId: Id): (id: Id) {
    if found.Some? && Slot(found.value) in t.at && t.at[Slot(found.value)] !in t.errored then found.value else newId
  }

  /** The end of a task: back into the cache, displacing what is there, or marked errored. */
  function Retire(t: Table, place: Place, id: Id, how: CodecLoops.Outcome): (t': Table)
    requires place in t.at
  {
    var ref, rest := t.at[place], t.at - {place};
    if how == CodecLoops.CleanEof || how == CodecLoops.IoError then
      if id == 0 || ref in t.errored then t.(at := rest)
      else t.(at := rest[Slot(id) := ref])
    else t.(at := rest, errored := t.errored + {ref})
  }

  function Apply(t: Table, step: Step): (t': Table)
    requires Enabled(t, step)
  {
    match step
    case Scan(k, found) => t.(streams := t.streams[k := Scanned(found)])
    case Checkout(k, newId) =>
      var found := t.streams[k].found;
      TakeOrMake(t, found, Sending(k)).(streams := t.streams[k := Picked(CheckedOut(t, found, newId))])
    case Lookup(k, theirs) =>
      TakeOrMake(t, if theirs == 0 then None else Some(theirs), Receiving(k))
      .(streams := t.streams[k := Flowing(t.streams[k].id, theirs, false, false)])
    case Abort(k) => t.(at := t.at - {Sending(k)}, streams := t.streams[k := Failed])
    case SenderEnds(k, how) =>
      Retire(t, Sending(k), t.streams[k].out, how).(streams := t.streams[k := t.streams[k].(outDone := true)])
    case ReceiverEnds(k, how) =>
      Retire(t, Receiving(k), t.streams[k].incoming, how).(streams := t.streams[k := t.streams[k].(inDone := true)])
    case Evict(id) => t.(at := t.at - {Slot(id)})
  }

  /** Each pair is in one place. */
  ghost predicate Exclusive(t: Table) {
    forall p, q :: p in t.at && q in t.at && p != q ==> t.at[p] != t.at[q]
  }

  /** No errored pair is anywhere. */
  ghost predicate Healthy(t: Table) {
    forall p :: p in t.at ==> t.at[p] !in t.errored
  }

  /** The tasks hold what their phase says they hold. */
  predicate Holds(t: Table, p: Place) {
    match p
    case Slot(id) => id != 0
    case Sending(k) =>
      && k in t.streams
      && (t.streams[k].Picked? || (t.streams[k].Flowing? && !t.streams[k].outDone))
    case Receiving(k) => k in t.streams && t.streams[k].Flowing? && !t.streams[k].inDone
  }

  ghost predicate Inv(t: Table) {
    && Exclusive(t)
    && Healthy(t)
    && (forall p :: p in t.at ==> Holds(t, p) && t.at[p] < t.next)
    && (forall p: Place :: !p.Slot? && Holds(t, p) ==> p in t.at)
    && (forall r :: r in t.errored ==> r < t.next)
    && (forall k :: k in t.streams && t.streams[k].Picked? ==> t.streams[k].id != 0)
    && (forall k :: k in t.streams && t.streams[k].Flowing? ==> t.streams[k].out != 0)
  }

  lemma TakeKeepsInv(t: Table, k: nat, newId: Id)
    requires Inv(t) && Enabled(t, Checkout(k, newId))
    ensures Inv(Apply(t, Checkout(k, newId)))
  {
    var t' := Apply(t, Checkout(k, newId));
    assert !Holds(t, Sending(k));
    forall p: Place | !p.Slot? && Holds(t', p) ensures p in t'.at {
      assert p == Sending(k) || Holds(t, p);
    }
  }

  lemma LookupKeepsInv(t: Table, k: nat, theirs: Id)
    requires Inv(t) && Enabled(t, Lookup(k, theirs))
    ensures Inv(Apply(t, Lookup(k, theirs)))
  {
    var t' := Apply(t, Lookup(k, theirs));
    assert !Holds(t, Receiving(k)) && Holds(t, Sending(k));
    forall p: Place | !p.Slot? && Holds(t', p) ensures p in t'.at {
      assert p == Receiving(k) || Holds(t, p);
    }
  }

  ghost predicate Bounded(t: Table) {
    (forall p :: p in t.at ==> t.at[p] < t.next) && (forall r :: r in t.errored ==> r < t.next)
  }

  /** Retiring a pair empties its place, may fill the slot of its id, and moves nothing else. */
  lemma RetireKeeps(t: Table, place: Place, id: Id, how: CodecLoops.Outcome)
    requires Exclusive(t) && Healthy(t) && Bounded(t) && place in t.at && !place.Slot?
    ensures var u := Retire(t, place, id, how);
            && Exclusive(u) && Healthy(u) && Bounded(u) && u.streams == t.streams
            && place !in u.at
            && (forall p :: p in u.at ==> p in t.at || (p == Slot(id) && id != 0))
            && (forall p :: p in t.at && p != place ==> p in u.at)
  {
  }

  /** What remains to be said when a task has ended: its stream holds its place no more. */
  lemma TaskEnds(t: Table, place: Place, id: Id, how: CodecLoops.Outcome, k: nat, phase: Phase)
    requires Inv(t) && place in t.at && (place == Sending(k) || place == Receiving(k)) && k in t.streams
    requires phase.Flowing? && phase.out != 0
    requires var t' := t.(streams := t.streams[k := phase]);
             !Holds(t', place) && forall p: Place :: p != place ==> Holds(t', p) == Holds(t, p)
    ensures Inv(Retire(t, place, id, how).(streams := t.streams[k := phase]))
  {
    RetireKeeps(t, place, id, how);
    var t' := t.(streams := t.streams[k := phase]);
    var u := Retire(t, place, id, how).(streams := t.streams[k := phase]);
    forall p: Place ensures Holds(u, p) == Holds(t', p) {
    }
  }

  lemma SenderEndsKeepsInv(t: Table, k: nat, how: CodecLoops.Outcome)
    requires Inv(t) && Enabled(t, SenderEnds(k, how))
    ensures Inv(Apply(t, SenderEnds(k, how)))
  {
    TaskEnds(t, Sending(k), t.streams[k].out, how, k, t.streams[k].(outDone := true));
  }

  lemma ReceiverEndsKeepsInv(t: Table, k: nat, how: CodecLoops.Outcome)
    requires Inv(t) && Enabled(t, ReceiverEnds(k, how))
    ensures Inv(Apply(t, ReceiverEnds(k, how)))
  {
    TaskEnds(t, Receiving(k), t.streams[k].incoming, how, k, t.streams[k].(inDone := true));
  }

  lemma AbortKeepsInv(t: Table, k: nat)
    requires Inv(t) && Enabled(t, Abort(k))
    ensures Inv(Apply(t, Abort(k)))
  {
    var t' := Apply(t, Abort(k));
    forall p: Place | !p.Slot? && Holds(t', p) ensures p in t'.at {
      assert p != Sending(k) && Holds(t, p);
    }
  }

  lemma OtherStepKeepsInv(t: Table, step: Step)
    requires Inv(t) && Enabled(t, step) && (step.Scan? || step.Evict?)
    ensures Inv(Apply(t, step))
  {
    var t' := Apply(t, step);
    forall p: Place | !p.Slot? && Holds(t', p) ensures p in t'.at {
      assert Holds(t, p);
    }
  }

  lemma StepKeepsInv(t: Table, step: Step)
    requires Inv(t) && Enabled(t, step)
    ensures Inv(Apply(t, step))
  {
    match step
    case Checkout(k, newId) => TakeKeepsInv(t, k, newId);
    case Lookup(k, theirs) => LookupKeepsInv(t, k, theirs);
    case SenderEnds(k, how) => SenderEndsKeepsInv(t, k, how);
    case ReceiverEnds(k, how) => ReceiverEndsKeepsInv(t, k, how);
    case Abort(k) => AbortKeepsInv(t, k);
    case Scan(_, _) => OtherStepKeepsInv(t, step);
    case Evict(_) => OtherStepKeepsInv(t, step);
  }

  // ------------------------------------------------------------ every interleaving

  /** The table after some steps of any streams, in any order. */
  function After(steps: seq<Step>): (t: Table)
    requires Interleaving(steps)
    decreases |steps|, 1
  {
    if steps == [] then EMPTY else Apply(After(steps[..|steps| - 1]), steps[|steps| - 1])
  }

  predicate Interleaving(steps: seq<Step>)
    decreases |steps|, 0
  {
    steps == [] ||
    (Interleaving(steps[..|steps| - 1]) && Enabled(After(steps[..|steps| - 1]), steps[|steps| - 1]))
  }

  lemma {:induction false} AlwaysInv(steps: seq<Step>)
    requires Interleaving(steps)
    ensures Inv(After(steps))
  {
    if steps != [] {
      AlwaysInv(steps[..|steps| - 1]);
      StepKeepsInv(After(steps[..|steps| - 1]), steps[|steps| - 1]);
    }
  }

  /** In every interleaving each pair object is in at most one place, a slot of the cache or
      one direction of one stream; so the two pairs of a stream are different objects. */
  lemma OnePlacePerPair(steps: seq<Step>)
    requires Interleaving(steps)
    ensures Exclusive(After(steps))
    ensures var t := After(steps);
            forall k :: Sending(k) in t.at && Receiving(k) in t.at ==> t.at[Sending(k)] != t.at[Receiving(k)]
  {
    AlwaysInv(steps);
  }

  /** In every reachable state the cache holds no errored pair and no key zero, what a scan
      found is healthy whenever it is still there, and every stream past its checkout holds
      a healthy pair under an id that is not zero. */
  lemma TableStaysHealthy(steps: seq<Step>)
    requires Interleaving(steps)
    ensures var t := After(steps);
            && (forall id :: Slot(id) in t.at ==> id != 0 && t.at[Slot(id)] !in t.errored)
            && (forall k :: k in t.streams && t.streams[k].Picked? ==>
                  t.streams[k].id != 0 && Sending(k) in t.at && t.at[Sending(k)] !in t.errored)
            && (forall k :: k in t.streams && t.streams[k].Flowing? && !t.streams[k].outDone ==>
                  t.streams[k].out != 0 && Sending(k) in t.at && t.at[Sending(k)] !in t.errored)
  {
    AlwaysInv(steps);
    var t := After(steps);
    forall k | k in t.streams && t.streams[k].Picked?
      ensures t.streams[k].id != 0 && Sending(k) in t.at && t.at[Sending(k)] !in t.errored
    {
      assert Holds(t, Sending(k));
    }
    forall k | k in t.streams && t.streams[k].Flowing? && !t.streams[k].outDone
      ensures t.streams[k].out != 0 && Sending(k) in t.at && t.at[Sending(k)] !in t.errored
    {
      assert Holds(t, Sending(k));
    }
  }

  lemma {:induction false} InterleavingPrefix(steps: seq<Step>, n: nat)
    requires Interleaving(steps) && n <= |steps|
    ensures Interleaving(steps[..n])
    decreases |steps| - n
  {
    if n == |steps| {
      assert steps[..n] == steps;
    } else {
      InterleavingPrefix(steps, n + 1);
      assert steps[..n + 1][..n] == steps[..n];
    }
  }

  lemma {:induction false} ErroredStays(steps: seq<Step>, n: nat, ref: Ref)
    requires Interleaving(steps) && n <= |steps|
    requires Interleaving(steps[..n]) && ref in After(steps[..n]).errored
    ensures ref in After(steps).errored
    decreases |steps| - n
  {
    if n == |steps| {
      assert steps[..n] == steps;
    } else {
      InterleavingPrefix(steps, n + 1);
      assert steps[..n + 1][..n] == steps[..n];
      ErroredStays(steps, n + 1, ref);
    }
  }

  /** A pair whose stream timed out or had a codec error is never handed out again: from the
      step that marks it on, no slot and no stream ever refers to it. */
  lemma ErroredIsNeverHandedOut(steps: seq<Step>, n: nat, ref: Ref, p: Place)
    requires Interleaving(steps) && n <= |steps|
    requires Interleaving(steps[..n]) && ref in After(steps[..n]).errored
    ensures p in After(steps).at ==> After(steps).at[p] != ref
  {
    ErroredStays(steps, n, ref);
    AlwaysInv(steps);
  }

  // ------------------------------------------------------------ what streams get and give back

  /** The slot from which a stream is to get a pair, if there is one. */
  predicate Finds(t: Table, id: Option<Id>) {
    id.Some? && Slot(id.value) in t.at
  }

  /** The pair at a place is the one that was in the slot, and no longer there; or it is new, and
      what was found, if anything was, is where it was. */
  ghost predicate Gets(t: Table, t': Table, id: Option<Id>, place: Place) {
    && place in t'.at
    && (if Finds(t, id) then t'.at[place] == t.at[Slot(id.value)] && Slot(id.value) !in t'.at
        else t'.at[place] == t.next && t'.next == t.next + 1)
    && forall p :: p != place && id != (if p.Slot? then Some(p.id) else None) ==>
         (p in t'.at <==> p in t.at) && (p in t.at ==> t'.at[p] == t.at[p])
  }

  /** What the scan of stream `k` found. */
  function ScanOf(steps: seq<Step>, k: nat): (found: Option<Id>) {
    if steps == [] then None
    else
      var last := steps[|steps| - 1];
      if last.Scan? && last.k == k then last.found else ScanOf(steps[..|steps| - 1], k)
  }

  lemma {:induction false} ScansAreRemembered(steps: seq<Step>, k: nat)
    requires Interleaving(steps)
    ensures var t := After(steps); k in t.streams && t.streams[k].Scanned? ==> t.streams[k].found == ScanOf(steps, k)
  {
    if steps != [] { ScansAreRemembered(steps[..|steps| - 1], k); }
  }

  /** In every interleaving a checkout gets exactly the pair that its scan found, if that is still
      there, and a lookup the one under the remote's id; otherwise each gets a new one. */
  lemma StreamsGetWhatTheyFind(steps: seq<Step>, k: nat, id: Id)
    requires Interleaving(steps)
    ensures var t := After(steps);
            && (Enabled(t, Checkout(k, id)) ==>
                  var t', found := Apply(t, Checkout(k, id)), t.streams[k].found;
                  && found == ScanOf(steps, k) && Gets(t, t', found, Sending(k))
                  && t'.streams == t.streams[k := Picked(if Finds(t, found) then found.value else id)])
            && (Enabled(t, Lookup(k, id)) ==>
                  var t' := Apply(t, Lookup(k, id));
                  && Gets(t, t', if id == 0 then None else Some(id), Receiving(k))
                  && t'.streams == t.streams[k := Flowing(t.streams[k].id, id, false, false)])
  {
    AlwaysInv(steps);
    ScansAreRemembered(steps, k);
  }

  /** And a task that ends cleanly or in a local error puts exactly its pair into the slot of its
      id; one that ends in another way leaves every slot as it was. */
  lemma TasksGiveBack(steps: seq<Step>, step: Step)
    requires Interleaving(steps) && Enabled(After(steps), step) && (step.SenderEnds? || step.ReceiverEnds?)
    ensures var t, t' := After(steps), Apply(After(steps), step);
            var place := if step.SenderEnds? then Sending(step.k) else Receiving(step.k);
            var id := if step.SenderEnds? then t.streams[step.k].out else t.streams[step.k].incoming;
            var back := (step.how == CodecLoops.CleanEof || step.how == CodecLoops.IoError) && id != 0;
            && place !in t'.at && (back ==> Slot(id) in t'.at && t'.at[Slot(id)] == t.at[place])
            && (forall p :: p != place && !(back && p == Slot(id)) ==>
                  (p in t'.at <==> p in t.at) && (p in t.at ==> t'.at[p] == t.at[p]))
            && (step.how == CodecLoops.Timeout || step.how == CodecLoops.CodecError ==> t.at[place] in t'.errored)
  {
    AlwaysInv(steps);
  }

  /** An eviction empties its slot, a failed handshake drops the picked pair, and nothing else
      moves. */
  lemma OnlyTheseAreDropped(steps: seq<Step>, step: Step)
    requires Interleaving(steps) && Enabled(After(steps), step) && (step.Evict? || step.Abort? || step.Scan?)
    ensures var t, t' := After(steps), Apply(After(steps), step);
            && t'.errored == t.errored
            && (step.Evict? ==> t'.at == t.at - {Slot(step.id)} && t'.streams == t.streams)
            && (step.Abort? ==> t'.at == t.at - {Sending(step.k)} && t'.streams == t.streams[step.k := Failed])
            && (step.Scan? ==> t'.at == t.at)
  {
  }

  /** No stream is ever stuck: one that is neither done nor failed has a step. */
  lemma StreamsCanGoOn(steps: seq<Step>, k: nat)
    requires Interleaving(steps)
    ensures var t := After(steps);
            && (k !in t.streams ==> Enabled(t, Scan(k, None)))
            && (forall id :: Slot(id) in t.at ==>
                  Enabled(t, Evict(id)) && (k !in t.streams ==> Enabled(t, Scan(k, Some(id)))))
    ensures var t := After(steps);
            k in t.streams ==>
              match t.streams[k]
              case Scanned(_) => Enabled(t, Checkout(k, 1)) && Enabled(t, Abort(k))
              case Picked(_) => (forall id: Id :: Enabled(t, Lookup(k, id))) && Enabled(t, Abort(k))
              case Flowing(_, _, outDone, inDone) =>
                && (!outDone ==> forall how :: Enabled(t, SenderEnds(k, how)))
                && (!inDone ==> forall how :: Enabled(t, ReceiverEnds(k, how)))
              case Failed => true
  {
    AlwaysInv(steps);
    var t := After(steps);
    if k in t.streams && t.streams[k].Flowing? {
      assert !t.streams[k].outDone ==> Holds(t, Sending(k));
      assert !t.streams[k].inDone ==> Holds(t, Receiving(k));
    }
  }
}
