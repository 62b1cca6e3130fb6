/** UDP bridge streams sharing one map of reply senders: streams that allocate an address,
    probing port by port, streams that end, and the router that hands replies out, all at
    the same time. Each atomic access to the counter or the map is a step of its own. */
module ReplyRouter {
  import opened Bytes
  import opened PortAllocator

  datatype Bridge =
    | Unaddressed
    | Probing(ipv6: bool, tries: nat, port: Option<u16>)
    | Live(addr: LocalAddr)
    | Ended(held: Option<LocalAddr>)

  /** The router, between looking a sender up and handing it the reply. */
  datatype Routing = Waiting | Carrying(to: LocalAddr, stream: nat)

  /** The reply map with the stream behind each sender, the counter, the streams, the router,
      and as history the addresses of the replies that each stream has been handed. */
  datatype Hub = Hub(replies: map<LocalAddr, nat>, next: u16, bridges: map<nat, Bridge>, routing: Routing,
                     handed: map<nat, seq<LocalAddr>>)

  const START: Hub := Hub(map[], 10000, map[], Waiting, map[])

  datatype Step =
    | Open(k: nat)
    | Allocate(k: nat, ipv6: bool)   // the first datagram of a stream arrives
    | Probe(k: nat)                  // the counter is advanced
    | Claim(k: nat)                  // the map entry for the port is tried
    | GiveUp(k: nat)
    | End(k: nat)
    | PickUp(to: LocalAddr)          // the router looks a reply's address up
    | HandOver                       // and hands the reply over

  predicate At(h: Hub, k: nat) {
    k in h.bridges
  }

  predicate Enabled(h: Hub, step: Step) {
    match step
    case Open(k) => k !in h.bridges
    case Allocate(k, _) => At(h, k) && h.bridges[k].Unaddressed?
    case Probe(k) => At(h, k) && h.bridges[k].Probing? && h.bridges[k].port.None? && h.bridges[k].tries < PORTS - 1
    case Claim(k) => At(h, k) && h.bridges[k].Probing? && h.bridges[k].port.Some?
    case GiveUp(k) => At(h, k) && h.bridges[k].Probing? && h.bridges[k].port.None? && h.bridges[k].tries == PORTS - 1
    case End(k) => At(h, k) && (h.bridges[k].Live? || h.bridges[k].Unaddressed?)
    case PickUp(_) => h.routing.Waiting?
    case HandOver => h.routing.Carrying?
  }

  function Handed(h: Hub, k: nat): (r: seq<LocalAddr>) {
    if k in h.handed then h.handed[k] else []
  }

  function Apply(h: Hub, step: Step): (h': Hub)
    requires Enabled(h, step)
  {
    match step
    case Open(k) => h.(bridges := h.bridges[k := Unaddressed])
    case Allocate(k, ipv6) => h.(bridges := h.bridges[k := Probing(ipv6, 0, None)])
    case Probe(k) =>
      var b := h.bridges[k];
      h.(next := (h.next + 1) % PORTS, bridges := h.bridges[k := b.(tries := b.tries + 1, port := Some(h.next))])
    case Claim(k) =>
      var b := h.bridges[k];
      var addr := LocalAddr(b.ipv6, b.port.value);
      if b.port.value == 0 || addr in h.replies then h.(bridges := h.bridges[k := b.(port := None)])
      else h.(replies := h.replies[addr := k], bridges := h.bridges[k := Live(addr)])
    case GiveUp(k) => h.(bridges := h.bridges[k := Ended(None)])
    case End(k) =>
      var b := h.bridges[k];
      if b.Live? then h.(replies := h.replies - {b.addr}, bridges := h.bridges[k := Ended(Some(b.addr))])
      else h.(bridges := h.bridges[k := Ended(None)])
    case PickUp(to) => if to in h.replies then h.(routing := Carrying(to, h.replies[to])) else h
    case HandOver =>
      var k := h.routing.stream;
      h.(routing := Waiting, handed := h.handed[k := Handed(h, k) + [h.routing.to]])
  }

  /** The stream was given the address, whether it still holds it or has ended. */
  predicate Given(h: Hub, k: nat, addr: LocalAddr) {
    At(h, k) && (h.bridges[k] == Live(addr) || h.bridges[k] == Ended(Some(addr)))
  }

  /** The keys of the map are the addresses of the live streams, each with its stream. */
  ghost predicate MapInv(h: Hub) {
    && (forall addr :: addr in h.replies ==>
          && addr.port != 0
          && At(h, h.replies[addr]) && h.bridges[h.replies[addr]] == Live(addr))
    && (forall k :: At(h, k) && h.bridges[k].Live? ==>
          h.bridges[k].addr in h.replies && h.replies[h.bridges[k].addr] == k)
  }

  /** What the router carries and what streams were handed is for the address they were given. */
  ghost predicate HandedInv(h: Hub) {
    && (h.routing.Carrying? ==> Given(h, h.routing.stream, h.routing.to))
    && (forall k, i :: k in h.handed && 0 <= i < |h.handed[k]| ==> Given(h, k, h.handed[k][i]))
  }

  ghost predicate Inv(h: Hub) {
    MapInv(h) && HandedInv(h)
  }

  /** What a stream was given it was given for good. */
  lemma GivenStays(h: Hub, step: Step, k: nat, addr: LocalAddr)
    requires Inv(h) && Enabled(h, step) && Given(h, k, addr)
    ensures Given(Apply(h, step), k, addr)
  {
  }

  lemma StepKeepsMap(h: Hub, step: Step)
    requires MapInv(h) && Enabled(h, step)
    ensures MapInv(Apply(h, step))
  {
  }

  lemma StepKeepsHanded(h: Hub, step: Step)
    requires Inv(h) && Enabled(h, step)
    ensures HandedInv(Apply(h, step))
  {
    var h' := Apply(h, step);
    if h'.routing.Carrying? && h.routing == h'.routing {
      GivenStays(h, step, h.routing.stream, h.routing.to);
    }
    forall k, i | k in h'.handed && 0 <= i < |h'.handed[k]| ensures Given(h', k, h'.handed[k][i]) {
      if k in h.handed && i < |h.handed[k]| {
        GivenStays(h, step, k, h.handed[k][i]);
      }
    }
  }

  lemma StepKeepsInv(h: Hub, step: Step)
    requires Inv(h) && Enabled(h, step)
    ensures Inv(Apply(h, step))
  {
    StepKeepsMap(h, step);
    StepKeepsHanded(h, step);
  }

  function After(steps: seq<Step>): (h: Hub)
    requires Interleaving(steps)
    decreases |steps|, 1
  {
    if steps == [] then START else Apply(After(steps[..|steps| - 1]), steps[|steps| - 1])
  }

  predicate Interleaving(steps: seq<Step>)
    decreases |steps|, 0
  {
    steps == [] ||
    (Interleaving(steps[..|steps| - 1]) && Enabled(After(steps[..|steps| - 1]), steps[|steps| - 1]))
  }

  lemma {:induction false} AlwaysInv(steps: seq<Step>)
    requires Interleaving(steps)
    ensures Inv(After(steps))
  {
    if steps != [] {
      AlwaysInv(steps[..|steps| - 1]);
      StepKeepsInv(After(steps[..|steps| - 1]), steps[|steps| - 1]);
    }
  }

  /** In every interleaving the keys of the reply map are exactly the addresses that live
      streams hold, none of them has port zero, and no two live streams share one. */
  lemma KeysAreLiveAddresses(steps: seq<Step>)
    requires Interleaving(steps)
    ensures var h := After(steps);
            && (forall addr :: addr in h.replies <==> exists k :: At(h, k) && h.bridges[k] == Live(addr))
            && (forall j, k :: At(h, j) && At(h, k) && j != k && h.bridges[j].Live? && h.bridges[k].Live? ==>
                  h.bridges[j].addr != h.bridges[k].addr)
            && (forall k :: At(h, k) && h.bridges[k].Live? ==> h.bridges[k].addr.port != 0)
  {
    AlwaysInv(steps);
    var h := After(steps);
    forall addr ensures addr in h.replies <==> exists k :: At(h, k) && h.bridges[k] == Live(addr) {
      if addr in h.replies {
        assert At(h, h.replies[addr]) && h.bridges[h.replies[addr]] == Live(addr);
      }
    }
  }

  /** Every reply goes to the stream that owns its local address when the router looks it up;
      and every reply ever handed to a stream is for the address that the stream was given,
      so a live stream is handed replies for the address it still owns and no others. */
  lemma RepliesGoToTheirOwner(steps: seq<Step>, to: LocalAddr)
    requires Interleaving(steps)
    ensures var h := After(steps);
            && (h.routing.Waiting? && to in h.replies ==>
                  var h' := Apply(h, PickUp(to));
                  && h'.routing == Carrying(to, h.replies[to])
                  && At(h, h.replies[to]) && h.bridges[h.replies[to]] == Live(to))
            && (forall k, i :: k in h.handed && 0 <= i < |h.handed[k]| ==>
                  && Given(h, k, h.handed[k][i])
                  && (h.bridges[k].Live? ==>
                        && h.bridges[k].addr == h.handed[k][i]
                        && h.handed[k][i] in h.replies && h.replies[h.handed[k][i]] == k))
  {
    AlwaysInv(steps);
  }

  // ------------------------------------------------------------ what the steps tell

  function Count(steps: seq<Step>, k: Option<nat>): (n: nat) {
    if steps == [] then 0
    else
      var last := steps[|steps| - 1];
      Count(steps[..|steps| - 1], k) + if last.Probe? && (k.None? || k == Some(last.k)) then 1 else 0
  }

  /** The port that stream `k` is about to try: the counter starts at 10000 and every probe of any
      stream advances it. */
  function PortOf(steps: seq<Step>, k: nat): (port: Option<u16>) {
    if steps == [] then None
    else
      var before, last := steps[..|steps| - 1], steps[|steps| - 1];
      if last == Probe(k) then Some((10000 + Count(before, None)) % 65536)
      else if last == Claim(k) then None
      else PortOf(before, k)
  }

  function FamilyOf(steps: seq<Step>, k: nat): (ipv6: bool) {
    if steps == [] then false
    else
      var last := steps[|steps| - 1];
      if last.Allocate? && last.k == k then last.ipv6 else FamilyOf(steps[..|steps| - 1], k)
  }

  /** The stream that an address belongs to: the one that tried it when it was free, until that
      ends. Port zero belongs to none. */
  function OwnerOf(steps: seq<Step>, addr: LocalAddr): (k: Option<nat>) {
    if steps == [] then None
    else
      var before, last := steps[..|steps| - 1], steps[|steps| - 1];
      var owner := OwnerOf(before, addr);
      if last.Claim? && owner.None? && addr.port != 0 && PortOf(before, last.k) == Some(addr.port)
         && FamilyOf(before, last.k) == addr.ipv6 then Some(last.k)
      else if last.End? && owner == Some(last.k) then None
      else owner
  }

  /** The reply that the router has in hand, and the stream it is for: the owner of its address
      when it was looked up. */
  function InHand(steps: seq<Step>): (r: Option<(LocalAddr, nat)>) {
    if steps == [] then None
    else
      var before, last := steps[..|steps| - 1], steps[|steps| - 1];
      match last
      case PickUp(to) =>
        var owner := OwnerOf(before, to);
        if owner.Some? then Some((to, owner.value)) else None
      case HandOver => None
      case _ => InHand(before)
  }

  /** The addresses of the replies that stream `k` gets. */
  function Gets(steps: seq<Step>, k: nat): (r: seq<LocalAddr>) {
    if steps == [] then []
    else
      var before, last := steps[..|steps| - 1], steps[|steps| - 1];
      var hand := InHand(before);
      if last == HandOver && hand.Some? && hand.value.1 == k then Gets(before, k) + [hand.value.0]
      else Gets(before, k)
  }

  ghost predicate TellsOf(steps: seq<Step>, h: Hub, k: nat) {
    && Handed(h, k) == Gets(steps, k)
    && (At(h, k) && h.bridges[k].Probing? ==>
          h.bridges[k] == Probing(FamilyOf(steps, k), Count(steps, Some(k)), PortOf(steps, k)))
    && (!At(h, k) || h.bridges[k].Unaddressed? ==> Count(steps, Some(k)) == 0 && PortOf(steps, k).None?)
  }

  function Held(h: Hub): (r: Option<(LocalAddr, nat)>) {
    if h.routing.Carrying? then Some((h.routing.to, h.routing.stream)) else None
  }

  ghost predicate Tells(steps: seq<Step>, h: Hub) {
    && h.next == (10000 + Count(steps, None)) % 65536
    && Held(h) == InHand(steps)
    && (forall addr :: OwnerOf(steps, addr) == if addr in h.replies then Some(h.replies[addr]) else None)
    && (forall k: nat :: TellsOf(steps, h, k))
  }

  lemma StepTellsCounter(steps: seq<Step>, h: Hub)
    requires steps != [] && Enabled(h, steps[|steps| - 1])
    requires h.next == (10000 + Count(steps[..|steps| - 1], None)) % 65536
    ensures Apply(h, steps[|steps| - 1]).next == (10000 + Count(steps, None)) % 65536
  {
  }

  lemma StepTellsOf(steps: seq<Step>, h: Hub, k: nat)
    requires steps != [] && Tells(steps[..|steps| - 1], h) && Enabled(h, steps[|steps| - 1])
    ensures TellsOf(steps, Apply(h, steps[|steps| - 1]), k)
  {
    assert TellsOf(steps[..|steps| - 1], h, k);
  }

  lemma StepTellsOwner(steps: seq<Step>, h: Hub, addr: LocalAddr)
    requires steps != [] && MapInv(h) && Tells(steps[..|steps| - 1], h) && Enabled(h, steps[|steps| - 1])
    ensures var h' := Apply(h, steps[|steps| - 1]);
            OwnerOf(steps, addr) == if addr in h'.replies then Some(h'.replies[addr]) else None
  {
    var before, last := steps[..|steps| - 1], steps[|steps| - 1];
    assert OwnerOf(before, addr) == if addr in h.replies then Some(h.replies[addr]) else None;
    if last.Claim? { assert TellsOf(before, h, last.k); }
  }

  lemma StepTellsHand(steps: seq<Step>, h: Hub)
    requires steps != [] && Enabled(h, steps[|steps| - 1]) && Tells(steps[..|steps| - 1], h)
    ensures Held(Apply(h, steps[|steps| - 1])) == InHand(steps)
  {
    var before, last := steps[..|steps| - 1], steps[|steps| - 1];
    if last.PickUp? {
      assert OwnerOf(before, last.to) == if last.to in h.replies then Some(h.replies[last.to]) else None;
    }
  }

  /** In every interleaving: a stream that tries a free port, as the shared counter hands them
      out, gets the address, and has it until it ends; and it gets exactly the replies for it
      that were looked up in the meantime and handed over, in order. */
  lemma {:induction false} StepsTell(steps: seq<Step>)
    requires Interleaving(steps)
    ensures Tells(steps, After(steps))
  {
    if steps != [] {
      var before := steps[..|steps| - 1];
      StepsTell(before);
      AlwaysInv(before);
      var h := After(before);
      StepTellsCounter(steps, h);
      StepTellsHand(steps, h);
      forall addr ensures OwnerOf(steps, addr) ==
                          if addr in After(steps).replies then Some(After(steps).replies[addr]) else None
      {
        StepTellsOwner(steps, h, addr);
      }
      forall k: nat ensures TellsOf(steps, After(steps), k) { StepTellsOf(steps, h, k); }
    }
  }

  /** A stream gives up only after it has tried 65535 ports. */
  lemma GivesUpAtLast(steps: seq<Step>, k: nat)
    requires Interleaving(steps) && Enabled(After(steps), GiveUp(k))
    ensures Count(steps, Some(k)) == 65535
  {
    StepsTell(steps);
    assert TellsOf(steps, After(steps), k);
  }

  /** No stream and no reply is ever stuck. */
  lemma NeverStuck(steps: seq<Step>, k: nat, to: LocalAddr)
    requires Interleaving(steps)
    ensures var h := After(steps);
            && (Enabled(h, PickUp(to)) || Enabled(h, HandOver)) && (!At(h, k) ==> Enabled(h, Open(k)))
            && (At(h, k) && h.bridges[k].Unaddressed? ==>
                  Enabled(h, Allocate(k, true)) && Enabled(h, Allocate(k, false)))
            && (At(h, k) && h.bridges[k].Probing? ==>
                  Enabled(h, Probe(k)) || Enabled(h, Claim(k)) || Enabled(h, GiveUp(k)))
            && (At(h, k) && h.bridges[k].Live? ==> Enabled(h, End(k)))
  {
    TriesAreFew(steps, k);
  }

  lemma {:induction false} TriesAreFew(steps: seq<Step>, k: nat)
    requires Interleaving(steps)
    ensures var h := After(steps); At(h, k) && h.bridges[k].Probing? ==> h.bridges[k].tries <= 65535
  {
    if steps != [] { TriesAreFew(steps[..|steps| - 1], k); }
  }
}
