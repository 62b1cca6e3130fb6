/** The serving side of UDP over QUIC: packets are routed by local address and target to
    streams, each with a bounded queue and a writer task; a reader task and the writer task
    of a stream remove its key from the map when they end, whichever stream is registered
    under it by then. All of these run at the same time. */
module UdpServing {
  import opened Bytes
  import opened TunnelTargets
  import opened Framing

  const QUEUE_CAPACITY: nat := 512

  datatype Key = Key(local: SocketAddr, peer: Option<Target>)

  datatype Packet = Packet(payload: bytes, key: Key)

  /** A stream: its key, what has been written to it, the packets that are not written yet, of
      which a busy writer has taken the first out of its channel, and as history every packet
      that was put into the channel. */
  datatype Flow =
    Flow(key: Key, wire: bytes, unsent: seq<Packet>, busy: bool, accepted: seq<Packet>, writing: bool)

  /** How many packets are in the channel of a writer. */
  function Queued(f: Flow): (n: int) {
    |f.unsent| - if f.busy then 1 else 0
  }

  /** The serving loop, between looking a stream up and handing it the packet. */
  datatype Loop = Idle | Holding(packet: Packet, flow: nat)

  datatype Serving = Serving(streams: map<Key, nat>, flows: seq<Flow>, loop: Loop)

  const START: Serving := Serving(map[], [], Idle)

  datatype Step =
    | Route(packet: Packet)       // a stream is registered under the key
    | Open(packet: Packet)        // none is, and a new one is opened
    | HandOver                    // the packet is queued, or dropped
    | TakeUp(i: nat)              // the writer takes the next packet out of its channel
    | Write(i: nat)               // the writer sends it
    | Break(i: nat, part: nat)    // the writer fails in the middle of a packet
    | Close(i: nat)               // the writer's channel is closed and empty
    | Forget(i: nat)              // the reader ends

  /** The header of a stream for packets with this key, if there can be one. */
  function Header(key: Key): (h: Option<bytes>) {
    match Encode(key.peer, true)
    case Ok(Some(h)) => Some(h)
    case _ => None
  }

  /** There is one unless the target is a host of no bytes or of more than 255. */
  lemma HeadersExist(key: Key)
    ensures Header(key).Some? <==>
            (key.peer.Some? && key.peer.value.Domain? ==> 0 < |key.peer.value.host| <= 255)
  {
  }

  predicate Enabled(s: Serving, step: Step) {
    match step
    case Route(p) => s.loop.Idle? && p.key in s.streams && s.streams[p.key] < |s.flows|
    case Open(p) => s.loop.Idle? && p.key !in s.streams && Header(p.key).Some?
    case HandOver => s.loop.Holding? && s.loop.flow < |s.flows|
    case TakeUp(i) => i < |s.flows| && s.flows[i].writing && !s.flows[i].busy && s.flows[i].unsent != []
    case Write(i) => i < |s.flows| && s.flows[i].writing && s.flows[i].busy && s.flows[i].unsent != []
    case Break(i, part) =>
      && i < |s.flows| && s.flows[i].writing && s.flows[i].busy && s.flows[i].unsent != []
      && part <= |Frame(2, s.flows[i].unsent[0].payload)|
    case Close(i) =>
      && i < |s.flows| && s.flows[i].writing && s.flows[i].unsent == []
      && i !in s.streams.Values && !(s.loop.Holding? && s.loop.flow == i)
    case Forget(i) => i < |s.flows|
  }

  function Apply(s: Serving, step: Step): (s': Serving)
    requires Enabled(s, step)
  {
    match step
    case Route(p) => s.(loop := Holding(p, s.streams[p.key]))
    case Open(p) =>
      Serving(s.streams[p.key := |s.flows|],
              s.flows + [Flow(p.key, Header(p.key).value, [], false, [], true)],
              Holding(p, |s.flows|))
    case HandOver =>
      var i, p := s.loop.flow, s.loop.packet;
      var f := s.flows[i];
      var s' := s.(loop := Idle);
      if !f.writing || Queued(f) >= QUEUE_CAPACITY then s'
      else s'.(flows := s.flows[i := f.(unsent := f.unsent + [p], accepted := f.accepted + [p])])
    case TakeUp(i) => s.(flows := s.flows[i := s.flows[i].(busy := true)])
    case Write(i) =>
      var f := s.flows[i];
      var f' := f.(wire := f.wire + Frame(2, f.unsent[0].payload), unsent := f.unsent[1..], busy := false);
      s.(flows := s.flows[i := f'])
    case Break(i, part) =>
      var f := s.flows[i];
      s.(streams := s.streams - {f.key},
         flows := s.flows[i := f.(wire := f.wire + Frame(2, f.unsent[0].payload)[..part], writing := false)])
    case Close(i) =>
      s.(streams := s.streams - {s.flows[i].key}, flows := s.flows[i := s.flows[i].(writing := false)])
    case Forget(i) => s.(streams := s.streams - {s.flows[i].key})
  }

  function Payloads(ps: seq<Packet>): (r: seq<bytes>) {
    if ps == [] then [] else Payloads(ps[..|ps| - 1]) + [ps[|ps| - 1].payload]
  }

  lemma {:induction false} PayloadAt(ps: seq<Packet>, i: nat)
    requires i < |ps|
    ensures |Payloads(ps)| == |ps| && Payloads(ps)[i] == ps[i].payload
  {
    if |ps| > 1 && i < |ps| - 1 {
      PayloadAt(ps[..|ps| - 1], i);
    } else if |ps| > 1 {
      PayloadAt(ps[..|ps| - 1], 0);
    }
  }

  lemma {:induction false} PayloadsAreAsMany(ps: seq<Packet>)
    ensures |Payloads(ps)| == |ps|
  {
    if ps != [] { PayloadsAreAsMany(ps[..|ps| - 1]); }
  }

  lemma {:induction false} FramesAppend(xs: seq<bytes>, x: bytes)
    ensures Frames(2, xs + [x]) == Frames(2, xs) + Frame(2, x)
  {
    if xs == [] {
      assert xs + [x] == [x];
      assert [x][1..] == [];
    } else {
      assert (xs + [x])[1..] == xs[1..] + [x];
      FramesAppend(xs[1..], x);
      var first, rest := Frame(2, xs[0]), Frames(2, xs[1..]);
      assert first + (rest + Frame(2, x)) == (first + rest) + Frame(2, x);
    }
  }

  /** How many of its packets a stream's writer has sent. */
  function SentCount(f: Flow): (n: int) {
    |f.accepted| - |f.unsent|
  }

  /** A channel holds no more than its capacity. A stream carries the header of its key and
      then frames of packets with its key, in the order in which they were queued; a writer
      that broke may have left part of one more. */
  ghost predicate FlowInv(f: Flow) {
    && Header(f.key).Some?
    && (forall i :: 0 <= i < |f.accepted| ==> f.accepted[i].key == f.key)
    && 0 <= SentCount(f) && 0 <= Queued(f) <= QUEUE_CAPACITY
    && f.unsent == f.accepted[SentCount(f)..]
    && var sent := Header(f.key).value + Frames(2, Payloads(f.accepted[..SentCount(f)]));
    if f.writing then f.wire == sent
    else sent <= f.wire && (f.wire == sent || (f.unsent != [] && f.wire <= sent + Frame(2, f.unsent[0].payload)))
  }

  ghost predicate Inv(s: Serving) {
    && (forall i :: 0 <= i < |s.flows| ==> FlowInv(s.flows[i]))
    && (forall k :: k in s.streams ==> s.streams[k] < |s.flows| && s.flows[s.streams[k]].key == k)
    && (s.loop.Holding? ==> s.loop.flow < |s.flows| && s.flows[s.loop.flow].key == s.loop.packet.key)
  }

  lemma QueueKeeps(f: Flow, p: Packet)
    requires FlowInv(f) && f.writing && p.key == f.key && Queued(f) < QUEUE_CAPACITY
    ensures FlowInv(f.(unsent := f.unsent + [p], accepted := f.accepted + [p]))
  {
    var f' := f.(unsent := f.unsent + [p], accepted := f.accepted + [p]);
    assert f'.accepted[SentCount(f')..] == f'.unsent;
    assert f'.accepted[..SentCount(f')] == f.accepted[..SentCount(f)];
  }

  lemma WriteKeeps(f: Flow)
    requires FlowInv(f) && f.writing && f.busy && f.unsent != []
    ensures FlowInv(f.(wire := f.wire + Frame(2, f.unsent[0].payload), unsent := f.unsent[1..], busy := false))
  {
    var n := SentCount(f);
    assert f.unsent[0] == f.accepted[n] && f.unsent[1..] == f.accepted[n + 1..];
    NextFrame(Header(f.key).value, f.accepted, n);
  }

  lemma NextFrame(head: bytes, accepted: seq<Packet>, n: nat)
    requires n < |accepted|
    ensures head + Frames(2, Payloads(accepted[..n + 1])) ==
            (head + Frames(2, Payloads(accepted[..n]))) + Frame(2, accepted[n].payload)
  {
    var before, after := accepted[..n], accepted[..n + 1];
    assert after[..n] == before && after[n] == accepted[n];
    FramesAppend(Payloads(before), accepted[n].payload);
  }

  lemma BreakKeeps(f: Flow, part: nat)
    requires FlowInv(f) && f.writing && f.busy && f.unsent != [] && part <= |Frame(2, f.unsent[0].payload)|
    ensures FlowInv(f.(wire := f.wire + Frame(2, f.unsent[0].payload)[..part], writing := false))
  {
  }

  /** Changing one stream, forgetting keys and moving the loop on keep what holds of all. */
  lemma OneFlowChanges(s: Serving, s': Serving, i: nat)
    requires Inv(s) && i < |s.flows| == |s'.flows|
    requires s'.flows == s.flows[i := s'.flows[i]] && FlowInv(s'.flows[i]) && s'.flows[i].key == s.flows[i].key
    requires forall k :: k in s'.streams ==> k in s.streams && s'.streams[k] == s.streams[k]
    requires s'.loop == s.loop || s'.loop.Idle?
    ensures Inv(s')
  {
  }

  lemma OpenKeeps(s: Serving, p: Packet)
    requires Inv(s) && Enabled(s, Open(p))
    ensures Inv(Apply(s, Open(p)))
  {
    var s' := Apply(s, Open(p));
    var f := s'.flows[|s.flows|];
    assert f.accepted[..0] == [] && Payloads([]) == [];
    assert FlowInv(f);
    forall i | 0 <= i < |s'.flows| ensures FlowInv(s'.flows[i]) {
      assert i < |s.flows| ==> s'.flows[i] == s.flows[i];
    }
  }

  lemma HandOverKeeps(s: Serving)
    requires Inv(s) && Enabled(s, HandOver)
    ensures Inv(Apply(s, HandOver))
  {
    var f := s.flows[s.loop.flow];
    if f.writing && Queued(f) < QUEUE_CAPACITY { QueueKeeps(f, s.loop.packet); }
    OneFlowChanges(s, Apply(s, HandOver), s.loop.flow);
  }

  lemma WriterKeeps(s: Serving, step: Step)
    requires Inv(s) && Enabled(s, step) && (step.Write? || step.Break?)
    ensures Inv(Apply(s, step))
  {
    if step.Write? {
      WriteKeeps(s.flows[step.i]);
    } else {
      BreakKeeps(s.flows[step.i], step.part);
    }
    OneFlowChanges(s, Apply(s, step), step.i);
  }

  lemma QuietStepKeeps(s: Serving, step: Step)
    requires Inv(s) && Enabled(s, step) && (step.Close? || step.Forget? || step.TakeUp?)
    ensures Inv(Apply(s, step))
  {
    OneFlowChanges(s, Apply(s, step), step.i);
  }

  lemma StepKeepsInv(s: Serving, step: Step)
    requires Inv(s) && Enabled(s, step)
    ensures Inv(Apply(s, step))
  {
    if step.Open? {
      OpenKeeps(s, step.packet);
    } else if step.HandOver? {
      HandOverKeeps(s);
    } else if step.Write? || step.Break? {
      WriterKeeps(s, step);
    } else if step.Close? || step.Forget? || step.TakeUp? {
      QuietStepKeeps(s, step);
    }
  }

  /** The state after some steps of the serving loop, the writers and the readers. */
  function After(steps: seq<Step>): (s: Serving)
    requires Interleaving(steps)
    decreases |steps|, 1
  {
    if steps == [] then START else Apply(After(steps[..|steps| - 1]), steps[|steps| - 1])
  }

  predicate Interleaving(steps: seq<Step>)
    decreases |steps|, 0
  {
    steps == [] ||
    (Interleaving(steps[..|steps| - 1]) && Enabled(After(steps[..|steps| - 1]), steps[|steps| - 1]))
  }

  lemma {:induction false} AlwaysInv(steps: seq<Step>)
    requires Interleaving(steps)
    ensures Inv(After(steps))
  {
    if steps != [] {
      AlwaysInv(steps[..|steps| - 1]);
      StepKeepsInv(After(steps[..|steps| - 1]), steps[|steps| - 1]);
    }
  }

  /** The target of a key is one the wire can carry: text for a host, and no IPv6 flow
      information or scope. */
  predicate Plain(utf8: bytes -> bool, key: Key) {
    key.peer.Some? ==> WellTyped(utf8, key.peer.value) && OnTheWire(key.peer.value) == key.peer.value
  }

  /** What the accepting end reads off a stream: the target, and then datagrams. */
  datatype Received = Received(target: Option<Target>, payloads: seq<bytes>)

  function Receive(utf8: bytes -> bool, wire: bytes): (r: Option<Received>) {
    match ParseOptional(utf8, wire)
    case Ok(p) => Some(Received(p.0, ReadAll(2, UDP_PACKET_SIZE, p.1).payloads))
    case Err(_) => None
  }

  lemma HeaderReadsBack(utf8: bytes -> bool, key: Key, tail: bytes)
    requires Plain(utf8, key) && Header(key).Some?
    ensures ParseOptional(utf8, Header(key).value + tail) == Ok((key.peer, tail))
  {
    if key.peer.Some? {
      EncodeThenParse(utf8, key.peer.value, true, tail);
    } else {
      NoneRoundTrips(utf8, tail);
    }
  }

  lemma {:induction false} PayloadsPrefix(ps: seq<Packet>, n: nat)
    requires n <= |ps|
    ensures Payloads(ps[..n]) <= Payloads(ps)
  {
    if n == |ps| {
      assert ps[..n] == ps;
    } else {
      var init := ps[..|ps| - 1];
      PayloadsPrefix(init, n);
      assert init[..n] == ps[..n];
    }
  }

  /** In every interleaving, every stream reads back as the target of its key followed by
      payloads of packets with that key, whole and in the order they were queued; all that
      its writer has sent are among them, and all of them once nothing is unsent. */
  lemma StreamsReadBack(utf8: bytes -> bool, steps: seq<Step>, i: nat)
    requires Interleaving(steps) && i < |After(steps).flows|
    requires var f := After(steps).flows[i];
             Plain(utf8, f.key) && forall j :: 0 <= j < |f.accepted| ==> |f.accepted[j].payload| <= 1500
    ensures var f := After(steps).flows[i];
            var r := Receive(utf8, f.wire);
            && (forall j :: 0 <= j < |f.accepted| ==> f.accepted[j].key == f.key)
            && r.Some? && r.value.target == f.key.peer
            && 0 <= SentCount(f) <= |f.accepted|
            && Payloads(f.accepted[..SentCount(f)]) <= r.value.payloads <= Payloads(f.accepted)
            && (f.unsent == [] ==> r.value.payloads == Payloads(f.accepted))
  {
    AlwaysInv(steps);
    var f := After(steps).flows[i];
    forall j | 0 <= j < |Payloads(f.accepted)| ensures Fits(2, UDP_PACKET_SIZE, Payloads(f.accepted)[j]) {
      PayloadsAreAsMany(f.accepted);
      PayloadAt(f.accepted, j);
    }
    FlowReadsBack(utf8, f);
  }

  lemma FlowReadsBack(utf8: bytes -> bool, f: Flow)
    requires FlowInv(f) && Plain(utf8, f.key) && AllFit(2, UDP_PACKET_SIZE, Payloads(f.accepted))
    ensures var r := Receive(utf8, f.wire);
            && r.Some? && r.value.target == f.key.peer
            && Payloads(f.accepted[..SentCount(f)]) <= r.value.payloads <= Payloads(f.accepted)
            && (f.unsent == [] ==> r.value.payloads == Payloads(f.accepted))
  {
    var h := Header(f.key).value;
    assert h <= f.wire;
    var body := f.wire[|h|..];
    assert f.wire == h + body;
    HeaderReadsBack(utf8, f.key, body);
    BodyReadsBack(f, body);
  }

  lemma BodyReadsBack(f: Flow, body: bytes)
    requires FlowInv(f) && f.wire == Header(f.key).value + body
    requires AllFit(2, UDP_PACKET_SIZE, Payloads(f.accepted))
    ensures var got := ReadAll(2, UDP_PACKET_SIZE, body).payloads;
            && Payloads(f.accepted[..SentCount(f)]) <= got <= Payloads(f.accepted)
            && (f.unsent == [] ==> got == Payloads(f.accepted))
  {
    var n := SentCount(f);
    var h, sent := Header(f.key).value, Payloads(f.accepted[..n]);
    PayloadsPrefix(f.accepted, n);
    if f.wire == h + Frames(2, sent) {
      Cancel(h, body, f.wire, Frames(2, sent));
      FramesRoundTrip(2, UDP_PACKET_SIZE, sent);
      if f.unsent == [] { assert f.accepted[..n] == f.accepted; }
    } else {
      PartOfAFrame(f, body);
    }
  }

  lemma PartOfAFrame(f: Flow, body: bytes)
    requires 0 <= SentCount(f) < |f.accepted| && f.unsent == f.accepted[SentCount(f)..]
    requires Header(f.key).Some? && f.wire == Header(f.key).value + body
    requires AllFit(2, UDP_PACKET_SIZE, Payloads(f.accepted))
    requires var sent := Header(f.key).value + Frames(2, Payloads(f.accepted[..SentCount(f)]));
             sent <= f.wire <= sent + Frame(2, f.unsent[0].payload)
    ensures var got := ReadAll(2, UDP_PACKET_SIZE, body).payloads;
            Payloads(f.accepted[..SentCount(f)]) <= got <= Payloads(f.accepted)
  {
    var n := SentCount(f);
    var sent, p := Payloads(f.accepted[..n]), f.accepted[n].payload;
    OneMorePayload(f.accepted, n);
    FitPrefix(sent + [p], Payloads(f.accepted));
    Between(Header(f.key).value, Frames(2, sent), Frame(2, p), body);
    CutBodyReads(sent, p, body);
  }

  lemma OneMorePayload(accepted: seq<Packet>, n: nat)
    requires n < |accepted|
    ensures Payloads(accepted[..n]) + [accepted[n].payload] <= Payloads(accepted)
  {
    assert accepted[..n + 1][..n] == accepted[..n];
    PayloadsPrefix(accepted, n + 1);
  }

  lemma Between(head: bytes, low: bytes, more: bytes, body: bytes)
    requires head + low <= head + body <= (head + low) + more
    ensures low <= body <= low + more
  {
    assert (head + low) + more == head + (low + more);
    PrefixCancel(head, body, low + more);
    PrefixCancel(head, low, body);
  }

  lemma FitPrefix(xs: seq<bytes>, ys: seq<bytes>)
    requires xs <= ys && AllFit(2, UDP_PACKET_SIZE, ys)
    ensures AllFit(2, UDP_PACKET_SIZE, xs)
  {
    forall i | 0 <= i < |xs| ensures Fits(2, UDP_PACKET_SIZE, xs[i]) {
      assert xs[i] == ys[i];
    }
  }

  lemma CutBodyReads(sent: seq<bytes>, p: bytes, body: bytes)
    requires AllFit(2, UDP_PACKET_SIZE, sent + [p])
    requires Frames(2, sent) <= body <= Frames(2, sent) + Frame(2, p)
    ensures sent <= ReadAll(2, UDP_PACKET_SIZE, body).payloads <= sent + [p]
  {
    FramesAppend(sent, p);
    CutFramesAreAPrefix(2, UDP_PACKET_SIZE, sent + [p], body);
    FitPrefix(sent, sent + [p]);
    WholeFramesRead(sent, body);
  }

  /** Whole frames at the front of a stream are read whatever comes after them. */
  lemma {:induction false} WholeFramesRead(ps: seq<bytes>, s: bytes)
    requires AllFit(2, UDP_PACKET_SIZE, ps) && Frames(2, ps) <= s
    ensures ps <= ReadAll(2, UDP_PACKET_SIZE, s).payloads
  {
    if ps != [] {
      var tail := SplitFrame(ps, s);
      TakeFrame(2, UDP_PACKET_SIZE, ps[0], tail);
      WholeFramesRead(ps[1..], tail);
      assert ps == [ps[0]] + ps[1..];
    }
  }

  lemma SplitFrame(ps: seq<bytes>, s: bytes) returns (tail: bytes)
    requires ps != [] && Frames(2, ps) <= s
    ensures s == Frame(2, ps[0]) + tail && Frames(2, ps[1..]) <= tail
  {
    tail := s[|Frame(2, ps[0])|..];
    assert Frames(2, ps) == Frame(2, ps[0]) + Frames(2, ps[1..]);
  }

  // ------------------------------------------------------------ what the steps tell

  /** The streams opened so far, by key. */
  function Opened(steps: seq<Step>): (keys: seq<Key>) {
    if steps == [] then []
    else
      var before, last := steps[..|steps| - 1], steps[|steps| - 1];
      if last.Open? then Opened(before) + [last.packet.key] else Opened(before)
  }

  /** A step that ends the writer of stream `i`, or its reader. */
  predicate EndsWriter(step: Step, i: nat) {
    (step.Break? || step.Close?) && step.i == i
  }

  predicate Unregisters(step: Step, key: Key, keys: seq<Key>) {
    (step.Break? || step.Close? || step.Forget?) && step.i < |keys| && keys[step.i] == key
  }

  predicate WriterRuns(steps: seq<Step>, i: nat) {
    forall j :: 0 <= j < |steps| ==> !EndsWriter(steps[j], i)
  }

  /** The stream that a packet with this key goes to: the one opened for it last, unless a
      writer or reader of a stream with that key has ended since. */
  function Registered(steps: seq<Step>, key: Key): (i: Option<nat>) {
    if steps == [] then None
    else
      var before, last := steps[..|steps| - 1], steps[|steps| - 1];
      if last.Open? && last.packet.key == key then Some(|Opened(before)|)
      else if Unregisters(last, key, Opened(before)) then None
      else Registered(before, key)
  }

  /** The packet that the serving loop has in hand, and the stream it is for. */
  function InHand(steps: seq<Step>): (r: Option<(Packet, Option<nat>)>) {
    if steps == [] then None
    else
      var before, last := steps[..|steps| - 1], steps[|steps| - 1];
      match last
      case Open(p) => Some((p, Some(|Opened(before)|)))
      case Route(p) => Some((p, Registered(before, p.key)))
      case HandOver => None
      case _ => InHand(before)
  }

  function Count(steps: seq<Step>, what: Step): (n: nat) {
    if steps == [] then 0
    else Count(steps[..|steps| - 1], what) + if steps[|steps| - 1] == what then 1 else 0
  }

  /** The packets that stream `i` gets: those handed to it while its writer runs and fewer than
      512 of them are in the channel, that is, not taken up yet. */
  function Gets(steps: seq<Step>, i: nat): (ps: seq<Packet>) {
    if steps == [] then []
    else
      var before, last := steps[..|steps| - 1], steps[|steps| - 1];
      var got, held := Gets(before, i), InHand(before);
      if last == HandOver && held.Some? && held.value.1 == Some(i) && WriterRuns(before, i)
         && |got| - Count(before, TakeUp(i)) < 512
      then got + [held.value.0]
      else got
  }

  /** What the steps say of a stream: what it gets, whether its writer runs, and how many packets
      that has taken up and sent. */
  datatype Story = Story(gets: seq<Packet>, runs: bool, taken: nat, sent: nat)

  ghost function StoryOf(steps: seq<Step>, i: nat): (st: Story) {
    Story(Gets(steps, i), WriterRuns(steps, i), Count(steps, TakeUp(i)), Count(steps, Write(i)))
  }

  ghost function GoesOn(st: Story, step: Step, held: Option<(Packet, Option<nat>)>, i: nat): (st': Story) {
    var queued := step == HandOver && held.Some? && held.value.1 == Some(i) && st.runs && |st.gets| - st.taken < 512;
    Story(if queued then st.gets + [held.value.0] else st.gets, st.runs && !EndsWriter(step, i),
          st.taken + (if step == TakeUp(i) then 1 else 0), st.sent + if step == Write(i) then 1 else 0)
  }

  lemma StoryGoesOn(steps: seq<Step>, i: nat)
    requires steps != []
    ensures var before := steps[..|steps| - 1];
            StoryOf(steps, i) == GoesOn(StoryOf(before, i), steps[|steps| - 1], InHand(before), i)
  {
    var before := steps[..|steps| - 1];
    if WriterRuns(steps, i) {
      forall j | 0 <= j < |before| ensures !EndsWriter(before[j], i) { assert before[j] == steps[j]; }
    }
    if WriterRuns(before, i) && !EndsWriter(steps[|steps| - 1], i) {
      forall j | 0 <= j < |steps| ensures !EndsWriter(steps[j], i) {
        if j < |before| { assert before[j] == steps[j]; }
      }
    }
  }

  predicate Follows(f: Flow, st: Story) {
    && f.accepted == st.gets && (f.writing <==> st.runs)
    && SentCount(f) == st.sent && |f.accepted| - Queued(f) == st.taken
  }

  function Held(s: Serving): (r: Option<(Packet, Option<nat>)>) {
    if s.loop.Holding? then Some((s.loop.packet, Some(s.loop.flow))) else None
  }

  lemma FlowFollows(s: Serving, step: Step, i: nat, st: Story)
    requires Enabled(s, step) && i < |s.flows| && Follows(s.flows[i], st)
    ensures i < |Apply(s, step).flows| && Follows(Apply(s, step).flows[i], GoesOn(st, step, Held(s), i))
  {
  }

  ghost predicate TellsFlow(steps: seq<Step>, s: Serving, i: nat) {
    if i < |s.flows| then Follows(s.flows[i], StoryOf(steps, i)) else StoryOf(steps, i) == Story([], true, 0, 0)
  }

  /** The registered streams, the packet in hand and every stream are what the steps say. */
  ghost predicate Tells(steps: seq<Step>, s: Serving) {
    && |s.flows| == |Opened(steps)| && Held(s) == InHand(steps)
    && (forall i :: 0 <= i < |s.flows| ==> s.flows[i].key == Opened(steps)[i])
    && (forall i: nat :: TellsFlow(steps, s, i))
    && (forall key :: Registered(steps, key) == if key in s.streams then Some(s.streams[key]) else None)
  }

  lemma StepTellsFlow(s: Serving, steps: seq<Step>, i: nat)
    requires steps != [] && Tells(steps[..|steps| - 1], s) && Enabled(s, steps[|steps| - 1])
    ensures var s' := Apply(s, steps[|steps| - 1]);
            TellsFlow(steps, s', i)
  {
    var before, last := steps[..|steps| - 1], steps[|steps| - 1];
    StoryGoesOn(steps, i);
    assert TellsFlow(before, s, i);
    if i < |s.flows| {
      FlowFollows(s, last, i, StoryOf(before, i));
    }
  }

  lemma StepTellsKey(s: Serving, steps: seq<Step>, key: Key)
    requires steps != [] && Tells(steps[..|steps| - 1], s) && Enabled(s, steps[|steps| - 1])
    ensures var s' := Apply(s, steps[|steps| - 1]);
            Registered(steps, key) == if key in s'.streams then Some(s'.streams[key]) else None
  {
    var before, last := steps[..|steps| - 1], steps[|steps| - 1];
    assert Registered(before, key) == if key in s.streams then Some(s.streams[key]) else None;
  }

  lemma StepTellsRest(s: Serving, steps: seq<Step>)
    requires steps != [] && Tells(steps[..|steps| - 1], s) && Enabled(s, steps[|steps| - 1])
    ensures var s' := Apply(s, steps[|steps| - 1]);
            && |s'.flows| == |Opened(steps)| && Held(s') == InHand(steps)
            && forall i :: 0 <= i < |s'.flows| ==> s'.flows[i].key == Opened(steps)[i]
  {
    var before, last := steps[..|steps| - 1], steps[|steps| - 1];
    if last.Route? {
      assert Registered(before, last.packet.key) == Some(s.streams[last.packet.key]);
    }
  }

  /** In every interleaving: the stream of a packet is the one opened last for its key, unless one
      of that key has ended since; and a stream gets exactly the packets handed to it while its
      writer runs and has fewer than 512 waiting, in that order. */
  lemma {:induction false} StepsTell(steps: seq<Step>)
    requires Interleaving(steps)
    ensures Tells(steps, After(steps))
  {
    if steps != [] {
      var s, s' := After(steps[..|steps| - 1]), After(steps);
      StepsTell(steps[..|steps| - 1]);
      StepTellsRest(s, steps);
      forall i: nat ensures TellsFlow(steps, s', i) { StepTellsFlow(s, steps, i); }
      forall key ensures Registered(steps, key) == if key in s'.streams then Some(s'.streams[key]) else None {
        StepTellsKey(s, steps, key);
      }
    }
  }

  /** A packet is handed over to the end of the channel of a writer that runs and has fewer than
      512 waiting; to any other it is not, and no stream changes. */
  lemma HandOverQueues(steps: seq<Step>)
    requires Interleaving(steps) && Enabled(After(steps), HandOver)
    ensures var s, s' := After(steps), Apply(After(steps), HandOver);
            var i, p := s.loop.flow, s.loop.packet;
            var f := s.flows[i];
            if WriterRuns(steps, i) && |Gets(steps, i)| - Count(steps, TakeUp(i)) < 512
            then s'.flows == s.flows[i := f.(accepted := f.accepted + [p], unsent := f.unsent + [p])]
            else s'.flows == s.flows
  {
    StepsTell(steps);
    var s := After(steps);
    assert TellsFlow(steps, s, s.loop.flow);
  }

  /** How much of a packet the writer of stream `i` had sent when it broke. */
  function BrokenOff(steps: seq<Step>, i: nat): (part: nat) {
    if steps == [] then 0
    else if steps[|steps| - 1].Break? && steps[|steps| - 1].i == i then steps[|steps| - 1].part
    else BrokenOff(steps[..|steps| - 1], i)
  }

  /** The bytes of a stream that gets these packets, has sent so many and broke off so far into
      the next. */
  function WireOf(key: Key, gets: seq<Packet>, sent: nat, part: nat): (w: bytes) {
    if Header(key).None? || sent > |gets| then []
    else
      Header(key).value + Frames(2, Payloads(gets[..sent])) +
      if sent < |gets| && part <= |Frame(2, gets[sent].payload)| then Frame(2, gets[sent].payload)[..part] else []
  }

  lemma WholeWire(f: Flow)
    requires FlowInv(f) && f.writing
    ensures f.wire == WireOf(f.key, f.accepted, SentCount(f), 0)
  {
  }

  lemma BrokenWire(f: Flow, part: nat)
    requires FlowInv(f) && f.writing && f.busy && f.unsent != [] && part <= |Frame(2, f.unsent[0].payload)|
    ensures f.wire + Frame(2, f.unsent[0].payload)[..part] == WireOf(f.key, f.accepted, SentCount(f), part)
  {
    assert f.unsent[0] == f.accepted[SentCount(f)];
  }

  /** A stream whose writer has ended does not change any more, and a writer ends in one of two
      ways: it breaks off somewhere in a packet, or has nothing more to send. */
  predicate EndsIn(f: Flow, f': Flow, broke: Option<nat>) {
    && (!f.writing ==> f' == f)
    && (f.writing && !f'.writing ==>
          match broke
          case Some(n) =>
            && f.busy && f.unsent != [] && n <= |Frame(2, f.unsent[0].payload)|
            && f' == f.(wire := f.wire + Frame(2, f.unsent[0].payload)[..n], writing := false)
          case None => f' == f.(writing := false))
    && (broke.Some? ==> !f'.writing)
  }

  function Broke(step: Step, i: nat): (n: Option<nat>) {
    if step.Break? && step.i == i then Some(step.part) else None
  }

  lemma EndOfWriter(s: Serving, step: Step, i: nat)
    requires Enabled(s, step) && i < |s.flows|
    ensures EndsIn(s.flows[i], Apply(s, step).flows[i], Broke(step, i))
  {
  }

  lemma WireGoesOn(f: Flow, f': Flow, broke: Option<nat>, part: nat)
    requires FlowInv(f) && FlowInv(f') && EndsIn(f, f', broke) && (f.writing ==> part == 0)
    requires f.wire == WireOf(f.key, f.accepted, SentCount(f), part) && (broke.Some? ==> f.writing)
    ensures f'.wire == WireOf(f'.key, f'.accepted, SentCount(f'), if broke.Some? then broke.value else part)
  {
    if f'.writing {
      WholeWire(f');
    } else if f.writing && broke.Some? {
      BrokenWire(f, broke.value);
    }
  }

  lemma StepTellsWire(s: Serving, step: Step, i: nat, part: nat)
    requires Inv(s) && Enabled(s, step) && i < |s.flows| && (s.flows[i].writing ==> part == 0)
    requires var f := s.flows[i]; f.wire == WireOf(f.key, f.accepted, SentCount(f), part)
    ensures var f := Apply(s, step).flows[i];
            && 0 <= SentCount(f)
            && f.wire == WireOf(f.key, f.accepted, SentCount(f), if step.Break? && step.i == i then step.part else part)
  {
    StepKeepsInv(s, step);
    EndOfWriter(s, step, i);
    WireGoesOn(s.flows[i], Apply(s, step).flows[i], Broke(step, i), part);
  }

  /** The bytes of every stream are what the steps say: the header of its key, the frames of the
      packets sent, and of one more as much as was sent when the writer broke. */
  lemma {:induction false} StepsTellTheWire(steps: seq<Step>, i: nat)
    requires Interleaving(steps) && i < |After(steps).flows|
    ensures i < |Opened(steps)|
    ensures After(steps).flows[i].wire == WireOf(Opened(steps)[i], Gets(steps, i), Count(steps, Write(i)),
                                                 BrokenOff(steps, i))
    ensures WriterRuns(steps, i) ==> BrokenOff(steps, i) == 0
  {
    StepsTell(steps);
    var before, last := steps[..|steps| - 1], steps[|steps| - 1];
    var s := After(before);
    AlwaysInv(before);
    assert TellsFlow(steps, After(steps), i);
    StoryGoesOn(steps, i);
    if i < |s.flows| {
      StepsTellTheWire(before, i);
      StepsTell(before);
      assert TellsFlow(before, s, i);
      StepTellsWire(s, last, i, BrokenOff(before, i));
    } else {
      NotBrokenYet(before, i);
    }
  }

  lemma {:induction false} NotBrokenYet(steps: seq<Step>, i: nat)
    requires Interleaving(steps) && i >= |After(steps).flows|
    ensures BrokenOff(steps, i) == 0
  {
    if steps != [] { NotBrokenYet(steps[..|steps| - 1], i); }
  }

  /** The loop can always go on: with any packet whose header can be written, and with the one it
      has. */
  lemma LoopGoesOn(steps: seq<Step>, p: Packet)
    requires Interleaving(steps)
    ensures var s := After(steps);
            && (s.loop.Idle? && Header(p.key).Some? ==> Enabled(s, Route(p)) || Enabled(s, Open(p)))
            && (s.loop.Holding? ==> Enabled(s, HandOver))
  {
    AlwaysInv(steps);
  }

  /** So can a running writer with what is in its channel; a reader can end at any time, a writer
      break at any byte, and end once nothing can come. */
  lemma WritersGoOn(s: Serving, i: nat)
    requires i < |s.flows|
    ensures Enabled(s, Forget(i))
    ensures var f := s.flows[i];
            f.writing && f.unsent != [] ==>
              && (Enabled(s, TakeUp(i)) || Enabled(s, Write(i)))
              && (f.busy ==> forall n: nat :: n <= |Frame(2, f.unsent[0].payload)| ==> Enabled(s, Break(i, n)))
    ensures s.flows[i].writing && s.flows[i].unsent == [] && i !in s.streams.Values && s.loop.Idle? ==>
              Enabled(s, Close(i))
  {
  }
}
