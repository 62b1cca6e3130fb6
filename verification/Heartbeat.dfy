/** Login and heartbeats on one control stream: a FIFO of messages each way, a client that
    logs in and then sends numbered requests and waits for each answer, and a server that
    answers. The client gives up on a timeout; either side can stop at any time. */
module Heartbeat {
  import opened Bytes

  const U64: nat := 0x1_0000_0000_0000_0000

  type u64 = n: nat | n < 0x1_0000_0000_0000_0000

  datatype Message = ReqLogin | RespSuccess | RespFailure | ReqHeartbeat(seqNo: u64) | RespHeartbeat(seqNo: u64)

  datatype Client = NotConnected | LoggingIn | Ticking(seqNo: u64) | Expecting(seqNo: u64) | Rejected

  datatype Server = Listening | Deciding | Serving | Answering(seqNo: u64) | Refused

  /** Both sides with the messages on their way, whether each side is still running, and
      whether one of the branches for a wrong or unexpected message was ever taken. */
  datatype Link = Link(client: Client, server: Server, toServer: seq<Message>, toClient: seq<Message>,
                       clientUp: bool, serverUp: bool, surprised: bool)

  const START: Link := Link(NotConnected, Listening, [], [], true, true, false)

  datatype Step =
    | SendLogin | ReceiveReply            // client, login
    | Tick | ReceiveAnswer | ClientStops  // client, heartbeat loop
    | ReceiveLogin | Decide(accept: bool) // server, login
    | ReceiveRequest | Answer | ServerStops

  predicate Enabled(l: Link, step: Step) {
    match step
    case SendLogin => l.clientUp && l.client == NotConnected
    case ReceiveReply => l.clientUp && l.client == LoggingIn && l.toClient != []
    case Tick => l.clientUp && l.client.Ticking?
    case ReceiveAnswer => l.clientUp && l.client.Expecting? && l.toClient != []
    case ClientStops => l.clientUp
    case ReceiveLogin => l.serverUp && l.server == Listening && l.toServer != []
    case Decide(_) => l.serverUp && l.server == Deciding
    case ReceiveRequest => l.serverUp && l.server == Serving && l.toServer != []
    case Answer => l.serverUp && l.server.Answering?
    case ServerStops => l.serverUp
  }

  function Apply(l: Link, step: Step): (l': Link)
    requires Enabled(l, step)
  {
    match step
    case SendLogin => l.(client := LoggingIn, toServer := l.toServer + [ReqLogin])
    case ReceiveReply =>
      var reply := l.toClient[0];
      l.(client := if reply == RespSuccess then Ticking(0) else Rejected,
         surprised := l.surprised || (reply != RespSuccess && reply != RespFailure),
         toClient := l.toClient[1..])
    case Tick =>
      var n := (l.client.seqNo + 1) % U64;
      l.(client := Expecting(n), toServer := l.toServer + [ReqHeartbeat(n)])
    case ReceiveAnswer =>
      var n := l.client.seqNo;
      l.(client := Ticking(n), surprised := l.surprised || l.toClient[0] != RespHeartbeat(n),
         toClient := l.toClient[1..])
    case ClientStops => l.(clientUp := false)
    case ReceiveLogin =>
      var login := l.toServer[0] == ReqLogin;
      l.(server := if login then Deciding else Refused, surprised := l.surprised || !login,
         toServer := l.toServer[1..])
    case Decide(accept) =>
      if accept then l.(server := Serving, toClient := l.toClient + [RespSuccess])
      else l.(server := Refused, toClient := l.toClient + [RespFailure])
    case ReceiveRequest =>
      var request := l.toServer[0];
      l.(server := if request.ReqHeartbeat? then Answering(request.seqNo) else Serving,
         surprised := l.surprised || !request.ReqHeartbeat?,
         toServer := l.toServer[1..])
    case Answer => l.(server := Serving, toClient := l.toClient + [RespHeartbeat(l.server.seqNo)])
    case ServerStops => l.(serverUp := false)
  }

  /** The conversation as one of the positions it can be in. */
  ghost predicate Inv(l: Link) {
    !l.surprised &&
    match l.client
    case NotConnected => l.server == Listening && l.toServer == [] && l.toClient == []
    case LoggingIn =>
      || (l.server == Listening && l.toServer == [ReqLogin] && l.toClient == [])
      || (l.server == Deciding && l.toServer == [] && l.toClient == [])
      || (l.server == Serving && l.toServer == [] && l.toClient == [RespSuccess])
      || (l.server == Refused && l.toServer == [] && l.toClient == [RespFailure])
    case Ticking(_) => l.server == Serving && l.toServer == [] && l.toClient == []
    case Expecting(n) =>
      || (l.server == Serving && l.toServer == [ReqHeartbeat(n)] && l.toClient == [])
      || (l.server == Answering(n) && l.toServer == [] && l.toClient == [])
      || (l.server == Serving && l.toServer == [] && l.toClient == [RespHeartbeat(n)])
    case Rejected => l.server == Refused && l.toServer == [] && l.toClient == []
  }

  function After(steps: seq<Step>): (l: Link)
    requires Interleaving(steps)
    decreases |steps|, 1
  {
    if steps == [] then START else Apply(After(steps[..|steps| - 1]), steps[|steps| - 1])
  }

  predicate Interleaving(steps: seq<Step>)
    decreases |steps|, 0
  {
    steps == [] ||
    (Interleaving(steps[..|steps| - 1]) && Enabled(After(steps[..|steps| - 1]), steps[|steps| - 1]))
  }

  lemma StepKeepsInv(l: Link, step: Step)
    requires Inv(l) && Enabled(l, step)
    ensures Inv(Apply(l, step))
  {
  }

  lemma {:induction false} AlwaysInv(steps: seq<Step>)
    requires Interleaving(steps)
    ensures Inv(After(steps))
  {
    if steps != [] {
      AlwaysInv(steps[..|steps| - 1]);
      StepKeepsInv(After(steps[..|steps| - 1]), steps[|steps| - 1]);
    }
  }

  function InFlight(l: Link): (n: nat) {
    |l.toServer| + |l.toClient| + if l.server.Answering? || l.server == Deciding then 1 else 0
  }

  /** In every interleaving at most one message is under way, and only while the client waits
      for it; any answer under way carries the outstanding number, whatever the numbers did
      before, wrapping round included; and the branches for wrong and unexpected messages are
      never reached. */
  lemma AnswersMatch(steps: seq<Step>)
    requires Interleaving(steps)
    ensures var l := After(steps);
            && InFlight(l) <= 1
            && (l.client.Ticking? ==> InFlight(l) == 0)
            && (l.client.Expecting? ==> InFlight(l) == 1)
            && (forall m :: m in l.toClient && m.RespHeartbeat? ==>
                  l.client.Expecting? && m.seqNo == l.client.seqNo)
            && (forall m :: m in l.toServer && m.ReqHeartbeat? ==>
                  l.client.Expecting? && m.seqNo == l.client.seqNo)
            && !l.surprised
  {
    AlwaysInv(steps);
  }

  /** The two sides never wait for each other: while both run and the login was not refused,
      one of them has a step other than stopping. */
  lemma SomeoneCanMove(steps: seq<Step>)
    requires Interleaving(steps)
    ensures var l := After(steps);
            l.clientUp && l.serverUp && l.client != Rejected ==>
              exists step: Step :: step != ClientStops && step != ServerStops && Enabled(l, step)
    ensures var l := After(steps);
            && (l.clientUp ==> Enabled(l, ClientStops)) && (l.serverUp ==> Enabled(l, ServerStops))
            && (l.serverUp && l.server == Deciding ==> forall accept :: Enabled(l, Decide(accept)))
  {
    AlwaysInv(steps);
    var l := After(steps);
    if l.clientUp && l.serverUp && l.client != Rejected {
      var step :=
        if l.client == NotConnected then SendLogin
        else if l.client.Ticking? then Tick
        else if l.toClient != [] then (if l.client == LoggingIn then ReceiveReply else ReceiveAnswer)
        else if l.server == Listening then ReceiveLogin
        else if l.server == Deciding then Decide(true)
        else if l.server.Answering? then Answer
        else ReceiveRequest;
      assert Enabled(l, step);
    }
  }

  function Ticks(steps: seq<Step>): (n: nat) {
    if steps == [] then 0
    else Ticks(steps[..|steps| - 1]) + if steps[|steps| - 1] == Tick then 1 else 0
  }

  ghost predicate Counted(c: Client, n: nat) {
    match c
    case Ticking(k) => k == n % U64
    case Expecting(k) => k == n % U64
    case _ => n == 0
  }

  lemma NextNumber(n: nat)
    ensures (n % U64 + 1) % U64 == (n + 1) % U64
  {
    assert n == n / U64 * U64 + n % U64;
    if n % U64 + 1 == U64 {
      assert n + 1 == (n / U64 + 1) * U64;
    }
  }

  lemma StepCounts(l: Link, step: Step, n: nat)
    requires Inv(l) && Enabled(l, step) && Counted(l.client, n)
    ensures Counted(Apply(l, step).client, if step == Tick then n + 1 else n)
  {
    NextNumber(n);
    StepKeepsInv(l, step);
  }

  /** The k-th heartbeat of a connection carries k reduced to 64 bits, so a number comes
      round again only after 2 to the 64 heartbeats; before the login is accepted, and
      after it is refused, there are none. */
  lemma {:induction false} NumbersCount(steps: seq<Step>)
    requires Interleaving(steps)
    ensures Counted(After(steps).client, Ticks(steps))
  {
    if steps != [] {
      var before := steps[..|steps| - 1];
      NumbersCount(before);
      AlwaysInv(before);
      StepCounts(After(before), steps[|steps| - 1], Ticks(before));
    }
  }

  /** What the server has decided about the login, if it has. */
  function Decision(steps: seq<Step>): (d: Option<bool>) {
    if steps == [] then None
    else if steps[|steps| - 1].Decide? then Some(steps[|steps| - 1].accept)
    else Decision(steps[..|steps| - 1])
  }

  /** Where both sides can be by that decision. */
  ghost predicate Obeys(l: Link, d: Option<bool>) {
    match d
    case None => (l.client == NotConnected || l.client == LoggingIn) && (l.server == Listening || l.server == Deciding)
    case Some(true) =>
      && (l.client == LoggingIn || l.client.Ticking? || l.client.Expecting?)
      && (l.server == Serving || l.server.Answering?)
    case Some(false) => (l.client == LoggingIn || l.client == Rejected) && l.server == Refused
  }

  /** The server decides: after it has accepted the login it serves, and the client goes on to
      heartbeats; after it has refused it serves nothing, and the client is told so. */
  lemma {:induction false} ServerDecides(steps: seq<Step>)
    requires Interleaving(steps)
    ensures Obeys(After(steps), Decision(steps))
    ensures var l := After(steps);
            l.client == LoggingIn && l.toClient != [] ==>
              l.toClient == [if Decision(steps) == Some(true) then RespSuccess else RespFailure]
  {
    AlwaysInv(steps);
    if steps != [] {
      ServerDecides(steps[..|steps| - 1]);
      AlwaysInv(steps[..|steps| - 1]);
    }
  }
}
