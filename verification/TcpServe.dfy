/** The loop that hands accepted TCP streams to a QUIC connection: it takes the request left
    over from the last connection, or the next one from its receiver, opens a stream for it
    and writes its target. The loop is dropped where it waits when the connection closes
    first. */
module TcpServe {
  import opened Bytes
  import opened TunnelTargets

  datatype Request = Request(id: nat, target: Option<Target>)

  datatype Message = Accepted(request: Request) | Quit

  /** How opening a stream and writing the target go, for one request in hand. */
  datatype Attempt = Opens | WriteFails | OpenFails | DroppedOpening | DroppedWriting

  predicate Dropped(a: Attempt) {
    a == DroppedOpening || a == DroppedWriting
  }

  predicate GoesOn(a: Attempt) {
    a == Opens || a == WriteFails
  }

  predicate NoneDropped(attempts: seq<Attempt>) {
    forall a :: a in attempts ==> !Dropped(a)
  }

  /** What became of a request that is no longer waiting. */
  datatype Fate = Handed(request: Request) | Lost(request: Request)

  /** The slot for the left-over request, the messages to come, and what was settled so far. */
  datatype Slots = Slots(pending: Option<Request>, receiver: seq<Message>, log: seq<Fate>)

  predicate Sendable(r: Request) {
    Encode(r.target, false).Ok?
  }

  lemma SendableUnlessTheHostIsNot(r: Request)
    ensures Sendable(r) <==> (r.target.Some? && r.target.value.Domain? ==> 0 < |r.target.value.host| <= 255)
  {
  }

  function Waiting(pending: Option<Request>): (s: seq<Request>) {
    if pending.Some? then [pending.value] else []
  }

  function Requests(messages: seq<Message>): (s: seq<Request>) {
    if messages == [] then []
    else (if messages[0].Accepted? then [messages[0].request] else []) + Requests(messages[1..])
  }

  function Settled(log: seq<Fate>): (s: seq<Request>) {
    if log == [] then [] else Settled(log[..|log| - 1]) + [log[|log| - 1].request]
  }

  /** What is still to be served, in order. */
  function Todo(s: Slots): (requests: seq<Request>) {
    Waiting(s.pending) + Requests(s.receiver)
  }

  /** Every request, in order, whatever became of it. */
  function Everything(s: Slots): (all: seq<Request>) {
    Settled(s.log) + Todo(s)
  }

  function Take(s: Slots): (r: (Option<Request>, Slots)) {
    if s.pending.Some? then (s.pending, s.(pending := None))
    else if s.receiver == [] then (None, s)
    else
      var rest := s.(receiver := s.receiver[1..]);
      if s.receiver[0].Accepted? then (Some(s.receiver[0].request), rest) else (None, rest)
  }

  /** One turn of the loop, and whether there is another. */
  function Turn(s: Slots, attempt: Attempt): (r: (Slots, bool)) {
    var (next, t) := Take(s);
    if next.None? then (t, false)
    else if attempt == OpenFails then (t.(pending := next), false)
    else if Dropped(attempt) then (t.(log := t.log + [Lost(next.value)]), false)
    else if attempt == WriteFails || !Sendable(next.value) then (t.(pending := next), true)
    else (t.(log := t.log + [Handed(next.value)]), true)
  }

  /** One connection; when the attempts are used up no stream opens any more. */
  function Serve(s: Slots, attempts: seq<Attempt>): (s': Slots)
    decreases |attempts|
  {
    if attempts == [] then Turn(s, OpenFails).0
    else
      var (t, more) := Turn(s, attempts[0]);
      if more then Serve(t, attempts[1..]) else t
  }

  /** One connection after another. */
  function Reconnect(s: Slots, connections: seq<seq<Attempt>>): (s': Slots) {
    if connections == [] then s
    else Serve(Reconnect(s, connections[..|connections| - 1]), connections[|connections| - 1])
  }

  class Tunnel {
    var pending: Option<Request>
    var receiver: seq<Message>
    var log: seq<Fate>

    ghost function View(): (s: Slots)
      reads this
    {
      Slots(pending, receiver, log)
    }

    constructor (messages: seq<Message>)
      ensures View() == Slots(None, messages, [])
    {
      pending, receiver, log := None, messages, [];
    }

    method Next() returns (r: Option<Request>)
      modifies this
      ensures (r, View()) == Take(old(View()))
    {
      r := pending;
      pending := None;
      if r.None? && receiver != [] {
        var message := receiver[0];
        receiver := receiver[1..];
        if message.Accepted? { r := Some(message.request); }
      }
    }

    /** The body of the loop. */
    method ServeOne(attempt: Attempt) returns (more: bool)
      modifies this
      ensures (View(), more) == Turn(old(View()), attempt)
    {
      var next := Next();
      if next.None? { return false; }
      if attempt == OpenFails {
        pending := next;
        return false;
      }
      if Dropped(attempt) {
        log := log + [Lost(next.value)];
        return false;
      }
      if attempt == WriteFails || Encode(next.value.target, false).Err? {
        pending := next;
        return true;
      }
      log := log + [Handed(next.value)];
      return true;
    }

    method StartServing(attempts: seq<Attempt>)
      modifies this
      ensures View() == Serve(old(View()), attempts)
    {
      var used, more := 0, true;
      while more && used < |attempts|
        invariant used <= |attempts|
        invariant Serve(old(View()), attempts) == if more then Serve(View(), attempts[used..]) else View()
      {
        ghost var left := attempts[used..];
        assert left[1..] == attempts[used + 1..];
        more := ServeOne(attempts[used]);
        used := used + 1;
      }
      if more {
        assert attempts[used..] == [];
        more := ServeOne(OpenFails);
      }
    }

    method ServeAll(connections: seq<seq<Attempt>>)
      modifies this
      ensures View() == Reconnect(old(View()), connections)
    {
      for i := 0 to |connections|
        invariant View() == Reconnect(old(View()), connections[..i])
      {
        assert connections[..i + 1][..i] == connections[..i];
        StartServing(connections[i]);
      }
      assert connections[..|connections|] == connections;
    }
  }

  // ---------------------------------------------------------------- nothing goes missing

  lemma TakeKeepsAll(s: Slots)
    ensures var (next, t) := Take(s);
            && t.pending == None && t.log == s.log
            && Todo(s) == Waiting(next) + Requests(t.receiver)
  {
  }

  /** What a turn can come to. */
  predicate CanBecome(next: Option<Request>, t: Slots, u: Slots) {
    if next.None? then u == t
    else
      || u == t.(pending := next)
      || u == t.(log := t.log + [Handed(next.value)])
      || u == t.(log := t.log + [Lost(next.value)])
  }

  lemma TurnBecomes(s: Slots, attempt: Attempt)
    ensures CanBecome(Take(s).0, Take(s).1, Turn(s, attempt).0)
  {
  }

  lemma SettledMore(log: seq<Fate>, f: Fate)
    ensures Settled(log + [f]) == Settled(log) + [f.request]
  {
    assert (log + [f])[..|log|] == log;
  }

  /** A request in hand keeps its place among all requests, put back or settled. */
  lemma BecomesKeepsAll(next: Option<Request>, t: Slots, u: Slots)
    requires t.pending == None && CanBecome(next, t, u)
    ensures Everything(u) == Settled(t.log) + (Waiting(next) + Requests(t.receiver)) && t.log <= u.log
  {
    if next.Some? {
      SettledMore(t.log, Handed(next.value));
      SettledMore(t.log, Lost(next.value));
    }
    var before, r, after := Settled(t.log), Waiting(next), Requests(t.receiver);
    assert before + r + ([] + after) == before + (r + after);
  }

  lemma TurnKeepsAll(s: Slots, attempt: Attempt)
    ensures var (t, more) := Turn(s, attempt);
            Everything(t) == Everything(s) && s.log <= t.log
  {
    TakeKeepsAll(s);
    TurnBecomes(s, attempt);
    BecomesKeepsAll(Take(s).0, Take(s).1, Turn(s, attempt).0);
  }

  /** Whatever happens on a connection, dropped loops included, every request is there
      exactly once and in the order of arrival, and no fate is revised. */
  lemma {:induction false} ServeConserves(s: Slots, attempts: seq<Attempt>)
    ensures Everything(Serve(s, attempts)) == Everything(s)
    ensures s.log <= Serve(s, attempts).log
    decreases |attempts|
  {
    if attempts == [] {
      TurnKeepsAll(s, OpenFails);
    } else {
      TurnKeepsAll(s, attempts[0]);
      var (t, more) := Turn(s, attempts[0]);
      if more { ServeConserves(t, attempts[1..]); }
    }
  }

  // ---------------------------------------------------------------- when one is lost

  function Handing(requests: seq<Request>): (log: seq<Fate>) {
    if requests == [] then [] else [Handed(requests[0])] + Handing(requests[1..])
  }

  lemma HandingInOrder(log: seq<Fate>, requests: seq<Request>)
    requires requests != []
    ensures log + Handing(requests) == log + [Handed(requests[0])] + Handing(requests[1..])
  {
  }

  predicate NoneLost(log: seq<Fate>) {
    forall f :: f in log ==> f.Handed?
  }

  function BeforeQuit(messages: seq<Message>): (s: seq<Request>) {
    if messages == [] || messages[0].Quit? then [] else [messages[0].request] + BeforeQuit(messages[1..])
  }

  /** What one connection can get to: the left-over request and those before the first quit. */
  function InReach(s: Slots): (requests: seq<Request>) {
    Waiting(s.pending) + BeforeQuit(s.receiver)
  }

  /** How many requests these attempts hand over; one that cannot be sent stays in front. */
  function Passed(requests: seq<Request>, attempts: seq<Attempt>): (n: nat)
    ensures n <= |requests|
    decreases |attempts|
  {
    if requests == [] || attempts == [] then 0
    else if attempts[0] == Opens && Sendable(requests[0]) then 1 + Passed(requests[1..], attempts[1..])
    else Passed(requests, attempts[1..])
  }

  /** The loop is dropped at attempt `k` with a request in hand: all attempts before it went
      on, and did not hand over all that was in reach. */
  predicate DroppedAt(s: Slots, attempts: seq<Attempt>, k: nat) {
    && k < |attempts| && Dropped(attempts[k])
    && (forall i :: 0 <= i < k ==> GoesOn(attempts[i]))
    && Passed(InReach(s), attempts[..k]) < |InReach(s)|
  }

  lemma TakesTheFront(s: Slots)
    ensures var (next, t) := Take(s);
            && (next.Some? <==> InReach(s) != [])
            && (next.Some? ==> InReach(s) == [next.value] + BeforeQuit(t.receiver))
  {
  }

  /** A turn moves along what is in reach. */
  lemma TurnMovesAlong(s: Slots, attempt: Attempt)
    ensures var (t, more) := Turn(s, attempt);
            && (more <==> GoesOn(attempt) && InReach(s) != [])
            && (more ==>
                  if attempt == Opens && Sendable(InReach(s)[0])
                  then InReach(t) == InReach(s)[1..] && t.log == s.log + [Handed(InReach(s)[0])]
                  else InReach(t) == InReach(s) && t.log == s.log)
  {
    TakesTheFront(s);
  }

  lemma DroppedAtOnce(s: Slots, attempts: seq<Attempt>)
    requires attempts != []
    ensures DroppedAt(s, attempts, 0) <==> Dropped(attempts[0]) && Take(s).0.Some?
  {
    TakesTheFront(s);
    assert attempts[..0] == [];
  }

  lemma PassedLater(s: Slots, attempts: seq<Attempt>, k: nat)
    requires k + 1 < |attempts| && Turn(s, attempts[0]).1
    ensures var t := Turn(s, attempts[0]).0;
            |InReach(s)| - Passed(InReach(s), attempts[..k + 1]) ==
            |InReach(t)| - Passed(InReach(t), attempts[1..][..k])
  {
    TurnMovesAlong(s, attempts[0]);
    var first := attempts[..k + 1];
    assert first[0] == attempts[0] && first[1..] == attempts[1..][..k];
  }

  lemma DroppedLater(s: Slots, attempts: seq<Attempt>, k: nat)
    requires attempts != []
    ensures DroppedAt(s, attempts, k + 1) <==>
              Turn(s, attempts[0]).1 && DroppedAt(Turn(s, attempts[0]).0, attempts[1..], k)
  {
    var (t, more) := Turn(s, attempts[0]);
    TurnMovesAlong(s, attempts[0]);
    if k + 1 < |attempts| && more {
      PassedLater(s, attempts, k);
      assert attempts[1..][k] == attempts[k + 1];
      forall i | 0 <= i < k ensures attempts[1..][i] == attempts[i + 1] {}
      if DroppedAt(t, attempts[1..], k) {
        forall i | 0 <= i < k + 1 ensures GoesOn(attempts[i]) {
          if i > 0 { assert attempts[i] == attempts[1..][i - 1]; }
        }
      }
    }
  }

  ghost predicate DroppedInHand(s: Slots, attempts: seq<Attempt>) {
    exists k: nat :: DroppedAt(s, attempts, k)
  }

  lemma DroppedInHandUnfolds(s: Slots, attempts: seq<Attempt>)
    requires attempts != []
    ensures DroppedInHand(s, attempts) <==>
              || (Dropped(attempts[0]) && Take(s).0.Some?)
              || (Turn(s, attempts[0]).1 && DroppedInHand(Turn(s, attempts[0]).0, attempts[1..]))
  {
    var (t, more) := Turn(s, attempts[0]);
    DroppedAtOnce(s, attempts);
    if k: nat :| DroppedAt(s, attempts, k) {
      if k > 0 { DroppedLater(s, attempts, k - 1); }
    }
    if more && DroppedInHand(t, attempts[1..]) {
      var k: nat :| DroppedAt(t, attempts[1..], k);
      DroppedLater(s, attempts, k);
    }
  }

  lemma AddedFate(log: seq<Fate>, f: Fate)
    requires NoneLost(log)
    ensures NoneLost(log + [f]) <==> f.Handed?
    ensures (log + [f])[..|log|] == log
  {
    assert f in log + [f];
  }

  lemma TurnLoses(s: Slots, attempt: Attempt)
    requires NoneLost(s.log)
    ensures var (t, more) := Turn(s, attempt);
            && (!NoneLost(t.log) <==> Dropped(attempt) && Take(s).0.Some?)
            && (more ==> NoneLost(t.log))
            && (t.log != [] ==> NoneLost(t.log[..|t.log| - 1]))
  {
    var (next, t) := Take(s);
    if next.Some? {
      AddedFate(s.log, Lost(next.value));
      AddedFate(s.log, Handed(next.value));
    }
  }

  /** A connection loses a request exactly if its loop is dropped with one in hand; then it
      is the last thing that happens, so there is one at most. */
  lemma {:induction false} LostIffDropped(s: Slots, attempts: seq<Attempt>)
    requires NoneLost(s.log)
    ensures !NoneLost(Serve(s, attempts).log) <==> DroppedInHand(s, attempts)
    ensures var log := Serve(s, attempts).log; log != [] ==> NoneLost(log[..|log| - 1])
    decreases |attempts|
  {
    if attempts == [] {
      TurnLoses(s, OpenFails);
    } else {
      TurnLoses(s, attempts[0]);
      DroppedInHandUnfolds(s, attempts);
      var (t, more) := Turn(s, attempts[0]);
      if more { LostIffDropped(t, attempts[1..]); }
    }
  }

  /** The first `n` of some requests handed over, and the next one lost. */
  function UpToALoss(log: seq<Fate>, requests: seq<Request>, n: nat): (log': seq<Fate>)
    requires n < |requests|
  {
    log + Handing(requests[..n]) + [Lost(requests[n])]
  }

  /** It makes no difference how many of them are in the log already. */
  lemma SameLoss(log: seq<Fate>, requests: seq<Request>, n: nat, log': seq<Fate>, requests': seq<Request>, n': nat)
    requires n < |requests| && n' < |requests'| && |requests| - n == |requests'| - n'
    requires || (log' == log && requests' == requests)
             || (log' == log + [Handed(requests[0])] && requests' == requests[1..])
    ensures UpToALoss(log, requests, n) == UpToALoss(log', requests', n')
  {
    if requests' != requests {
      assert requests[..n][1..] == requests'[..n'];
      HandingInOrder(log, requests[..n]);
    }
  }

  lemma LostAtOnce(s: Slots, attempts: seq<Attempt>)
    requires DroppedAt(s, attempts, 0)
    ensures Serve(s, attempts).log == UpToALoss(s.log, InReach(s), 0)
  {
    TakesTheFront(s);
    assert InReach(s)[..0] == [];
    assert s.log + Handing([]) == s.log;
  }

  lemma LossLater(s: Slots, attempts: seq<Attempt>, k: nat)
    requires DroppedAt(s, attempts, k + 1) && Turn(s, attempts[0]).1
    requires DroppedAt(Turn(s, attempts[0]).0, attempts[1..], k)
    ensures var t := Turn(s, attempts[0]).0;
            UpToALoss(s.log, InReach(s), Passed(InReach(s), attempts[..k + 1])) ==
            UpToALoss(t.log, InReach(t), Passed(InReach(t), attempts[1..][..k]))
  {
    PassedLater(s, attempts, k);
    TurnMovesAlong(s, attempts[0]);
    var t := Turn(s, attempts[0]).0;
    SameLoss(s.log, InReach(s), Passed(InReach(s), attempts[..k + 1]),
             t.log, InReach(t), Passed(InReach(t), attempts[1..][..k]));
  }

  /** The request it loses is the one in front then, and those before it were handed over. */
  lemma {:induction false} DropLosesTheFront(s: Slots, attempts: seq<Attempt>, k: nat)
    requires DroppedAt(s, attempts, k)
    ensures Serve(s, attempts).log == UpToALoss(s.log, InReach(s), Passed(InReach(s), attempts[..k]))
    decreases k
  {
    if k == 0 {
      assert attempts[..0] == [];
      LostAtOnce(s, attempts);
    } else {
      DroppedLater(s, attempts, k - 1);
      DropLosesTheFront(Turn(s, attempts[0]).0, attempts[1..], k - 1);
      LossLater(s, attempts, k - 1);
    }
  }

  /** The smallest such run: the connection closes while the loop waits for a stream. */
  lemma DroppedRequestIsLost(r: Request, behind: seq<Message>)
    ensures Serve(Slots(None, [Accepted(r)] + behind, []), [DroppedOpening]) == Slots(None, behind, [Lost(r)])
  {
    assert ([Accepted(r)] + behind)[1..] == behind;
  }

  // ---------------------------------------------------------------- over reconnects

  lemma {:induction false} LossNeedsADrop(s: Slots, attempts: seq<Attempt>)
    requires NoneLost(s.log) && NoneDropped(attempts)
    ensures NoneLost(Serve(s, attempts).log)
  {
    LostIffDropped(s, attempts);
  }

  /** Over any number of connections every request is there once and in order; and while no
      loop is dropped none is lost, so that all are handed over but those still waiting. */
  lemma {:induction false} ReconnectConserves(s: Slots, connections: seq<seq<Attempt>>)
    ensures Everything(Reconnect(s, connections)) == Everything(s)
    ensures s.log <= Reconnect(s, connections).log
    ensures NoneLost(s.log) && (forall c :: c in connections ==> NoneDropped(c)) ==>
              NoneLost(Reconnect(s, connections).log)
    decreases |connections|
  {
    if connections != [] {
      var before, last := connections[..|connections| - 1], connections[|connections| - 1];
      var t := Reconnect(s, before);
      ReconnectConserves(s, before);
      ServeConserves(t, last);
      if NoneLost(s.log) && (forall c :: c in connections ==> NoneDropped(c)) {
        LossNeedsADrop(t, last);
      }
    }
  }

  /** A pending request whose target has no encoding keeps everything behind it waiting: over
      any connections whose loops are not dropped nothing changes at all. */
  lemma {:induction false} UnsendableBlocks(s: Slots, connections: seq<seq<Attempt>>)
    requires s.pending.Some? && !Sendable(s.pending.value)
    requires forall c :: c in connections ==> NoneDropped(c)
    ensures Reconnect(s, connections) == s
    decreases |connections|
  {
    if connections != [] {
      UnsendableBlocks(s, connections[..|connections| - 1]);
      BlockedServe(s, connections[|connections| - 1]);
    }
  }

  lemma {:induction false} BlockedServe(s: Slots, attempts: seq<Attempt>)
    requires s.pending.Some? && !Sendable(s.pending.value) && NoneDropped(attempts)
    ensures Serve(s, attempts) == s
    decreases |attempts|
  {
    if attempts != [] {
      assert !Dropped(attempts[0]);
      BlockedServe(s, attempts[1..]);
    }
  }

  // ---------------------------------------------------------------- a good connection

  predicate AllSendable(requests: seq<Request>) {
    requests == [] || (Sendable(requests[0]) && AllSendable(requests[1..]))
  }

  predicate AllOpen(attempts: seq<Attempt>) {
    attempts == [] || (attempts[0] == Opens && AllOpen(attempts[1..]))
  }

  lemma SomethingTodo(s: Slots)
    requires Quit !in s.receiver
    ensures Todo(s) == [] <==> s.pending.None? && s.receiver == []
    ensures Todo(s) != [] ==> Take(s).0.Some?
  {
    if s.receiver != [] { assert s.receiver[0] in s.receiver; }
  }

  lemma OpensHandsOver(s: Slots)
    requires Quit !in s.receiver && Todo(s) != [] && Sendable(Todo(s)[0])
    ensures var (t, more) := Turn(s, Opens);
            more && t.log == s.log + [Handed(Todo(s)[0])] && Todo(t) == Todo(s)[1..] && Quit !in t.receiver
  {
    TakeKeepsAll(s);
    SomethingTodo(s);
    var (next, t) := Take(s);
    assert Todo(s) == [next.value] + Requests(t.receiver);
  }

  /** A connection on which all streams open, with enough of them and no quit message,
      hands over everything in order, if every target can be encoded. */
  lemma {:induction false} GoodConnectionServesAll(s: Slots, attempts: seq<Attempt>)
    requires AllOpen(attempts) && |Todo(s)| <= |attempts|
    requires Quit !in s.receiver && AllSendable(Todo(s))
    ensures Serve(s, attempts) == Slots(None, [], s.log + Handing(Todo(s)))
    decreases |attempts|
  {
    SomethingTodo(s);
    if Todo(s) != [] {
      OpensHandsOver(s);
      HandingInOrder(s.log, Todo(s));
      GoodConnectionServesAll(Turn(s, Opens).0, attempts[1..]);
    } else {
      assert s.log + Handing(Todo(s)) == s.log;
    }
  }

  // ---------------------------------------------------------------- what a connection does

  /** How many attempts go on before the first that does not. */
  function GoingOn(attempts: seq<Attempt>): (k: nat)
    ensures k <= |attempts|
  {
    if attempts == [] || !GoesOn(attempts[0]) then 0 else 1 + GoingOn(attempts[1..])
  }

  function AfterQuit(messages: seq<Message>): (rest: seq<Message>) {
    if messages == [] then [] else if messages[0].Quit? then messages[1..] else AfterQuit(messages[1..])
  }

  /** What is left to receive once `n` of the requests in reach have been taken. */
  function LeftAfter(s: Slots, n: nat): (rest: seq<Message>)
    requires n <= |InReach(s)|
  {
    var taken := if s.pending.Some? && n > 0 then n - 1 else n;
    ReachIsReceived(s.receiver);
    s.receiver[taken..]
  }

  lemma {:induction false} ReachIsReceived(messages: seq<Message>)
    ensures |BeforeQuit(messages)| <= |messages|
  {
    if messages != [] && messages[0].Accepted? { ReachIsReceived(messages[1..]); }
  }

  /** The first `n` of the requests in reach are handed over, and the next is pending, or lost
      where the loop is dropped. With none left the quit message is gone too. */
  function HandedUpTo(s: Slots, n: nat, dropped: bool): (s': Slots)
    requires n <= |InReach(s)|
  {
    var all := InReach(s);
    if n == |all| then Slots(None, AfterQuit(s.receiver), s.log + Handing(all))
    else if dropped then Slots(None, LeftAfter(s, n + 1), UpToALoss(s.log, all, n))
    else Slots(Some(all[n]), LeftAfter(s, n + 1), s.log + Handing(all[..n]))
  }

  /** What a connection comes to: all attempts up to the first that does not go on count. */
  function Outcome(s: Slots, attempts: seq<Attempt>): (s': Slots) {
    var k := GoingOn(attempts);
    HandedUpTo(s, Passed(InReach(s), attempts[..k]), k < |attempts| && Dropped(attempts[k]))
  }

  /** A turn that goes on takes a message if nothing was pending. */
  lemma TurnReceives(s: Slots, attempt: Attempt)
    requires Turn(s, attempt).1
    ensures var t := Turn(s, attempt).0;
            && InReach(s) != [] && AfterQuit(t.receiver) == AfterQuit(s.receiver)
            && t.pending == (if attempt == Opens && Sendable(InReach(s)[0]) then None else Some(InReach(s)[0]))
            && (s.pending.None? ==> s.receiver != [])
            && t.receiver == if s.pending.Some? then s.receiver else s.receiver[1..]
  {
    TakesTheFront(s);
  }

  lemma LeftGoesOn(s: Slots, attempt: Attempt, n: nat)
    requires Turn(s, attempt).1 && n < |InReach(s)|
    requires attempt == Opens && Sendable(InReach(s)[0]) ==> n > 0
    ensures var t := Turn(s, attempt).0;
            var n' := if attempt == Opens && Sendable(InReach(s)[0]) then n - 1 else n;
            n' < |InReach(t)| && LeftAfter(t, n' + 1) == LeftAfter(s, n + 1)
  {
    TurnMovesAlong(s, attempt);
    TurnReceives(s, attempt);
    ReachIsReceived(s.receiver);
  }

  lemma SameHanded(log: seq<Fate>, requests: seq<Request>, n: nat, log': seq<Fate>, requests': seq<Request>, n': nat)
    requires n <= |requests| && n' <= |requests'| && |requests| - n == |requests'| - n'
    requires || (log' == log && requests' == requests)
             || (requests != [] && log' == log + [Handed(requests[0])] && requests' == requests[1..])
    ensures log + Handing(requests[..n]) == log' + Handing(requests'[..n'])
  {
    if requests' != requests {
      assert requests[..n][1..] == requests'[..n'];
      HandingInOrder(log, requests[..n]);
    }
  }

  lemma HandedGoesOn(s: Slots, attempt: Attempt, n: nat, dropped: bool)
    requires Turn(s, attempt).1 && n <= |InReach(s)|
    requires attempt == Opens && Sendable(InReach(s)[0]) ==> n > 0
    ensures var t := Turn(s, attempt).0;
            var n' := if attempt == Opens && Sendable(InReach(s)[0]) then n - 1 else n;
            n' <= |InReach(t)| && HandedUpTo(t, n', dropped) == HandedUpTo(s, n, dropped)
  {
    var t := Turn(s, attempt).0;
    TurnMovesAlong(s, attempt);
    TurnReceives(s, attempt);
    var n' := if attempt == Opens && Sendable(InReach(s)[0]) then n - 1 else n;
    SameHanded(s.log, InReach(s), n, t.log, InReach(t), n');
    if n < |InReach(s)| {
      LeftGoesOn(s, attempt, n);
      SameLoss(s.log, InReach(s), n, t.log, InReach(t), n');
    } else {
      assert InReach(s)[..n] == InReach(s) && InReach(t)[..n'] == InReach(t);
    }
  }

  /** A turn that goes on changes nothing about the outcome. */
  lemma OutcomeGoesOn(s: Slots, attempts: seq<Attempt>)
    requires attempts != [] && Turn(s, attempts[0]).1
    ensures Outcome(Turn(s, attempts[0]).0, attempts[1..]) == Outcome(s, attempts)
  {
    var k := GoingOn(attempts);
    TurnMovesAlong(s, attempts[0]);
    assert attempts[..k][0] == attempts[0] && attempts[..k][1..] == attempts[1..][..k - 1];
    HandedGoesOn(s, attempts[0], Passed(InReach(s), attempts[..k]), k < |attempts| && Dropped(attempts[k]));
  }

  lemma OutcomeAtOnce(s: Slots, attempt: Attempt, attempts: seq<Attempt>)
    requires !Turn(s, attempt).1
    requires if attempts == [] then attempt == OpenFails else attempts[0] == attempt
    ensures Turn(s, attempt).0 == Outcome(s, attempts)
  {
    TakesTheFront(s);
    TurnMovesAlong(s, attempt);
  }

  /** The loop comes to exactly that, for all requests, messages and attempts. */
  lemma {:induction false} ServeComesTo(s: Slots, attempts: seq<Attempt>)
    ensures Serve(s, attempts) == Outcome(s, attempts)
    decreases |attempts|
  {
    var attempt := if attempts == [] then OpenFails else attempts[0];
    TurnMovesAlong(s, attempt);
    if Turn(s, attempt).1 {
      ServeComesTo(Turn(s, attempt).0, attempts[1..]);
      OutcomeGoesOn(s, attempts);
    } else {
      OutcomeAtOnce(s, attempt, attempts);
    }
  }

  /** How many requests some connections hand over, one after another. */
  function HandedOver(s: Slots, connections: seq<seq<Attempt>>): (n: nat) {
    if connections == [] then 0
    else
      var before, last := connections[..|connections| - 1], connections[|connections| - 1];
      HandedOver(s, before) + Passed(InReach(Reconnect(s, before)), last[..GoingOn(last)])
  }

  lemma InReachIsTodo(s: Slots)
    ensures InReach(s) <= Todo(s)
  {
    BeforeQuitIsFirst(s.receiver);
  }

  lemma {:induction false} BeforeQuitIsFirst(messages: seq<Message>)
    ensures BeforeQuit(messages) <= Requests(messages)
  {
    if messages != [] && messages[0].Accepted? { BeforeQuitIsFirst(messages[1..]); }
  }

  lemma {:induction false} HandingAppend(xs: seq<Request>, ys: seq<Request>)
    ensures Handing(xs + ys) == Handing(xs) + Handing(ys)
  {
    if xs == [] {
      assert xs + ys == ys;
    } else {
      assert (xs + ys)[1..] == xs[1..] + ys;
      HandingAppend(xs[1..], ys);
    }
  }

  lemma {:induction false} HandingSettled(requests: seq<Request>, log: seq<Fate>)
    ensures Settled(log + Handing(requests)) == Settled(log) + requests
    decreases |requests|
  {
    if requests == [] {
      assert log + Handing(requests) == log;
    } else {
      HandingInOrder(log, requests);
      HandingSettled(requests[1..], log + [Handed(requests[0])]);
      SettledMore(log, Handed(requests[0]));
    }
  }

  /** The first `n` of all requests have been handed over since, and the others are to be. */
  ghost predicate HandedFirst(s: Slots, s': Slots, n: nat) {
    n <= |Todo(s)| && s'.log == s.log + Handing(Todo(s)[..n]) && Todo(s') == Todo(s)[n..]
  }

  lemma HandedMore(s: Slots, t: Slots, u: Slots, n: nat, more: nat)
    requires HandedFirst(s, t, n) && HandedFirst(t, u, more)
    ensures HandedFirst(s, u, n + more)
  {
    JoinHanding(s.log, Todo(s), n, more);
  }

  lemma JoinHanding(log: seq<Fate>, all: seq<Request>, n: nat, more: nat)
    requires n + more <= |all|
    ensures log + Handing(all[..n]) + Handing(all[n..][..more]) == log + Handing(all[..n + more])
    ensures all[n..][more..] == all[n + more..]
  {
    assert all[..n] + all[n..][..more] == all[..n + more];
    HandingAppend(all[..n], all[n..][..more]);
  }

  lemma HandedFrom(s: Slots, s': Slots, n: nat)
    requires n <= |Todo(s)| && s'.log == s.log + Handing(Todo(s)[..n]) && Everything(s') == Everything(s)
    ensures HandedFirst(s, s', n)
  {
    var all := Todo(s);
    HandingSettled(all[..n], s.log);
    assert (Settled(s.log) + all[..n]) + all[n..] == Settled(s.log) + (all[..n] + all[n..]);
    assert all[..n] + all[n..] == all;
    Cancel(Settled(s.log) + all[..n], all[n..], Everything(s), Todo(s'));
  }

  /** A connection whose loop is not dropped hands the requests over in order, as many as its
      attempts allow; if one in reach is left it is pending. */
  lemma ConnectionHandsOver(s: Slots, attempts: seq<Attempt>)
    requires NoneDropped(attempts)
    ensures var n := Passed(InReach(s), attempts[..GoingOn(attempts)]);
            && HandedFirst(s, Serve(s, attempts), n)
            && (n < |InReach(s)| ==> Serve(s, attempts).pending == Some(InReach(s)[n]))
  {
    ServeComesTo(s, attempts);
    ServeConserves(s, attempts);
    InReachIsTodo(s);
    var n := Passed(InReach(s), attempts[..GoingOn(attempts)]);
    assert InReach(s)[..n] == Todo(s)[..n];
    assert InReach(s)[..|InReach(s)|] == InReach(s);
    HandedFrom(s, Serve(s, attempts), n);
  }

  /** And so do any number of them, one after another. */
  lemma {:induction false} ReconnectHandsOver(s: Slots, connections: seq<seq<Attempt>>)
    requires forall c :: c in connections ==> NoneDropped(c)
    ensures HandedFirst(s, Reconnect(s, connections), HandedOver(s, connections))
    decreases |connections|
  {
    if connections == [] {
      assert s.log + Handing(Todo(s)[..0]) == s.log;
    } else {
      var before, last := connections[..|connections| - 1], connections[|connections| - 1];
      ReconnectHandsOver(s, before);
      var t := Reconnect(s, before);
      ConnectionHandsOver(t, last);
      HandedMore(s, t, Serve(t, last), HandedOver(s, before), Passed(InReach(t), last[..GoingOn(last)]));
    }
  }
}
