/** The table of codec pairs of one peer, one end of the handshake run against it, and what
    the data tasks do with their pairs when they end. */
module CodecTable {
  import opened Bytes
  import opened Zstd
  import opened CodecPairs
  import opened Handshake
  import CodecLoops

  datatype LookupResult = Hit(id: Id, pair: CodecPair) | Miss(id: Id, pair: CodecPair)

  datatype HandshakeResult = HandshakeResult(s2qPair: CodecPair, q2sPair: CodecPair,
                                             s2qId: Id, s2qAck: Id, q2sId: Id, q2sAck: Id)

  lemma SettleInSteps(t: Table, mine: Id, theirs: Id, acked: Id, t1: Table, t2: Table, picked: Context,
                      ack: Id, q2s: Context)
    requires 0 !in t && t1 == t - {mine} && t2 == t1 - {theirs}
    requires picked == Picked(t, mine)
    requires ack == if theirs in t1 then theirs else 0
    requires q2s == if ack != 0 then t1[theirs] else FRESH_CONTEXT
    ensures Settle(t, mine, theirs, acked) ==
            Settled(mine, acked, if acked == 0 && mine != 0 then picked.(log := []) else picked, theirs, ack, q2s, t2)
  {
  }

  predicate NoSharing(cache: map<Id, CodecPair>) {
    forall i, j :: i in cache && j in cache && i != j ==> cache[i] != cache[j]
  }

  class CodecLru {
    const z: Codec
    var cache: map<Id, CodecPair>

    /** Zero is not a key, no pair is stored twice, and stored pairs are at rest. */
    ghost predicate Valid()
      reads this, cache.Values
    {
      && Lawful(z)
      && 0 !in cache
      && (forall id :: id in cache ==> cache[id].z == z && cache[id].Settled())
      && NoSharing(cache)
    }

    /** No stored pair is marked errored. */
    ghost predicate Healthy()
      reads this, cache.Values
    {
      forall id :: id in cache ==> !cache[id].errored
    }

    ghost function View(): (t: Table)
      reads this, cache.Values
    {
      map id | id in cache :: cache[id].View()
    }

    constructor (z: Codec)
      requires Lawful(z)
      ensures Valid() && Healthy() && cache == map[] && this.z == z
    {
      this.z := z;
      cache := map[];
    }

    /** Some pair of the table that is not errored. The cache is walked in an order of its own,
        of which only what comes `first` matters. */
    method Scan(first: Id) returns (found: Option<Id>)
      ensures found.Some? ==> found.value in cache && !cache[found.value].errored
      ensures found.None? ==> forall id :: id in cache ==> cache[id].errored
      ensures first in cache && !cache[first].errored ==> found == Some(first)
    {
      if first in cache && !cache[first].errored { return Some(first); }
      var rest := cache.Keys;
      while rest != {}
        invariant rest <= cache.Keys
        invariant forall id :: id in cache && id !in rest ==> cache[id].errored
        decreases |rest|
      {
        var id :| id in rest;
        if !cache[id].errored { return Some(id); }
        rest := rest - {id};
      }
      found := None;
    }

    /** An entry leaves the cache, taken by a task or dropped by the cache of its own accord. */
    method Remove(id: Id)
      requires Valid()
      modifies this
      ensures Valid() && cache == old(cache) - {id} && View() == old(View()) - {id}
      ensures old(Healthy()) ==> Healthy()
    {
      cache := cache - {id};
      assert View() == old(View()) - {id};
    }

    /** Takes a healthy pair out of the table, or makes a new one under the new id when there
        is none. */
    method Checkout(first: Id, newId: Id) returns (id: Id, pair: CodecPair)
      requires Valid() && newId != 0
      modifies this
      ensures Valid() && id != 0
      ensures pair.Settled() && pair.z == z && !pair.errored && pair !in cache.Values
      ensures if exists k :: k in old(cache) && !old(cache)[k].errored
              then id in old(cache) && pair == old(cache)[id] && cache == old(cache) - {id}
              else id == newId && fresh(pair) && pair.View() == FRESH_CONTEXT && cache == old(cache)
      ensures first in old(cache) && !old(cache)[first].errored ==> id == first
    {
      var found := Scan(first);
      if found.Some? {
        id, pair := found.value, cache[found.value];
        Remove(id);
        if !pair.errored { return; }
      }
      id := newId;
      pair := new CodecPair(z);
    }

    /** Takes the pair with the remote's id out of the table, or makes a new one. */
    method Lookup(id: Id) returns (r: LookupResult)
      requires Valid()
      modifies this
      ensures Valid() && r.id == id && cache == old(cache) - {id} && View() == old(View()) - {id}
      ensures old(Healthy()) ==> Healthy()
      ensures r.pair.Settled() && r.pair.z == z && !r.pair.errored && r.pair !in cache.Values
      ensures if id in old(cache) && !old(cache)[id].errored
              then r.Hit? && r.pair == old(cache)[id]
              else r.Miss? && fresh(r.pair) && r.pair.View() == FRESH_CONTEXT
    {
      ghost var known := id in cache;
      if id != 0 && id in cache {
        var pair := cache[id];
        Remove(id);
        if !pair.errored { return Hit(id, pair); }
      }
      assert !known ==> cache - {id} == cache && View() - {id} == View();
      var pair := new CodecPair(z);
      r := Miss(id, pair);
    }

    method Checkin(id: Id, pair: CodecPair)
      requires Valid() && pair.Settled() && pair.z == z && pair !in cache.Values
      modifies this
      ensures Valid()
      ensures cache == if id == 0 || pair.errored then old(cache) else old(cache)[id := pair]
      ensures View() == if id == 0 || pair.errored then old(View()) else old(View())[id := pair.View()]
      ensures old(Healthy()) ==> Healthy()
    {
      if id == 0 || pair.errored { return; }
      cache := cache[id := pair];
      assert View() == old(View())[id := pair.View()];
    }

    /** The end of a data task: a clean end or a local error puts the pair back, a timeout
        or a codec error spoils it. */
    method Retire(id: Id, pair: CodecPair, out: CodecLoops.Outcome)
      requires Valid() && Healthy() && pair.z == z && pair !in cache.Values
      requires out == CodecLoops.CleanEof || out == CodecLoops.IoError ==> pair.Settled()
      modifies this, pair`errored
      ensures Valid() && Healthy()
      ensures out == CodecLoops.CleanEof || out == CodecLoops.IoError ==>
                && pair.errored == old(pair.errored)
                && cache == (if id == 0 || pair.errored then old(cache) else old(cache)[id := pair])
                && View() == if id == 0 || pair.errored then old(View()) else old(View())[id := pair.View()]
      ensures out == CodecLoops.Timeout || out == CodecLoops.CodecError ==>
                cache == old(cache) && pair.errored && View() == old(View())
    {
      match out
      case CleanEof => Checkin(id, pair);
      case IoError => Checkin(id, pair);
      case Timeout => pair.MarkErrored();
      case CodecError => pair.MarkErrored();
    }

    /** The first phase of the handshake: pick a pair. */
    method PickPair(first: Id, newId: Id) returns (id: Id, pair: CodecPair)
      requires Valid() && Healthy() && newId != 0
      modifies this
      ensures Valid() && Healthy() && id != 0
      ensures pair.Settled() && pair.z == z && !pair.errored && pair !in cache.Values
      ensures pair.View() == Picked(old(View()), id) && View() == old(View()) - {id}
      ensures if old(cache) == map[] then id == newId && fresh(pair) else id in old(cache) && pair == old(cache)[id]
      ensures cache == old(cache) - {id} && (first in old(cache) ==> id == first)
      ensures Exclusive(pair) && cache.Values <= old(cache.Values)
    {
      id, pair := Checkout(first, newId);
      if old(cache) != map[] {
        var k :| k in old(cache);
        assert !old(cache)[k].errored;
      }
      assert View() == old(View()) - {id};
    }

    /** The third: look the remote's id up and decide the acknowledgement. */
    method AnswerId(theirs: Id) returns (pair: CodecPair, ack: Id)
      requires Valid() && Healthy()
      modifies this
      ensures Valid() && Healthy() && cache == old(cache) - {theirs}
      ensures pair.Settled() && pair.z == z && !pair.errored && pair !in cache.Values
      ensures fresh(pair) || (theirs in old(cache) && pair == old(cache)[theirs])
      ensures ack == if theirs in old(cache) then theirs else 0
      ensures pair.View() == if ack != 0 then old(View())[theirs] else FRESH_CONTEXT
      ensures View() == old(View()) - {theirs}
    {
      var found := Lookup(theirs);
      pair, ack := found.pair, if found.Hit? then found.id else 0;
      if ack == 0 { StartDecoder(pair); }
    }

    method StartDecoder(pair: CodecPair)
      requires Valid() && Healthy() && Exclusive(pair)
      modifies pair`decoder
      ensures Valid() && Healthy() && Exclusive(pair) && View() == old(View())
      ensures pair.View() == old(pair.View()).(fed := [])
    {
      pair.ResetDecoder();
      assert View() == old(View());
    }

    /** The same beside the pair that this end has picked. */
    method AnswerBeside(theirs: Id, ghost picked: CodecPair) returns (pair: CodecPair, ack: Id)
      requires Valid() && Healthy() && Exclusive(picked)
      modifies this, cache.Values
      ensures Valid() && Healthy() && cache.Values <= old(cache.Values) && View() == old(View()) - {theirs}
      ensures Exclusive(pair) && pair.z == z && (fresh(pair) || pair in old(cache.Values))
      ensures ack == if theirs in old(View()) then theirs else 0
      ensures pair.View() == if ack != 0 then old(View())[theirs] else FRESH_CONTEXT
      ensures Exclusive(picked) && picked != pair && picked.View() == old(picked.View())
    {
      pair, ack := AnswerId(theirs);
    }

    /** The last: on a zero acknowledgement start the encoder afresh. */
    method HeedAck(pair: CodecPair, id: Id, acked: Id, ghost other: CodecPair)
      requires Valid() && Healthy() && Exclusive(pair) && Exclusive(other) && other != pair
      modifies pair`encoder
      ensures Valid() && Healthy() && Exclusive(pair) && View() == old(View())
      ensures Exclusive(other) && other.View() == old(other.View())
      ensures pair.View() == if acked == 0 && id != 0 then old(pair.View()).(log := []) else old(pair.View())
    {
      if acked == 0 && id != 0 { pair.ResetEncoder(); }
      assert View() == old(View());
    }

    /** The two pairs of a finished handshake are out of the table, and not one pair. */
    ghost predicate TakenOut(r: HandshakeResult)
      reads this, r.s2qPair, r.q2sPair
    {
      && Exclusive(r.s2qPair) && Exclusive(r.q2sPair) && r.s2qPair != r.q2sPair
      && r.s2qPair.z == z && r.q2sPair.z == z
    }

    ghost function EndOf(r: HandshakeResult): (e: Settled)
      reads this, cache.Values, r.s2qPair, r.q2sPair
    {
      Settled(r.s2qId, r.s2qAck, r.s2qPair.View(), r.q2sId, r.q2sAck, r.q2sPair.View(), View())
    }

    /** An end that has picked hears the remote's id and, if it comes, the acknowledgement. */
    method AnswerAndHeed(mine: Id, picked: CodecPair, theirs: Id, acked: Option<Id>, ghost t: Table)
      returns (r: Option<HandshakeResult>, ack: Id)
      requires Valid() && Healthy() && Exclusive(picked) && picked.z == z
      requires 0 !in t && View() == t - {mine} && picked.View() == Picked(t, mine)
      modifies this, cache.Values, picked`encoder
      ensures Valid() && Healthy() && cache.Values <= old(cache.Values) && (r.Some? <==> acked.Some?)
      ensures r.Some? ==>
                && EndOf(r.value) == Settle(t, mine, theirs, acked.value) && TakenOut(r.value)
                && r.value.s2qPair == picked && r.value.s2qId == mine && r.value.q2sAck == ack
                && (fresh(r.value.q2sPair) || r.value.q2sPair in old(cache.Values))
    {
      ghost var t1 := View();
      var pair;
      pair, ack := AnswerBeside(theirs, picked);
      if acked.None? { return None, ack; }
      SettleInSteps(t, mine, theirs, acked.value, t1, View(), picked.View(), ack, pair.View());
      HeedAck(picked, mine, acked.value, pair);
      r := Some(HandshakeResult(picked, pair, mine, acked.value, theirs, ack));
    }

    /** One end of the handshake, given all the bytes that the remote sends. */
    method ExchangePairId(incoming: bytes, first: Id, newId: Id) returns (r: Option<HandshakeResult>, sent: bytes)
      requires Valid() && Healthy() && newId != 0
      modifies this, cache.Values
      ensures Valid() && Healthy()
      ensures r.Some? <==> |incoming| >= 2 * PAIR_ID_SIZE
      ensures r.Some? ==>
                && EndOf(r.value) == Settle(old(View()), r.value.s2qId, AsId(incoming[..PAIR_ID_SIZE]),
                                            AsId(incoming[PAIR_ID_SIZE..2 * PAIR_ID_SIZE]))
                && sent == ToBe(r.value.s2qId, PAIR_ID_SIZE) + ToBe(r.value.q2sAck, PAIR_ID_SIZE)
      ensures r.Some? ==> if old(cache) == map[] then r.value.s2qId == newId else r.value.s2qId in old(cache)
      ensures r.Some? && first in old(cache) ==> r.value.s2qId == first
      ensures r.Some? ==> TakenOut(r.value) && cache.Values <= old(cache.Values)
      ensures r.Some? ==>
                && (fresh(r.value.s2qPair) || r.value.s2qPair in old(cache.Values))
                && (fresh(r.value.q2sPair) || r.value.q2sPair in old(cache.Values))
    {
      var s2qId, s2qPair := PickPair(first, newId);
      sent := ToBe(s2qId, PAIR_ID_SIZE);
      if |incoming| < PAIR_ID_SIZE { return None, sent; }
      var theirs := AsId(incoming[..PAIR_ID_SIZE]);
      var acked := if |incoming| < 2 * PAIR_ID_SIZE then None
                   else Some(AsId(incoming[PAIR_ID_SIZE..2 * PAIR_ID_SIZE]));
      var ack;
      r, ack := AnswerAndHeed(s2qId, s2qPair, theirs, acked, old(View()));
      sent := sent + ToBe(ack, PAIR_ID_SIZE);
    }

    /** A pair at rest that is not in the table. */
    ghost predicate Exclusive(pair: CodecPair)
      reads this, pair
    {
      pair !in cache.Values && pair.Settled() && !pair.errored
    }
  }
}
