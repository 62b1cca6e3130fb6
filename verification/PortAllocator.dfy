/** The allocator of synthetic local addresses for UDP channels: a wrapping 16-bit counter
    over the map of addresses in use. */
module PortAllocator {
  import opened Bytes

  const PORTS: nat := 0x1_0000

  /** The unspecified address of a family with a port. */
  datatype LocalAddr = LocalAddr(ipv6: bool, port: u16)

  /** The senders that replies to an address go to. */
  type Sender = nat

  type Replies = map<LocalAddr, Sender>

  predicate Free(replies: Replies, ipv6: bool, port: u16) {
    port != 0 && LocalAddr(ipv6, port) !in replies
  }

  function Plus(start: u16, k: nat): (port: u16) {
    (start + k) % PORTS
  }

  /** How many ports after `start` a port comes. */
  function Distance(start: u16, port: u16): (k: nat)
    ensures k < PORTS && Plus(start, k) == port
  {
    if port >= start then port - start else port + PORTS - start
  }

  /** The first free port from `start` on, going round, that is `first`. */
  ghost predicate FirstFree(replies: Replies, ipv6: bool, start: u16, first: u16) {
    && Free(replies, ipv6, first)
    && forall port: u16 :: Free(replies, ipv6, port) ==> Distance(start, first) <= Distance(start, port)
  }

  /** Every port that one call tries is taken: all but zero and the one before the counter. */
  ghost predicate Exhausted(replies: Replies, ipv6: bool, start: u16) {
    forall port: u16 :: port != 0 && port != Plus(start, PORTS - 1) ==> LocalAddr(ipv6, port) in replies
  }

  class Channel {
    var nextLocalPort: u16
    var replies: Replies

    constructor ()
      ensures nextLocalPort == 10000 && replies == map[]
    {
      nextLocalPort, replies := 10000, map[];
    }

    /** Takes the first free port in cyclic order from the counter, and fails exactly when
        every nonzero port but the one before the counter is taken. */
    method Reserve(ipv6: bool, sender: Sender) returns (r: Option<LocalAddr>)
      modifies this
      ensures r.None? <==> Exhausted(old(replies), ipv6, old(nextLocalPort))
      ensures r.None? ==> replies == old(replies) && nextLocalPort == Plus(old(nextLocalPort), PORTS - 1)
      ensures r.Some? ==>
                && r.value.ipv6 == ipv6
                && FirstFree(old(replies), ipv6, old(nextLocalPort), r.value.port)
                && replies == old(replies)[r.value := sender]
                && nextLocalPort == Plus(r.value.port, 1)
    {
      ghost var start := nextLocalPort;
      var i := 0;
      while i < PORTS - 1
        invariant 0 <= i <= PORTS - 1
        invariant nextLocalPort == Plus(start, i)
        invariant replies == old(replies)
        invariant forall port: u16 :: Distance(start, port) < i ==> !Free(replies, ipv6, port)
      {
        var port := nextLocalPort;
        nextLocalPort := (nextLocalPort + 1) % PORTS;
        i := i + 1;
        ghost var k := i - 1;
        assert port == Plus(start, k);
        forall p: u16 | Distance(start, p) == k ensures p == port {
        }
        if port == 0 { continue; }
        var addr := LocalAddr(ipv6, port);
        if addr in replies { continue; }
        replies := replies[addr := sender];
        NotExhausted(old(replies), ipv6, start, port);
        return Some(addr);
      }
      r := None;
      forall port: u16 | port != 0 && port != Plus(start, PORTS - 1) ensures LocalAddr(ipv6, port) in replies {
        assert Distance(start, port) < PORTS - 1;
      }
    }
  }

  lemma NotExhausted(replies: Replies, ipv6: bool, start: u16, port: u16)
    requires Free(replies, ipv6, port) && Distance(start, port) < PORTS - 1
    ensures !Exhausted(replies, ipv6, start)
  {
    assert port != Plus(start, PORTS - 1);
  }

  /** One failure leaves at most the port before the counter, and a second one in a row, with
      no change to the map, leaves none; conversely with every port taken each call fails. */
  lemma TwoFailures(replies: Replies, ipv6: bool, start: u16)
    ensures Exhausted(replies, ipv6, start) && Exhausted(replies, ipv6, Plus(start, PORTS - 1)) <==>
            forall port: u16 :: port != 0 ==> LocalAddr(ipv6, port) in replies
  {
    var second := Plus(start, PORTS - 1);
    assert second != Plus(second, PORTS - 1);
    if Exhausted(replies, ipv6, start) && Exhausted(replies, ipv6, second) {
      forall port: u16 | port != 0 ensures LocalAddr(ipv6, port) in replies {
        if port != second {
          assert LocalAddr(ipv6, port) in replies;
        } else {
          assert port != Plus(second, PORTS - 1);
        }
      }
    }
  }

  /** The one port that a single failure can overlook: with only that one free, the call
      fails and the next call hands it out. */
  lemma OverlooksOne(replies: Replies, ipv6: bool, start: u16)
    requires var last := Plus(start, PORTS - 1);
             Free(replies, ipv6, last) &&
             forall port: u16 :: port != 0 && port != last ==> LocalAddr(ipv6, port) in replies
    ensures Exhausted(replies, ipv6, start)
    ensures FirstFree(replies, ipv6, Plus(start, PORTS - 1), Plus(start, PORTS - 1))
    ensures !Exhausted(replies, ipv6, Plus(start, PORTS - 1))
  {
    var last := Plus(start, PORTS - 1);
    assert Distance(last, last) == 0;
    NotExhausted(replies, ipv6, last, last);
  }
}
