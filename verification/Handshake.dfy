/** The pair-id handshake: both ends pick a pair and send its id, look up the id they
    receive, acknowledge it with the id itself or with zero, and reset on a zero. */
module Handshake {
  import opened Bytes
  import opened CodecPairs

  const PAIR_ID_SIZE: nat := 16

  type Id = n: nat | n < 0x1_0000_0000_0000_0000_0000_0000_0000_0000

  /** A table as far as the handshake can tell: the context stored under each id. */
  type Table = map<Id, Context>

  /** What an end is left with when its handshake is done. */
  datatype Settled = Settled(s2qId: Id, s2qAck: Id, s2q: Context, q2sId: Id, q2sAck: Id, q2s: Context, table: Table)

  /** The context of the pair an end picks: its own under a known id, fresh under a new one. */
  function Picked(t: Table, id: Id): (c: Context) {
    if id in t then t[id] else FRESH_CONTEXT
  }

  /** The acknowledgement for `theirs` by an end that picked `mine` from `t`. */
  function Ack(t: Table, mine: Id, theirs: Id): (ack: Id)
    ensures ack == 0 || ack == theirs
  {
    if theirs != 0 && theirs in t - {mine} then theirs else 0
  }

  /** One end: it picked `mine` from `t`, received the id `theirs` and the acknowledgement
      `acked`. */
  function Settle(t: Table, mine: Id, theirs: Id, acked: Id): (s: Settled) {
    var ack := Ack(t, mine, theirs);
    var s2q := if acked == 0 && mine != 0 then Picked(t, mine).(log := []) else Picked(t, mine);
    var q2s := if ack != 0 then t[theirs] else FRESH_CONTEXT;
    Settled(mine, acked, s2q, theirs, ack, q2s, t - {mine} - {theirs})
  }

  /** The id that sixteen received bytes stand for. */
  function AsId(s: bytes): (id: Id)
    requires |s| == PAIR_ID_SIZE
  {
    assert Pow256(16) == 0x1_0000_0000_0000_0000_0000_0000_0000_0000 by { PowOf16(); }
    FromBe(s)
  }

  lemma PowOf16()
    ensures Pow256(16) == 0x1_0000_0000_0000_0000_0000_0000_0000_0000
  {
    assert Pow256(4) == 0x1_0000_0000;
    assert Pow256(8) == 0x1_0000_0000_0000_0000;
    assert Pow256(12) == 0x1_0000_0000_0000_0000_0000_0000;
  }

  lemma IdRoundTrips(id: Id)
    ensures AsId(ToBe(id, PAIR_ID_SIZE)) == id
  {
    PowOf16();
    FromToBeWhole(id, PAIR_ID_SIZE);
  }
}
