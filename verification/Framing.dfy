/** Length-prefixed framing: datagrams behind two bytes of length, tunnel messages behind
    four. The writer puts the length in as many bytes as there are and does not look whether
    it fits; the reader refuses what its buffer cannot hold. */
module Framing {
  import opened Bytes
  import opened Streams

  /** The buffer for a datagram. */
  const UDP_PACKET_SIZE: nat := 1500

  const MAX_TUNNEL_MESSAGE_SIZE: nat := 65536

  function Frame(width: nat, payload: bytes): (w: bytes) {
    ToBe(|payload|, width) + payload
  }

  function Frames(width: nat, payloads: seq<bytes>): (w: bytes) {
    if payloads == [] then [] else Frame(width, payloads[0]) + Frames(width, payloads[1..])
  }

  datatype Taken = Whole(payload: bytes, rest: bytes) | TooLarge | Short

  /** One frame taken off the front of a stream by a reader with room for `cap` bytes. */
  function Take(width: nat, cap: nat, s: bytes): (t: Taken)
    ensures t.Whole? ==> |t.payload| <= cap && |t.rest| + width <= |s|
  {
    if |s| < width then Short
    else
      var n := FromBe(s[..width]);
      if n > cap then TooLarge
      else if |s| < width + n then Short
      else Whole(s[width..width + n], s[width + n..])
  }

  /** The payloads that a reader gets before its first failure, and what it then has not
      taken. */
  datatype Reading = Reading(payloads: seq<bytes>, left: bytes)

  function ReadAll(width: nat, cap: nat, s: bytes): (r: Reading)
    requires width > 0
    decreases |s|
  {
    var t := Take(width, cap, s);
    if t.Whole? then
      var r := ReadAll(width, cap, t.rest);
      r.(payloads := [t.payload] + r.payloads)
    else Reading([], s)
  }

  // ------------------------------------------------------------ datagrams

  method SendRaw(writer: Sink, data: bytes) returns (ok: bool)
    modifies writer
    ensures ok <==> Room(writer.limit, |old(writer.written)|, |Frame(2, data)|)
    ensures ok ==> writer.written == old(writer.written) + Frame(2, data)
    ensures old(writer.written) <= writer.written <= old(writer.written) + Frame(2, data)
  {
    ok := writer.WriteAll(ToBe(|data|, 2));
    if ok { ok := writer.WriteAll(data); }
  }

  /** Reads one datagram into the front of the caller's buffer. */
  method ReceiveRaw(stream: ByteStream, data: array<byte>) returns (r: Option<nat>)
    modifies stream, data
    ensures match Take(2, data.Length, old(stream.rest))
            case Whole(payload, rest) =>
              && r == Some(|payload|)
              && data[..|payload|] == payload && data[|payload|..] == old(data[..])[|payload|..]
              && stream.rest == rest
            case _ => r == None && data[..] == old(data[..])
  {
    var header := stream.ReadExact(2);
    if header.None? { return None; }
    var n := FromBe(header.value);
    if n > data.Length { return None; }
    ghost var s := old(stream.rest);
    var payload := stream.ReadExact(n);
    if payload.None? { return None; }
    assert payload.value == s[2..2 + n] && stream.rest == s[2 + n..];
    forall i | 0 <= i < n {
      data[i] := payload.value[i];
    }
    r := Some(n);
  }

  // ------------------------------------------------------------ tunnel messages

  /** Serialisation, as far as framing depends on it: reading back what was written. */
  ghost predicate Serialises<M(!new)>(encode: M -> bytes, decode: bytes -> Option<M>) {
    forall m: M :: decode(encode(m)) == Some(m)
  }

  method SendMessage<M>(encode: M -> bytes, writer: Sink, msg: M) returns (ok: bool)
    modifies writer
    ensures ok <==> Room(writer.limit, |old(writer.written)|, |Frame(4, encode(msg))|)
    ensures ok ==> writer.written == old(writer.written) + Frame(4, encode(msg))
    ensures old(writer.written) <= writer.written <= old(writer.written) + Frame(4, encode(msg))
  {
    var body := encode(msg);
    ok := writer.WriteAll(ToBe(|body|, 4));
    if ok { ok := writer.WriteAll(body); }
  }

  /** The message at the front of a stream: one of up to the largest size, if what follows the
      length decodes. */
  function Received<M>(decode: bytes -> Option<M>, s: bytes): (r: Option<M>) {
    match Take(4, MAX_TUNNEL_MESSAGE_SIZE, s)
    case Whole(payload, _) => decode(payload)
    case _ => None
  }

  method ReceiveMessage<M>(decode: bytes -> Option<M>, stream: ByteStream) returns (r: Option<M>)
    modifies stream
    ensures r == Received(decode, old(stream.rest))
    ensures var t := Take(4, MAX_TUNNEL_MESSAGE_SIZE, old(stream.rest)); t.Whole? ==> stream.rest == t.rest
  {
    var header := stream.ReadExact(4);
    if header.None? { return None; }
    var n := FromBe(header.value);
    if n > MAX_TUNNEL_MESSAGE_SIZE { return None; }
    ghost var s := old(stream.rest);
    var body := stream.ReadExact(n);
    if body.None? { return None; }
    assert body.value == s[4..4 + n] && stream.rest == s[4 + n..];
    r := decode(body.value);
  }

  // ------------------------------------------------------------ the frames of a stream

  /** The reader has room for the payload and its length fits the prefix. */
  predicate Fits(width: nat, cap: nat, payload: bytes) {
    |payload| <= cap && |payload| < Pow256(width)
  }

  predicate AllFit(width: nat, cap: nat, payloads: seq<bytes>) {
    forall i :: 0 <= i < |payloads| ==> Fits(width, cap, payloads[i])
  }

  /** A frame that fits comes off whole. */
  lemma TakeFrame(width: nat, cap: nat, payload: bytes, tail: bytes)
    requires Fits(width, cap, payload)
    ensures Take(width, cap, Frame(width, payload) + tail) == Whole(payload, tail)
  {
    var s := Frame(width, payload) + tail;
    FromToBeWhole(|payload|, width);
    assert s[..width] == ToBe(|payload|, width);
    assert s[width..width + |payload|] == payload;
    assert s[width + |payload|..] == tail;
  }

  /** One that does not fit never does: it is refused, or cut to what its prefix can say. */
  lemma TakeLargeFrame(width: nat, cap: nat, payload: bytes, tail: bytes)
    requires !Fits(width, cap, payload)
    ensures var t := Take(width, cap, Frame(width, payload) + tail);
            t.Whole? ==> t.payload != payload
  {
    var s := Frame(width, payload) + tail;
    assert s[..width] == ToBe(|payload|, width);
    assert FromBe(s[..width]) < Pow256(width);
  }

  /** The payloads come back with their boundaries, and nothing is left over, exactly when
      each of them fits the reader's buffer and the width of the prefix. */
  lemma {:induction false} FramesRoundTrip(width: nat, cap: nat, payloads: seq<bytes>)
    requires width > 0
    ensures ReadAll(width, cap, Frames(width, payloads)) == Reading(payloads, []) <==> AllFit(width, cap, payloads)
  {
    if payloads != [] {
      var p, rest := payloads[0], payloads[1..];
      FramesRoundTrip(width, cap, rest);
      assert payloads == [p] + rest;
      if Fits(width, cap, p) {
        TakeFrame(width, cap, p, Frames(width, rest));
        assert AllFit(width, cap, payloads) <==> AllFit(width, cap, rest);
      } else {
        TakeLargeFrame(width, cap, p, Frames(width, rest));
      }
    }
  }

  /** A stream that breaks off anywhere still yields its first payloads, whole. */
  lemma {:induction false} CutFramesAreAPrefix(width: nat, cap: nat, payloads: seq<bytes>, cut: bytes)
    requires width > 0 && AllFit(width, cap, payloads)
    requires cut <= Frames(width, payloads)
    ensures ReadAll(width, cap, cut).payloads <= payloads
  {
    if payloads != [] {
      var p, rest := payloads[0], payloads[1..];
      var frame := Frame(width, p);
      if |frame| <= |cut| {
        assert cut == frame + cut[|frame|..];
        TakeFrame(width, cap, p, cut[|frame|..]);
        CutFramesAreAPrefix(width, cap, rest, cut[|frame|..]);
      } else {
        TakeCutFrame(width, cap, p, cut);
      }
    }
  }

  lemma TakeCutFrame(width: nat, cap: nat, payload: bytes, cut: bytes)
    requires Fits(width, cap, payload)
    requires cut <= Frame(width, payload) && |cut| < |Frame(width, payload)|
    ensures Take(width, cap, cut) == Short
  {
    if |cut| >= width {
      FromToBeWhole(|payload|, width);
      assert cut[..width] == ToBe(|payload|, width);
    }
  }

  /** What the receiver of a message gets, for a message of any length. One within the limit,
      which only the receiver checks, arrives as it was sent and leaves what follows it; a
      longer one is refused; and where the length does not fit its four bytes, the receiver
      goes by the bytes that the prefix still speaks of. */
  lemma MessageRoundTrip<M(!new)>(encode: M -> bytes, decode: bytes -> Option<M>, msg: M, tail: bytes)
    requires Serialises(encode, decode)
    ensures var body, s := encode(msg), Frame(4, encode(msg)) + tail;
            && (|body| <= 65536 ==>
                  Received(decode, s) == Some(msg) && Take(4, MAX_TUNNEL_MESSAGE_SIZE, s) == Whole(body, tail))
            && (65536 < |body| < 0x1_0000_0000 ==> Received(decode, s) == None)
            && (|body| >= 0x1_0000_0000 ==>
                  var n := |body| % 0x1_0000_0000;
                  Received(decode, s) == if n <= 65536 then decode(body[..n]) else None)
  {
    var body := encode(msg);
    var s := Frame(4, body) + tail;
    assert Pow256(4) == 0x1_0000_0000 by { assert Pow256(2) == 0x1_0000; }
    FromToBe(|body|, 4);
    assert s[..4] == ToBe(|body|, 4);
    if |body| <= MAX_TUNNEL_MESSAGE_SIZE {
      TakeFrame(4, MAX_TUNNEL_MESSAGE_SIZE, body, tail);
    } else if |body| >= 0x1_0000_0000 {
      var n := |body| % 0x1_0000_0000;
      assert s[4..4 + n] == body[..n];
    }
  }
}
