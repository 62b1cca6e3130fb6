/** The target header that opens a tunnel stream: its encoding, and the readers that take it
    off a stream. Whether a host is UTF-8 is a parameter, `utf8`. */
module TunnelTargets {
  import opened Bytes
  import opened Streams

  /** A socket address; IPv6 also has flow information and a scope. */
  datatype SocketAddr =
    | V4(ip: bytes, port: u16)
    | V6(ip: bytes, port: u16, flow: nat, scope: nat)

  datatype Target = Addr(addr: SocketAddr) | Domain(host: bytes, port: u16)

  datatype TransferError = InternalError | InvalidIPFamily | InvalidDomain

  /** A target as the type system has it: addresses of the right size, hosts that are text. */
  predicate WellTyped(utf8: bytes -> bool, t: Target) {
    match t
    case Addr(V4(ip, _)) => |ip| == 4
    case Addr(V6(ip, _, _, _)) => |ip| == 16
    case Domain(host, _) => utf8(host)
  }

  /** Encoding fails for a host that is empty or longer than a byte can count, and writes
      nothing for a missing target that is not to be marked. */
  function Encode(t: Option<Target>, markNone: bool): (r: Result<Option<bytes>, ()>) {
    match t
    case Some(Addr(V4(ip, port))) => Ok(Some([4] + ip + ToBe(port, 2)))
    case Some(Addr(V6(ip, port, _, _))) => Ok(Some([6] + ip + ToBe(port, 2)))
    case Some(Domain(host, port)) =>
      if |host| == 0 || |host| > 255 then Err(())
      else Ok(Some([3] + [|host| as byte] + host + ToBe(port, 2)))
    case None => Ok(if markNone then Some([0]) else None)
  }

  predicate Encodable(t: Target) {
    t.Domain? ==> 0 < |t.host| <= 255
  }

  /** A target taken off the front of some bytes, and the bytes after it. */
  datatype Parsed = Parsed(target: Target, rest: bytes)

  function Port(s: bytes): (port: u16)
    requires |s| == 2
  {
    assert Pow256(2) == 0x1_0000 by { assert Pow256(1) == 256; }
    FromBe(s)
  }

  /** What is on the wire after the family byte. */
  function ParseBody(utf8: bytes -> bool, family: byte, s: bytes): (r: Result<Parsed, TransferError>) {
    if family == 4 then
      if |s| < 6 then Err(InternalError)
      else Ok(Parsed(Addr(V4(s[..4], Port(s[4..6]))), s[6..]))
    else if family == 6 then
      if |s| < 18 then Err(InternalError)
      else Ok(Parsed(Addr(V6(s[..16], Port(s[16..18]), 0, 0)), s[18..]))
    else if family == 3 then
      if |s| < 1 then Err(InternalError)
      else if s[0] == 0 then Err(InvalidDomain)
      else
        var n := s[0] as nat;
        if |s| < 1 + n + 2 then Err(InternalError)
        else if !utf8(s[1..1 + n]) then Err(InvalidDomain)
        else Ok(Parsed(Domain(s[1..1 + n], Port(s[1 + n..1 + n + 2])), s[1 + n + 2..]))
    else Err(InvalidIPFamily)
  }

  function Parse(utf8: bytes -> bool, s: bytes): (r: Result<Parsed, TransferError>) {
    if s == [] then Err(InternalError) else ParseBody(utf8, s[0], s[1..])
  }

  /** The same with a zero family byte for no target. */
  function ParseOptional(utf8: bytes -> bool, s: bytes): (r: Result<(Option<Target>, bytes), TransferError>) {
    if s == [] then Err(InternalError)
    else if s[0] == 0 then Ok((None, s[1..]))
    else
      match ParseBody(utf8, s[0], s[1..])
      case Ok(p) => Ok((Some(p.target), p.rest))
      case Err(e) => Err(e)
  }

  method ReadTargetBody(utf8: bytes -> bool, stream: ByteStream, family: byte)
    returns (r: Result<Target, TransferError>)
    modifies stream
    ensures match ParseBody(utf8, family, old(stream.rest))
            case Ok(p) => r == Ok(p.target) && stream.rest == p.rest
            case Err(e) => r == Err(e)
  {
    if family == 4 {
      var buf := stream.ReadExact(6);
      if buf.None? { return Err(InternalError); }
      assert buf.value[..4] == old(stream.rest)[..4] && buf.value[4..6] == old(stream.rest)[4..6];
      return Ok(Addr(V4(buf.value[..4], Port(buf.value[4..6]))));
    } else if family == 6 {
      var buf := stream.ReadExact(18);
      if buf.None? { return Err(InternalError); }
      assert buf.value[..16] == old(stream.rest)[..16] && buf.value[16..18] == old(stream.rest)[16..18];
      return Ok(Addr(V6(buf.value[..16], Port(buf.value[16..18]), 0, 0)));
    } else if family == 3 {
      var len := stream.ReadExact(1);
      if len.None? { return Err(InternalError); }
      var n := len.value[0] as nat;
      if n == 0 { return Err(InvalidDomain); }
      ghost var s := old(stream.rest);
      var buf := stream.ReadExact(n + 2);
      if buf.None? { return Err(InternalError); }
      assert buf.value == s[1..1 + n + 2];
      assert buf.value[..n] == s[1..1 + n];
      assert buf.value[n..n + 2] == s[1 + n..1 + n + 2];
      assert stream.rest == s[1 + n + 2..];
      if !utf8(buf.value[..n]) { return Err(InvalidDomain); }
      return Ok(Domain(buf.value[..n], Port(buf.value[n..n + 2])));
    }
    r := Err(InvalidIPFamily);
  }

  method ReadTunnelTarget(utf8: bytes -> bool, stream: ByteStream) returns (r: Result<Target, TransferError>)
    modifies stream
    ensures match Parse(utf8, old(stream.rest))
            case Ok(p) => r == Ok(p.target) && stream.rest == p.rest
            case Err(e) => r == Err(e)
  {
    var family := stream.ReadExact(1);
    if family.None? { return Err(InternalError); }
    r := ReadTargetBody(utf8, stream, family.value[0]);
  }

  method ReadOptionalTunnelTarget(utf8: bytes -> bool, stream: ByteStream)
    returns (r: Result<Option<Target>, TransferError>)
    modifies stream
    ensures match ParseOptional(utf8, old(stream.rest))
            case Ok(p) => r == Ok(p.0) && stream.rest == p.1
            case Err(e) => r == Err(e)
  {
    var family := stream.ReadExact(1);
    if family.None? { return Err(InternalError); }
    if family.value[0] == 0 { return Ok(None); }
    var t := ReadTargetBody(utf8, stream, family.value[0]);
    r := if t.Ok? then Ok(Some(t.value)) else Err(t.error);
  }

  /** The part of a target that the wire carries. */
  function OnTheWire(t: Target): (t': Target) {
    if t.Addr? && t.addr.V6? then Addr(V6(t.addr.ip, t.addr.port, 0, 0)) else t
  }

  lemma PortRoundTrips(port: u16)
    ensures Port(ToBe(port, 2)) == port
  {
    assert Pow256(2) == 0x1_0000 by { assert Pow256(1) == 256; }
    FromToBe(port, 2);
  }

  lemma PortBytes(s: bytes)
    requires |s| == 2
    ensures ToBe(Port(s), 2) == s
  {
    ToFromBe(s);
  }

  /** Encoding fails exactly for hosts of a length that does not fit; and an encoding followed
      by anything reads back as the target, with exactly that left over. */
  lemma EncodeThenParse(utf8: bytes -> bool, t: Target, markNone: bool, tail: bytes)
    requires WellTyped(utf8, t)
    ensures Encode(Some(t), markNone).Ok? <==> Encodable(t)
    ensures Encodable(t) ==>
              var e := Encode(Some(t), markNone);
              && e.value.Some?
              && Parse(utf8, e.value.value + tail) == Ok(Parsed(OnTheWire(t), tail))
              && ParseOptional(utf8, e.value.value + tail) == Ok((Some(OnTheWire(t)), tail))
  {
    match t
    case Addr(V4(ip, port)) =>
      PortRoundTrips(port);
      Slices(ip, ToBe(port, 2), tail);
      assert ([4] + ip + ToBe(port, 2) + tail)[1..] == ip + ToBe(port, 2) + tail;
    case Addr(V6(ip, port, _, _)) =>
      PortRoundTrips(port);
      Slices(ip, ToBe(port, 2), tail);
      assert ([6] + ip + ToBe(port, 2) + tail)[1..] == ip + ToBe(port, 2) + tail;
    case Domain(host, port) =>
      if Encodable(t) { DomainRoundTrips(utf8, host, port, tail); }
  }

  lemma Slices(a: bytes, b: bytes, c: bytes)
    ensures var s := a + b + c;
            s[..|a|] == a && s[|a|..|a| + |b|] == b && s[|a| + |b|..] == c
  {
  }

  lemma DomainRoundTrips(utf8: bytes -> bool, host: bytes, port: u16, tail: bytes)
    requires utf8(host) && 0 < |host| <= 255
    ensures var s := [3] + [|host| as byte] + host + ToBe(port, 2) + tail;
            s[0] == 3 && ParseBody(utf8, 3, s[1..]) == Ok(Parsed(Domain(host, port), tail))
  {
    PortRoundTrips(port);
    var s, n := [3] + [|host| as byte] + host + ToBe(port, 2) + tail, |host|;
    var body := [n as byte] + host + ToBe(port, 2);
    assert s[1..] == body + tail;
    Slices([n as byte], host, ToBe(port, 2) + tail);
    Slices([n as byte] + host, ToBe(port, 2), tail);
    assert body + tail == [n as byte] + host + (ToBe(port, 2) + tail);
    assert (body + tail)[0] == n as byte;
  }

  /** So a target comes back as it was exactly when it carries no IPv6 flow information and
      no scope. */
  lemma ComesBackUnchanged(utf8: bytes -> bool, t: Target, tail: bytes)
    requires WellTyped(utf8, t) && Encodable(t)
    ensures Parse(utf8, Encode(Some(t), true).value.value + tail) == Ok(Parsed(t, tail)) <==>
            !(t.Addr? && t.addr.V6? && (t.addr.flow != 0 || t.addr.scope != 0))
  {
    EncodeThenParse(utf8, t, true, tail);
  }

  /** A missing target that is marked reads back as missing. */
  lemma NoneRoundTrips(utf8: bytes -> bool, tail: bytes)
    ensures Encode(None, true) == Ok(Some([0])) && Encode(None, false) == Ok(None)
    ensures ParseOptional(utf8, [0] + tail) == Ok((None, tail))
    ensures Parse(utf8, [0] + tail) == Err(InvalidIPFamily)
  {
    assert ([0] + tail)[1..] == tail;
  }

  lemma Rejoin(family: byte, b: bytes, i: nat, j: nat)
    requires i <= j <= |b|
    ensures [family] + b == [family] + b[..i] + b[i..j] + b[j..]
  {
  }

  lemma RejoinDomain(b: bytes, n: nat)
    requires 1 + n + 2 <= |b|
    ensures [3] + b == [3] + [b[0]] + b[1..1 + n] + b[1 + n..1 + n + 2] + b[1 + n + 2..]
  {
    Rejoin(3, b, 1 + n, 1 + n + 2);
    assert b[..1 + n] == [b[0]] + b[1..1 + n];
    assert [3] + b[..1 + n] == [3] + [b[0]] + b[1..1 + n];
  }

  /** The bytes of an accepted target are its encoding, family by family. */
  ghost predicate ReadsAsEncoded(utf8: bytes -> bool, family: byte, b: bytes) {
    ParseBody(utf8, family, b).Ok? ==>
      var p := ParseBody(utf8, family, b).value;
      && WellTyped(utf8, p.target) && Encodable(p.target)
      && [family] + b == Encode(Some(p.target), true).value.value + p.rest
  }

  lemma AddressThenEncode(utf8: bytes -> bool, family: byte, b: bytes)
    requires family == 4 || family == 6
    ensures ReadsAsEncoded(utf8, family, b)
  {
    var n := if family == 4 then 4 else 16;
    if |b| >= n + 2 {
      PortBytes(b[n..n + 2]);
      Rejoin(family, b, n, n + 2);
    }
  }

  lemma DomainThenEncode(utf8: bytes -> bool, b: bytes)
    ensures ReadsAsEncoded(utf8, 3, b)
  {
    if ParseBody(utf8, 3, b).Ok? {
      var n := b[0] as nat;
      PortBytes(b[1 + n..1 + n + 2]);
      RejoinDomain(b, n);
    }
  }

  lemma BodyThenEncode(utf8: bytes -> bool, family: byte, b: bytes)
    requires ParseBody(utf8, family, b).Ok?
    ensures ReadsAsEncoded(utf8, family, b)
  {
    if family == 3 { DomainThenEncode(utf8, b); } else { AddressThenEncode(utf8, family, b); }
  }

  /** The encoding is canonical: whatever bytes are accepted are the encoding of the target
      they are read as. */
  lemma ParseThenEncode(utf8: bytes -> bool, s: bytes)
    requires Parse(utf8, s).Ok?
    ensures var p := Parse(utf8, s).value;
            && WellTyped(utf8, p.target) && Encodable(p.target)
            && s == Encode(Some(p.target), true).value.value + p.rest
  {
    assert s == [s[0]] + s[1..];
    BodyThenEncode(utf8, s[0], s[1..]);
  }

  /** No encoding is the start of another: two streams that open with targets and have the
      same bytes have the same target and the same rest. */
  lemma SelfDelimiting(utf8: bytes -> bool, t: Target, u: Target, x: bytes, y: bytes)
    requires WellTyped(utf8, t) && WellTyped(utf8, u) && Encodable(t) && Encodable(u)
    requires Encode(Some(t), true).value.value + x == Encode(Some(u), true).value.value + y
    ensures OnTheWire(t) == OnTheWire(u) && x == y
  {
    EncodeThenParse(utf8, t, true, x);
    EncodeThenParse(utf8, u, true, y);
  }

  /** What is not accepted, and why: a first byte that is none of 3, 4 and 6; a host of no bytes
      or one that is not text; and anything that breaks off before it is complete. */
  lemma RefusedExactly(utf8: bytes -> bool, s: bytes)
    ensures var r := Parse(utf8, s);
            && (r == Err(InvalidIPFamily) <==> s != [] && s[0] != 3 && s[0] != 4 && s[0] != 6)
            && (r == Err(InvalidDomain) <==>
                  && |s| >= 2 && s[0] == 3
                  && (s[1] == 0 || (|s| >= 4 + s[1] as int && !utf8(s[2..2 + s[1] as int]))))
            && (r == Err(InternalError) <==>
                  || s == [] || (s[0] == 4 && |s| < 7) || (s[0] == 6 && |s| < 19)
                  || (s[0] == 3 && (|s| == 1 || (s[1] != 0 && |s| < 4 + s[1] as int))))
  {
    if |s| >= 2 && s[0] == 3 && |s| >= 4 + s[1] as int {
      var n := s[1] as int;
      assert s[1..][1..1 + n] == s[2..2 + n];
    }
  }

  /** With a zero byte for no target the same is refused otherwise. */
  lemma RefusedOptionally(utf8: bytes -> bool, s: bytes)
    ensures var r := ParseOptional(utf8, s);
            if s != [] && s[0] == 0 then r == Ok((None, s[1..]))
            else match Parse(utf8, s)
                 case Ok(p) => r == Ok((Some(p.target), p.rest))
                 case Err(e) => r == Err(e)
  {
  }

  /** The bytes of a target: family, address or counted host, and the port in two bytes with the
      high one first. */
  lemma WireFormat(utf8: bytes -> bool, ip: bytes, host: bytes, high: byte, low: byte, tail: bytes)
    requires utf8(host) && 0 < |host| <= 255
    ensures var port: u16 := 256 * high as int + low as int;
            && (|ip| == 4 ==> Parse(utf8, [4] + ip + [high, low] + tail) == Ok(Parsed(Addr(V4(ip, port)), tail)))
            && (|ip| == 16 ==> Parse(utf8, [6] + ip + [high, low] + tail) == Ok(Parsed(Addr(V6(ip, port, 0, 0)), tail)))
            && Parse(utf8, [3, |host| as byte] + host + [high, low] + tail) == Ok(Parsed(Domain(host, port), tail))
  {
    var two := [high, low];
    assert two[..1] == [high] && [high][..0] == [];
    assert FromBe([high]) == 256 * FromBe([]) + high as nat;
    assert Port(two) == 256 * high as int + low as int;
    Slices(ip, two, tail);
    assert ([4] + ip + two + tail)[1..] == ip + two + tail && ([6] + ip + two + tail)[1..] == ip + two + tail;
    var counted, s := [3, |host| as byte], [3, |host| as byte] + host + two + tail;
    assert s[1..] == [|host| as byte] + host + two + tail;
    Slices([|host| as byte], host, two + tail);
    Slices([|host| as byte] + host, two, tail);
    assert [|host| as byte] + host + (two + tail) == [|host| as byte] + host + two + tail;
  }
}
