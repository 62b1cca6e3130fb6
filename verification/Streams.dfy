/** Byte streams as readers and writers see them. */
module Streams {
  import opened Bytes

  /** Whether `n` bytes more can be written where so many have been and a limit breaks writes. */
  predicate Room(limit: Option<nat>, used: nat, n: nat) {
    n == 0 || limit.None? || used + n <= limit.value
  }

  /** The sinks of one direction: when the wire and the local stream break, and whether the local
      stream can be closed. */
  datatype Sinks = Sinks(wire: Option<nat>, local: Option<nat>, closes: bool)

  /** A byte sink. It may break after a number of bytes, so that a write that fails passes on
      part of its data, and it may not let itself be closed. */
  class Sink {
    const limit: Option<nat>
    const closes: bool
    var written: bytes

    constructor (limit: Option<nat>, closes: bool)
      ensures written == [] && this.limit == limit && this.closes == closes
    {
      this.limit, this.closes := limit, closes;
      written := [];
    }

    method WriteAll(data: bytes) returns (ok: bool)
      modifies this
      ensures ok <==> Room(limit, |old(written)|, |data|)
      ensures ok ==> written == old(written) + data
      ensures old(written) <= written <= old(written) + data
      ensures !ok ==> |written| == if |old(written)| > limit.value then |old(written)| else limit.value
    {
      ok := Room(limit, |written|, |data|);
      var n := if ok then |data| else if |written| > limit.value then 0 else limit.value - |written|;
      written := written + data[..n];
    }
  }

  /** A stream being read. A read of exactly `n` bytes fails when fewer are left. */
  class ByteStream {
    var rest: bytes

    constructor (all: bytes)
      ensures rest == all
    {
      rest := all;
    }

    method ReadExact(n: nat) returns (r: Option<bytes>)
      modifies this
      ensures n <= |old(rest)| ==> r == Some(old(rest)[..n]) && rest == old(rest)[n..]
      ensures n > |old(rest)| ==> r == None && rest == []
    {
      if n <= |rest| {
        r := Some(rest[..n]);
        rest := rest[n..];
      } else {
        r := None;
        rest := [];
      }
    }
  }
}
