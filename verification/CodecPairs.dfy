/** Codec pairs: a zstd encoder and decoder, each writing into a buffer that the caller
    takes away, and the flag set when a stream over them ended badly. */
module CodecPairs {
  import opened Bytes
  import opened Zstd

  /** The encoder and the `Vec` it writes into. */
  datatype Encoder = Encoder(log: seq<Op>, vec: bytes)

  /** The decoder, how much of its output has reached the `Vec`, and the `Vec`. */
  datatype Decoder = Decoder(fed: bytes, shown: nat, vec: bytes)

  /** The compression context of a pair: all that survives from one stream to the next. */
  datatype Context = Context(log: seq<Op>, fed: bytes)

  const FRESH_CONTEXT: Context := Context([], [])

  class CodecPair {
    const z: Codec
    var encoder: Encoder
    var decoder: Decoder
    var errored: bool

    ghost function View(): (c: Context)
      reads this
    {
      Context(encoder.log, decoder.fed)
    }

    /** Both buffers have been taken and all that could be decoded has been handed out. */
    ghost predicate Settled()
      reads this
    {
      && Lawful(z)
      && encoder.vec == []
      && decoder.vec == []
      && Decodable(z, decoder.fed)
      && decoder.shown == |z.decode(decoder.fed).value|
    }

    constructor (z: Codec)
      requires Lawful(z)
      ensures this.z == z && Settled() && View() == FRESH_CONTEXT && !errored
    {
      this.z := z;
      encoder, decoder, errored := Encoder([], []), Decoder([], 0, []), false;
    }

    method MarkErrored()
      modifies this`errored
      ensures errored
    {
      errored := true;
    }

    method ResetEncoder()
      modifies this`encoder
      ensures encoder == Encoder([], [])
      ensures old(Settled()) ==> Settled()
    {
      encoder := Encoder([], []);
    }

    method ResetDecoder()
      modifies this`decoder
      ensures decoder == Decoder([], 0, [])
      ensures old(Settled()) ==> Settled()
    {
      decoder := Decoder([], 0, []);
    }

    /** `Encoder::write_all` followed by taking the buffer. The encoder may refuse the data. */
    method Compress(data: bytes) returns (ok: bool, produced: bytes)
      requires Settled()
      modifies this`encoder
      ensures Settled()
      ensures ok <==> z.accepts(old(encoder.log), Write(data))
      ensures encoder.log == if ok then old(encoder.log) + [Write(data)] else old(encoder.log)
      ensures produced == Sent(z, old(encoder.log), if ok then [Write(data)] else [])
    {
      ok, produced := Step(Write(data));
    }

    /** `Encoder::flush` followed by taking the buffer. */
    method FlushOut() returns (ok: bool, produced: bytes)
      requires Settled()
      modifies this`encoder
      ensures Settled()
      ensures ok <==> z.accepts(old(encoder.log), Flush)
      ensures encoder.log == if ok then old(encoder.log) + [Flush] else old(encoder.log)
      ensures produced == Sent(z, old(encoder.log), if ok then [Flush] else [])
    {
      ok, produced := Step(Flush);
    }

    method Step(op: Op) returns (ok: bool, produced: bytes)
      requires Settled()
      modifies this`encoder
      ensures Settled()
      ensures ok <==> z.accepts(old(encoder.log), op)
      ensures encoder.log == if ok then old(encoder.log) + [op] else old(encoder.log)
      ensures produced == Sent(z, old(encoder.log), if ok then [op] else [])
    {
      ok := z.accepts(encoder.log, op);
      if ok {
        ghost var sent := Sent(z, encoder.log, [op]);
        var before := z.wire(encoder.log);
        var log := encoder.log + [op];
        encoder := Encoder(log, encoder.vec + z.wire(log)[|before|..]);
      } else {
        assert encoder.log + [] == encoder.log;
      }
      produced := encoder.vec;
      encoder := encoder.(vec := []);
    }

    /** `Decoder::write_all`, `Decoder::flush` and taking the buffer. Data that is not a
        continuation of what was fed before is a zstd error. */
    method Decompress(data: bytes) returns (ok: bool, produced: bytes)
      requires Settled()
      modifies this`decoder
      ensures ok <==> Decodable(z, old(decoder.fed) + data)
      ensures decoder.fed == old(decoder.fed) + data
      ensures ok ==> Settled() && produced == Emitted(z, old(decoder.fed), data)
    {
      decoder := decoder.(fed := decoder.fed + data);
      ok := z.decode(decoder.fed).Some?;
      if ok {
        ghost var emitted := Emitted(z, old(decoder.fed), data);
        produced := DrainDecoder();
      } else {
        produced := [];
      }
    }

    /** `Decoder::flush` and taking the buffer. */
    method DrainDecoder() returns (produced: bytes)
      requires Decodable(z, decoder.fed) && decoder.shown <= |z.decode(decoder.fed).value|
      modifies this`decoder
      ensures decoder == Decoder(old(decoder.fed), |z.decode(old(decoder.fed)).value|, [])
      ensures produced == old(decoder.vec) + z.decode(old(decoder.fed)).value[old(decoder.shown)..]
    {
      var plain := z.decode(decoder.fed).value;
      produced := decoder.vec + plain[decoder.shown..];
      decoder := Decoder(decoder.fed, |plain|, []);
    }
  }
}
