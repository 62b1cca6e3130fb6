# The stream core of rstun, in Dafny

rstun carries TCP streams and UDP datagrams over one QUIC connection. This project models
the parts of it whose correctness is spread over several functions, tasks or peers, and
proves what they promise for every input, every interleaving and every run of events.

**The compressed data path.** A codec pair is a long-lived zstd encoder and decoder. For
every stream each peer takes a pair out of its table, sends its id, looks up the other
peer's id and acknowledges it with that id or with zero; then data runs through the pairs,
and each is put back or spoiled depending on how its direction ended.

- `Zstd` says what is asked of zstd. An encoder is the log of calls since it was reset, a
  decoder is the bytes it was fed, and `Lawful` states the prefix-decoding laws.
  `DeltaCodec` is a small codec that satisfies all of them.
- `CodecPairs` and `CodecLoops` are the pair object and the encoder and decoder loops, with
  the plain and the HTTP mode as a method each. `CodecPump` runs an encoder loop, a wire cut
  into arbitrary reads, and a decoder loop.
- `HttpReader` is the incremental HTTP reader; `HttpSplit` compares whole sessions of it
  with a splitter that sees the stream at once; `HttpLimits` and `HttpEarlyEnds` have the
  exact conditions.
- `Handshake` and `HandshakeRuns` are the id exchange, byte by byte at both ends and in every
  interleaving. `CodecTable` is the table and one end of the exchange as code over objects.
- `ReuseProtocol` is the protocol over time: two tables, any number of streams, entries lost
  at either side at any time, every way a direction can end. `ReuseLimits` holds runs that
  show why the conditions of its theorems are there.
- `StreamLegs`, `PeerStreams` and `PeerRuns` connect the two: the code of two peers, objects,
  loops and tables, run through any sequence of streams and evictions is always in the state
  of a run of the protocol. So the theorems about runs are theorems about the code, about
  the pairs in its tables and about the bytes that reach the local streams. What can go wrong
  is part of the input: how local streams and wires end, where sinks break, and which calls
  the encoder refuses. So where nothing does, everything arrives
  (`PeerRuns.UndisturbedStreamsDeliver`).
- `TableConcurrency` lets any number of streams work on one table at once, one cache access
  at a time. `OverlappingStreams` lets them overlap at both peers, with the contents of their
  pairs; `PairPlaces` follows the pair objects, `OrderlyStreams` has what holds when no pair
  is used twice at a time, and `OverlapLimits` why that is needed. `RandId` is the generator
  of ids.

**The plain data path.** `StartFlowing` is the pair of copying tasks with their half-close
signals. `TunnelTargets` is the target header of a stream, `Framing` the length-prefixed
datagrams and messages.

**UDP.** `UdpServing` is the loop that routes packets to streams with their writer and
reader tasks; `PortAllocator` the allocator of synthetic local addresses; `ReplyRouter` the
streams that allocate, end and receive replies through the shared map at the same time.

**Control.** `Heartbeat` is login and heartbeats on the control stream; `TcpServe` the loop
that hands accepted TCP streams to a connection, over any number of reconnects.

## What turned out false

These are properties that the code does not have in general. Each comes with a run or an
input that shows it, and with the condition under which the property holds.

- *A lookup that hits always finds matching histories.* A pair that one peer lost and then
  received over again is in step in that direction but not in the other
  (`ReuseLimits.StaleHitMisdelivers`). `ReuseProtocol.HitInStepIffSynced` gives the status
  that decides it. After any run in which every encoder loop that ended in a local error had
  flushed before, as all do in HTTP mode (`StreamLegs.HttpCallsAreFlushed`), a direction that
  misses or hits a synced status delivers exactly its input (`SafeStreamsAreExact`). If
  moreover every earlier stream did so, and every decoder loop that ended in a local error
  had got all that was sent, the direction in which a pair was last used, by either side, is
  always such a direction (`LastUseAgrees`, `LastUseDelivers`); a direction used otherwise
  stays out of step (`CleanUseInStepIffSafe`).
- *Streams that end cleanly without losses keep both tables in step.* One after another they
  do (`ReuseProtocol.CleanRunsMirror`). At the same time they do not: a receiver that checks
  its pair in late displaces the one of a later stream
  (`OverlapLimits.LateCheckInMisdelivers`). In every interleaving the stamps of two pairs
  decide whether they are in step (`OverlappingStreams.StampsAreRight`), and a miss is safe
  (`MissIsSafe`); as long as no pick takes a pair that another stream still uses at either
  peer, clean streams deliver exactly their input (`OrderlyStreams.OrderlyRunsDeliver`).
- *A local read error leaves a pair safe to reuse*, as the comment on `StreamOutcome` says.
  What the encoder had not flushed comes out of the next stream over the pair
  (`ReuseLimits.LeftoversMisdeliver`); a clean stream over matching histories delivers
  exactly its own input if and only if nothing was held back
  (`CodecPump.IdentityIffNothingHeld`). Nothing is, whatever the codec, if and only if no
  byte was written since the last flush (`ReuseLimits.SafeToReuseIffFlushed`). In HTTP mode
  that always holds; in basic mode the calls before an error end in a flush exactly if the
  last thing before it was a tick, or there was nothing (`StreamLegs.BasicCallsAreFlushed`).
- *Picks do not collide.* When both ends pick the same id both lookups miss and that stream
  is safe, but if at both ends the sending task checks its pair in last, the slots are left
  with halves of different streams (`ReuseLimits.SamePickMisdelivers`). They are in step
  exactly if the new wire of one happens to be what the other was fed before
  (`ReuseProtocol.TwoSendersInStepIff`).
- *The HTTP reader does not depend on how reads fall, and frames what the headers say.* It
  depends on the reads for a header that ends more than one and at most 8192 bytes past the
  size limit (`HttpLimits.LateHeaderIsAmbiguous`), and it hands out part of a header, or
  nothing, where header and body together do not fit a `usize`. It agrees with the splitter
  for every cutting of a stream into reads if and only if the splitter meets no header block
  of either kind (`HttpLimits.AgreeIffUnambiguous`).
- *A clean end in HTTP mode means that everything was sent.* A header block that announces a
  message of exactly 2^64 bytes wraps to an empty message and ends the session with the rest
  unread (`HttpSplit.ZeroSumEndsEarly`). A clean end means a complete session, for every
  cutting of a stream into reads, if and only if no reader can be led to such a block
  (`HttpEarlyEnds.CompleteIffCannotEndEarly`); `HttpSplit.NoZeroSum` is a simpler condition
  that suffices.
- *The port allocator fails only when no port is free.* One call overlooks one port; two
  failures in a row mean that none is free (`PortAllocator.OverlooksOne`, `TwoFailures`).
- *A connection loss does not lose a request.* The task that serves a connection is dropped
  at the point where it waits when the connection closes first (`src/client.rs:1044-1056`);
  a request it holds then is gone. `TcpServe.LostIffDropped` says exactly when, from the
  requests and the attempts, and `TcpServe.DropLosesTheFront` which one. A request
  whose target cannot be encoded stays in front of all others while no loop is dropped
  (`TcpServe.UnsendableBlocks`).

Where code and documentation disagree the model follows the code: `checkout` documents id
zero for a new pair and returns a new nonzero id; `read_message` documents an answer
`NeedMore` that it never gives and an error for a malformed Content-Length, which it treats
as absent; `rand_id` documents that it can return zero and cannot.

## Model

| member | source | states |
|---|---|---|
| `DeltaCodec.DeltaIsLawful` | src/codec/lru.rs:72-130 | the laws asked of the encoder and decoder of a pair are consistent: a codec whose output depends on its whole history satisfies every one |
| `Zstd.FlushedHoldsNothing` | src/codec/mod.rs:501-524 | after a flush the wire decodes to everything written, so nothing is held back in the encoder |
| `Zstd.HeldBackIsUnflushed` | src/codec/mod.rs:501-524 | whatever the codec, what is held back was written since the last flush |
| `CodecPairs.CodecPair.constructor` | src/codec/lru.rs:49-60 | a new pair is lawful, empty on both sides and not errored |
| `CodecPairs.CodecPair.MarkErrored` | src/codec/lru.rs:68-70 | sets the flag and touches nothing else |
| `CodecPairs.CodecPair.ResetEncoder` | src/codec/lru.rs:82-86 | forgets the encoder's log and buffer, leaves the decoder alone and keeps the pair at rest |
| `CodecPairs.CodecPair.ResetDecoder` | src/codec/lru.rs:89-93 | the same for the decoder |
| `CodecPairs.CodecPair.Compress` | src/codec/mod.rs:472-498 | the produced bytes are exactly what the call adds to the wire of everything written since the reset |
| `CodecPairs.CodecPair.FlushOut` | src/codec/mod.rs:501-524 | the same for a flush |
| `CodecPairs.CodecPair.Decompress` | src/codec/mod.rs:572-579 | succeeds exactly if the bytes continue what was fed before, and then produces exactly the plain bytes that become decodable |
| `CodecPairs.CodecPair.DrainDecoder` | src/codec/mod.rs:557-562 | hands out all that is decodable and was not handed out before |
| `CodecLoops.Forward` | src/codec/mod.rs:480-497 | writes and counts what the encoder produced; it fails exactly if the writer breaks, and then leaves a prefix |
| `CodecLoops.WriteCompressed` | src/codec/mod.rs:472-498 | the log grows by one write and its wire bytes are written and counted; it fails exactly if the encoder refuses or the writer breaks, with a prefix written |
| `CodecLoops.FlushEncoder` | src/codec/mod.rs:501-524 | the same for a flush |
| `CodecLoops.RunEncoder` | src/codec/mod.rs:440-467 | for every sequence of reads and timer ticks: outcome, log, wire bytes and both counters; a codec error exactly if the encoder refuses a call or the writer breaks, with a prefix of the wire written |
| `CodecLoops.FirstBadTurnDecides` | src/codec/mod.rs:440-467 | without that the first read that times out or fails decides: a timeout, a local error, or a clean end if there is none |
| `CodecLoops.OpsWriteInput` | src/codec/mod.rs:440-467 | the encoder calls of the loop write exactly the bytes read, in order, and a clean end is flushed |
| `CodecLoops.RunHttpEncoder` | src/codec/mod.rs:417-439 | the HTTP loop performs exactly the calls of the reader's session, with its counters; a reader that fails, timeouts included, is a local error, and a codec error comes as in the plain loop |
| `CodecLoops.SessionOpsWriteMessages` | src/codec/mod.rs:417-439 | those calls write the messages in order, and a clean end is flushed |
| `CodecLoops.SessionOpsAreFlushed` | src/codec/mod.rs:417-439 | however a session ends, in an error too, its calls leave nothing unflushed |
| `CodecLoops.RunDecoder` | src/codec/mod.rs:532-594 | for every cutting of the wire: the decoder has been fed all that arrived, and its plain bytes were written and counted; a codec error exactly if it does not decode, the writer breaks or cannot be closed, and then no more was written than some decodable front of the wire decodes to, and where all of it decodes a prefix of that |
| `CodecLoops.FirstBadReadDecides` | src/codec/mod.rs:549-594 | without that the first read that times out or fails decides as in the encoder loop |
| `CodecLoops.EmittedAppend` | src/codec/mod.rs:572-585 | what a decoder hands out does not depend on how its input is cut |
| `CodecPump.FlushedCallsDeliver` | src/codec/mod.rs:393-594 | over matching histories calls that end in a flush deliver what was held back before followed by all that was written, and hold nothing back |
| `CodecPump.CutWireDeliversPrefix` | src/codec/mod.rs:393-594 | any cut of their wire decodes, to a prefix of that |
| `CodecPump.IdentityIffNothingHeld` | src/codec/mod.rs:369-384 | a clean stream over matching histories is the identity if and only if the encoder held nothing back from the stream before |
| `CodecPump.ChopArrives` | src/codec/mod.rs:549-572 | a wire cut into reads of any sizes arrives whole |
| `CodecPump.EveryCutting` | src/codec/mod.rs:549-572 | and every way of cutting it into reads is one of these |
| `CodecPump.PumpPlain` | src/codec/mod.rs:440-594 | encoder loop, cut wire, decoder loop over matching histories: at a clean end the output is what the encoder held back before followed by the input, nothing is held back, the histories match again and the counters are the bytes moved; at any other kept end the output is a prefix; and both ends are clean if nothing goes wrong |
| `CodecPump.PumpSession` | src/codec/mod.rs:417-594 | the same in HTTP mode, counters and prefixes included, for the messages that the reader framed |
| `CodecPump.PumpHttp` | src/codec/mod.rs:417-594 | so in HTTP mode a clean end at both ends means that every byte of the local stream was delivered, unless the reader came to a header block that announces a message of no bytes |
| `HttpReader.HeaderEndIsFirst` | src/codec/http.rs:226-230 | the position found is right after the first CR LF CR LF, and none is found exactly if there is none |
| `HttpReader.HeaderEndIsStable` | src/codec/http.rs:226-230 | more bytes never move a header end that was found |
| `HttpReader.HeaderLimits` | src/codec/http.rs:122-131 | without a blank line more than 65536 bytes are refused and fewer read on, and a length is added to its header modulo 2 to the 64 |
| `HttpReader.ReadErrorsAreReported` | src/codec/http.rs:58-108 | a call fails with a read error exactly if the last read it used failed, and it used none before that did |
| `HttpReader.HttpMessageReader.TryParse` | src/codec/http.rs:116-222 | answer and new state for every buffer: undecided, refused, one message split off, or drain mode entered |
| `HttpReader.HttpMessageReader.ReadMessage` | src/codec/http.rs:58-108 | the loop over reads computes the step function that the session theorems are about |
| `HttpSplit.ReadLosesNothing` | src/codec/http.rs:58-108 | a call hands out the front of what was unread and keeps the rest; a call that fails loses nothing |
| `HttpSplit.DrainMeansEmpty` | src/codec/http.rs:68-108 | after a call that ends in drain mode the buffer is empty |
| `HttpSplit.SessionLosesNothing` | src/codec/mod.rs:417-439 | the messages of a session followed by what it left unread are the stream |
| `HttpSplit.EmptyMessageMeansEnd` | src/codec/mod.rs:421-425 | an empty message means the end of the stream on a message boundary, unless the header block at hand announces a message of no bytes |
| `HttpSplit.CleanSessionIsComplete` | src/codec/mod.rs:417-439 | a session that ends cleanly has handed out every byte, unless it came to such a block, one message after another |
| `HttpSplit.ZeroSumEndsEarly` | src/codec/http.rs:196-207 | the other half: after any messages, such a block ends the session cleanly with the rest unread, for every cutting into reads |
| `HttpSplit.VerdictAgrees` | src/codec/http.rs:116-222 | a verdict on the buffered bytes is the verdict on the whole stream |
| `HttpSplit.ReadRefinesCut` | src/codec/http.rs:58-222 | one call cuts the stream where the splitter cuts it, for every way the reads fall |
| `HttpSplit.DrainIsIdentity` | src/codec/http.rs:68-85 | in drain mode the rest of the stream is handed out unchanged |
| `HttpSplit.SessionRefinesSplit` | src/codec/http.rs:58-222 | a whole session agrees with the splitter: messages, ending, and the bytes past a message without a length |
| `HttpSplit.StaysBuffered` | src/codec/http.rs:68-108 | a call that answers leaves no more than 65536 and 8192 bytes in the buffer, the size limit and one read |
| `HttpSplit.FirstFrame` | src/codec/http.rs:116-207 | for every cutting into reads the first call hands out exactly what the header block announces, reduced to a `usize` |
| `HttpSplit.EndsEarlyIffZeroSum` | src/codec/mod.rs:417-439 | a session ends early, cleanly and with bytes unread, if the stream meets a block that announces a message of no bytes, and without late headers only then |
| `HttpLimits.LateHeaderIsAmbiguous` | src/codec/http.rs:122-131 | for every stream that comes, after any messages, to a header that ends in the window past the limit, two cuttings of the same bytes end differently |
| `HttpLimits.Prefixed` | src/codec/http.rs:58-222 | whatever some cutting of the rest of a stream leads to, some cutting of the whole leads to after the first message |
| `HttpLimits.AmbiguousDisagrees` | src/codec/http.rs:116-207 | a stream with a late header, or one whose sum wraps to anything, has a cutting on which reader and splitter disagree |
| `HttpLimits.AgreeIffUnambiguous` | src/codec/http.rs:58-222 | reader and splitter agree on a stream for every cutting into reads if and only if no block that the splitter meets ends late or announces more than a `usize` |
| `HttpEarlyEnds.EarlyTape` | src/codec/http.rs:58-207 | for every stream on which some reader can be led, message by message and by what it can hold, to a block that announces a message of no bytes, reads that end the session there |
| `HttpEarlyEnds.EarlyMeansCan` | src/codec/http.rs:58-207 | and every session that ends early comes about like that |
| `HttpEarlyEnds.CompleteIffCannotEndEarly` | src/codec/mod.rs:417-439 | a clean end means a complete session for every cutting of a stream into reads if and only if no reader can be led to such a block |
| `Handshake.IdRoundTrips` | src/codec/handshake.rs:66-94 | an id read back from its sixteen bytes is the id that was sent |
| `HandshakeRuns.ReachableInv` | src/codec/handshake.rs:47-145 | in every state of every interleaving each end has written a prefix of its id and acknowledgement and holds what its phase says |
| `HandshakeRuns.NeverStuck` | src/codec/handshake.rs:66-115 | while an end is not done some end can make a step |
| `HandshakeRuns.ExecutionsAreShort` | src/codec/handshake.rs:47-145 | no interleaving has more than 134 steps |
| `HandshakeRuns.HandshakeOutcome` | src/codec/handshake.rs:47-145 | every interleaving that ends leaves both ends with the same result: what the two tables and the two picks determine |
| `HandshakeRuns.HandshakeAgrees` | src/codec/handshake.rs:96-125 | the acknowledgement received is the one sent and is zero or the id; zero means a fresh encoder facing a fresh decoder; not zero means the receiver took that pair from its table, which it does whenever it can |
| `CodecTable.CodecLru.Scan` | src/codec/lru.rs:218-224 | finds a pair that is not errored exactly if there is one, and the one the walk comes to first if that is healthy |
| `CodecTable.CodecLru.Checkout` | src/codec/lru.rs:216-245 | removes and returns a healthy pair, or makes one under the new id when there is none; the pair is in no slot any more |
| `CodecTable.CodecLru.Lookup` | src/codec/lru.rs:251-274 | empties the slot of the id; a hit exactly for a healthy pair stored there |
| `CodecTable.CodecLru.Remove` | src/codec/lru.rs:164-203 | an entry leaving the cache, evicted or taken, removes that id and changes nothing else |
| `CodecTable.CodecLru.Checkin` | src/codec/lru.rs:278-285 | stores the pair unless the id is zero or the pair errored; the table stays healthy |
| `CodecTable.CodecLru.Retire` | src/codec/mod.rs:303-308 | a clean end or a local error checks the pair in, a timeout or a codec error marks it and stores nothing |
| `CodecTable.CodecLru.PickPair` | src/codec/handshake.rs:55-64 | the context of the picked pair and the table without it |
| `CodecTable.CodecLru.AnswerId` | src/codec/handshake.rs:81-94 | the acknowledgement and the decoder's context as the table decides, and the table without the id |
| `CodecTable.CodecLru.HeedAck` | src/codec/handshake.rs:117-125 | a zero acknowledgement resets the encoder and nothing else |
| `CodecTable.CodecLru.AnswerAndHeed` | src/codec/handshake.rs:66-125 | an end that has picked, told the remote's id and acknowledgement, ends as its table determines; without the acknowledgement it fails with the table still sound |
| `CodecTable.CodecLru.ExchangePairId` | src/codec/handshake.rs:47-145 | given the remote's bytes, one end computes the result that the interleaving theorems speak of, sends the id and the acknowledgement, and ends with two different pairs that are in no slot; it fails exactly if the remote's bytes are too few |
| `ReuseProtocol.LegMovesStatus` | src/codec/mod.rs:393-594 | one direction of a stream moves the sender's wire and the receiver's input on together |
| `ReuseProtocol.UsedPairStatus` | src/codec/handshake.rs:96-125 | the status of both directions of a used pair after a hit and after a miss |
| `ReuseProtocol.TableAfterAt` | src/codec/mod.rs:303-333 | what a table holds after a stream, for every pair of outcomes |
| `ReuseProtocol.StatusIsRight` | src/codec/mod.rs:205-367 | after every run, whatever was lost and however streams ended, a pair whose status is synced has matching histories and one whose status is stale has not |
| `ReuseProtocol.StatusIsDecided` | src/codec/handshake.rs:96-125 | the status of a used pair is undecided only after a hit on an undecided one, or where bytes were lost in a direction that was out of step |
| `ReuseProtocol.ClashIsDecided` | src/codec/handshake.rs:55-94 | and after equal picks only where two senders are left that were both used before and now |
| `ReuseProtocol.HitInStepIffSynced` | src/codec/lru.rs:251-274 | a hit meets matching histories if and only if its status is synced |
| `ReuseProtocol.SafeStreamsDeliver` | src/codec/mod.rs:205-367 | after every run a stream that misses or hits a synced direction decodes, to a prefix of what was held back and written, and to all of it at a clean end |
| `ReuseProtocol.CleanRunsMirror` | src/codec/lru.rs:216-285 | over clean streams without losses both tables hold the same ids with matching, flushed histories both ways |
| `ReuseProtocol.CleanRunsDeliver` | src/codec/mod.rs:205-367 | so the next stream, whatever it picks, delivers exactly its input both ways |
| `ReuseProtocol.ClashPick` | src/codec/handshake.rs:55-94 | the status after equal picks for all orders of check-in: an ordinary miss, two unused encoders, or where both senders check in last, undecided unless the new wire or the old input is empty |
| `ReuseProtocol.TwoSendersInStepIff` | src/codec/mod.rs:303-333 | and then exactly: each direction is in step if and only if the new wire of the one sender is what the other's decoder was fed before |
| `ReuseProtocol.TablesStayFlushed` | src/codec/mod.rs:417-467 | after any run in which every encoder loop that ended in a local error had flushed, losses, equal picks and stale hits included, nothing is held back in any encoder of either table |
| `ReuseProtocol.SafeStreamsAreExact` | src/codec/mod.rs:205-367 | after any such run a stream delivers exactly its input in each direction that misses or hits a synced status |
| `ReuseProtocol.LastUseAgrees` | src/codec/lru.rs:251-285 | with losses, timeouts, codec errors and local errors at any time every pair in both tables matches in the direction of its last use, by whichever side, as long as every earlier stream missed or hit a synced status, its encoder loops had flushed at a local error, and its decoder loops had got everything at one |
| `ReuseProtocol.CleanUseInStepIffSafe` | src/codec/handshake.rs:96-125 | that condition is exact: a direction that ends cleanly matches afterwards if and only if it missed or hit a synced status, whenever the status was settled |
| `ReuseProtocol.LastUseDelivers` | src/codec/mod.rs:205-367 | so after such a run a stream that misses, or hits in the direction of last use, delivers exactly its input |
| `ReuseLimits.StaleHitMisdelivers` | src/codec/handshake.rs:81-94 | a run after which a hit against the last use delivers wrong bytes at a clean end |
| `ReuseLimits.LeftoversMisdeliver` | src/codec/mod.rs:369-384 | a run with one local error after which a synced hit delivers bytes of the stream before |
| `ReuseLimits.SafeToReuseIffFlushed` | src/codec/mod.rs:369-384 | an encoder leaves nothing behind for the next stream, whatever the codec, if and only if nothing was written to it since the last flush |
| `ReuseLimits.SamePickMisdelivers` | src/codec/handshake.rs:55-94 | a run with one common pick after which a hit delivers wrong bytes |
| `StreamLegs.TapeArrives` | src/codec/mod.rs:549-594 | what a decoder loop sees is the wire up to where it breaks off, and the loop ends as the wire does |
| `StreamLegs.Send` | src/codec/mod.rs:393-469 | the encoder loop of either mode: the calls added to the log, their wire bytes or a prefix of them, and a flush at a clean end |
| `StreamLegs.OnlyTimeoutsTimeOut` | src/codec/mod.rs:417-467 | an encoder loop that nothing stops ends in a timeout exactly if a read of the basic mode times out before any fails; the HTTP mode never does |
| `StreamLegs.RunLeg` | src/codec/mod.rs:393-594 | an encoder loop and a decoder loop, over whatever histories they have, are the leg of the protocol that their local stream, wire and sinks determine, with its effect on both contexts, and the bytes written to the local stream are exactly what reached the decoder decodes to |
| `StreamLegs.CallsWrite` | src/codec/mod.rs:393-469 | the encoder calls of either mode write what was read or framed, and a clean end is flushed |
| `StreamLegs.HttpCallsAreFlushed` | src/codec/mod.rs:417-439 | in HTTP mode the calls of every loop, however it ends, leave nothing unflushed |
| `StreamLegs.BasicCallsAreFlushed` | src/codec/mod.rs:440-467 | in basic mode the calls before an error end in a flush if and only if the last turn before it was a tick of the flush timer, or there was none |
| `StreamLegs.CleanWritesAll` | src/codec/mod.rs:417-439 | in HTTP mode a clean end means that what was written is the whole local stream, unless a block announces a message of no bytes |
| `StreamLegs.ExactDelivers` | src/codec/mod.rs:393-594 | a leg that is exact in the protocol has written the other side's input at a clean end and a prefix of it otherwise, codec errors included |
| `PeerStreams.Exchange` | src/codec/handshake.rs:47-145 | one end leaves its table sound and its two pairs at rest outside it, touching only objects of its own |
| `PeerStreams.Meet` | src/codec/handshake.rs:47-145 | whatever the two peers pick, a handshake in which each receives what the other sends leaves both as the two tables and picks determine, and they still share no object |
| `PeerStreams.Carry` | src/codec/mod.rs:285-335 | the four data tasks of a stream are two legs of the protocol with their outputs, and leave both tables alone |
| `PeerStreams.RetireBoth` | src/codec/mod.rs:303-333 | the two tasks of a peer ending in either order leave the table the protocol says |
| `PeerStreams.StreamIsAnEvent` | src/codec/mod.rs:205-367 | a met handshake, two legs and four check-ins are one legal event of the protocol, with what it delivers |
| `PeerStreams.RunStream` | src/codec/mod.rs:205-367 | one stream carried by the code of both peers takes their tables where one event of the protocol takes its tables, and writes to both local streams what that event delivers |
| `PeerRuns.DoJob` | src/codec/mod.rs:205-367 | a stream or an eviction takes code and protocol from the same state to the same state, with the output of that event |
| `PeerRuns.RunJobs` | src/codec/mod.rs:205-367 | two new peers through any sequence of streams and evictions follow a run of the protocol that does exactly these, with the encoder calls of their local streams and the outputs of its events |
| `PeerRuns.SyncedPairsMatch` | src/codec/lru.rs:251-274 | for a pair in both tables and a direction that the run calls synced, the decoder object has been fed exactly the wire of the encoder object |
| `PeerRuns.StreamDelivers` | src/codec/mod.rs:205-367 | after clean jobs the output of the next stream is what was read at the other side, both ways; after jobs whose encoder loops had flushed at a local error it is so in every safe direction |
| `PeerRuns.PairsAreKept` | src/codec/mod.rs:303-333 | after a stream each end has the pair it sent over under the picked id, with these calls made on it, exactly if encoder and wire did not fail and the local stream did not time out, so after a failed HTTP reader too; and the one it received over exactly if all decoded, its local stream took it and the wire did not time out |
| `PeerRuns.EveryJobWasServed` | src/codec/mod.rs:205-367 | in one run every job has its turn, after the events that do the jobs before it; the stream there delivers like that, and everything if the run was clean so far; a skipped job and an eviction write nothing |
| `PeerRuns.TurnIsUnique` | src/codec/mod.rs:205-367 | the turn of a job is the only one it can have |
| `PeerRuns.CleanRunDeliversAll` | src/codec/mod.rs:205-367 | in a clean run every stream whose new ids are new at its turn wrote exactly the inputs of its two sides |
| `PeerRuns.UndisturbedRunsAreClean` | src/codec/mod.rs:205-367 | streams whose local ends are clean, whose wires are whole and whose sinks hold make a clean run, unless both ends of one pick the same id |
| `PeerRuns.UndisturbedStreamsDeliver` | src/codec/mod.rs:205-367 | so each of them wrote at both sides exactly what was read at the other |
| `PeerRuns.RunPeers` | src/codec/mod.rs:205-367 | all of it together, for every sequence: one run accounts for the tables, the matching pairs and, job by job at its turn, every output |
| `TableConcurrency.OnePlacePerPair` | src/codec/lru.rs:209-285 | in every interleaving of any number of streams a pair object is in at most one slot or one direction of one stream |
| `TableConcurrency.TableStaysHealthy` | src/codec/lru.rs:216-285 | no slot ever holds an errored pair or the id zero, and streams past their checkout hold healthy pairs under nonzero ids |
| `TableConcurrency.ErroredIsNeverHandedOut` | src/codec/lru.rs:62-70 | from the step that marks a pair errored on, no slot and no stream refers to it |
| `TableConcurrency.StreamsGetWhatTheyFind` | src/codec/lru.rs:216-274 | a checkout gets exactly the pair its scan found if that is still there, under that id, and a lookup the one under the remote's id; otherwise a new one, and nothing else moves |
| `TableConcurrency.TasksGiveBack` | src/codec/mod.rs:303-333 | a clean end or a local error puts exactly that pair into the slot of its id; any other end marks it and leaves every slot as it was |
| `TableConcurrency.OnlyTheseAreDropped` | src/codec/lru.rs:164-203 | an eviction empties its slot, a failed handshake drops the picked pair, a scan moves nothing |
| `TableConcurrency.StreamsCanGoOn` | src/codec/handshake.rs:47-145 | no stream is stuck, and every phase can end in each of its ways |
| `OverlappingStreams.StampsAreRight` | src/codec/mod.rs:205-367 | in every interleaving of overlapping streams at both peers, however they end and whatever is lost, a decoder stamped as an encoder was fed exactly its wire, and one with any encoder's stamp is in step with another exactly if the logs behind both stamps have the same wire |
| `OverlappingStreams.SafeIsDelivered` | src/codec/mod.rs:532-594 | so a direction whose ends carry the same stamp decodes to a prefix of what was held back and written, all of it at a clean end, and exactly the input if encoder loops flush before local errors |
| `OverlappingStreams.MissIsSafe` | src/codec/handshake.rs:81-125 | a lookup that misses, also because another stream of either peer has the pair, always leads to such a direction |
| `OverlappingStreams.AlwaysFlushed` | src/codec/mod.rs:393-469 | in every interleaving whose encoder loops flush before local errors nothing is held back in a pair that is or can get back in a table |
| `PairPlaces.EndsDecide` | src/codec/mod.rs:303-333 | in every interleaving of overlapping streams a clean end or a local error puts exactly that pair into the slot of its id, and a timeout or a codec error takes it away and leaves every slot as it was |
| `PairPlaces.DroppedForGood` | src/codec/lru.rs:62-70 | the pair of a loop that timed out or had a codec error, the pairs of a failed handshake, an evicted and a displaced one are in no table and with no end ever after |
| `PairPlaces.OthersStay` | src/codec/lru.rs:209-285 | every other pair is still there after a step, the same object under the same id at one place, and changed only by the loop that has it or, on a miss, by the reset of its encoder |
| `PairPlaces.HandshakesGoOn` | src/codec/handshake.rs:47-145 | an end can always pick, look up, and until its loops begin fail |
| `PairPlaces.LoopsEndAnyHow` | src/codec/mod.rs:393-594 | loops can end in every way that the bytes allow |
| `PairPlaces.PairsCanLeave` | src/codec/mod.rs:303-333 | and their pairs be given up then, and any entry evicted |
| `OrderlyStreams.OrderlyRunsStayTidy` | src/codec/lru.rs:209-285 | while all loops end cleanly and no pick takes a pair in use, no peer has two pairs of one id, and the two ends of every pair carry matching stamps |
| `OrderlyStreams.OrderlyRunsDeliver` | src/codec/mod.rs:205-367 | so every stream of such a run, however many overlap, delivers exactly its input |
| `OrderlyStreams.OrderlyTablesMirror` | src/codec/lru.rs:209-285 | and an id that no stream is using is in both tables or in neither, in step both ways |
| `OverlapLimits.LateCheckInMisdelivers` | src/codec/mod.rs:303-333 | a run of clean streams without losses in which a receiver checks its pair in after that of a later stream, and the next hit delivers wrong bytes |
| `RandId.Generate` | src/codec/lru.rs:299-314 | the id for a seed is the mixed seed, or one where that is zero |
| `RandId.MixIsBijective` | src/codec/lru.rs:309-312 | the mixing has an inverse on 128-bit words |
| `RandId.SeedsShareAnId` | src/codec/lru.rs:309-313 | two seeds share an id exactly if one is zero and the other mixes to one; every id but zero has a seed |
| `RandId.LeftShiftMultiplies` | src/codec/lru.rs:310-312 | as numbers of 128 bits the first and the last step multiply by a power of two modulo 2 to the 128 |
| `RandId.RightShiftDivides` | src/codec/lru.rs:311 | and the middle one divides |
| `RandId.ZeroAndOne` | src/codec/lru.rs:313 | the word that is avoided is zero and the one taken instead is one |
| `TunnelTargets.ReadTargetBody` | src/util/stream_util.rs:292-349 | reads what the parser of the remaining bytes says, leaves the bytes after it, and fails with the same error |
| `TunnelTargets.ReadTunnelTarget` | src/util/stream_util.rs:253-260 | the same for a whole target |
| `TunnelTargets.ReadOptionalTunnelTarget` | src/util/stream_util.rs:266-278 | the same where a zero byte stands for no target |
| `TunnelTargets.EncodeThenParse` | src/util/stream_util.rs:200-349 | encoding succeeds exactly for hosts of 1 to 255 bytes, and both readers return the target, without flow information and scope, and leave the tail |
| `TunnelTargets.ComesBackUnchanged` | src/util/stream_util.rs:205-218 | a target is unchanged by the round trip if and only if it has no IPv6 flow information and no scope |
| `TunnelTargets.NoneRoundTrips` | src/util/stream_util.rs:231-278 | a marked missing target reads back as missing |
| `TunnelTargets.ParseThenEncode` | src/util/stream_util.rs:253-349 | whatever bytes are accepted are the encoding of the target they are read as |
| `TunnelTargets.SelfDelimiting` | src/util/stream_util.rs:200-349 | equal streams that open with targets have the same target and the same rest |
| `TunnelTargets.RefusedExactly` | src/util/stream_util.rs:292-349 | which bytes are refused and with which error: another first byte than 3, 4 and 6, a host of no bytes or that is no text, and what breaks off |
| `TunnelTargets.RefusedOptionally` | src/util/stream_util.rs:266-278 | a zero byte for no target changes nothing else |
| `TunnelTargets.WireFormat` | src/util/stream_util.rs:200-239 | the bytes of each kind of target, with the port high byte first |
| `Framing.SendRaw` | src/tunnel_message.rs:173-177 | appends one frame; it fails exactly if the writer breaks, with a prefix written |
| `Bytes.BigEndian` | src/tunnel_message.rs:154-177 | the first bytes of a length count for more |
| `Framing.ReceiveRaw` | src/tunnel_message.rs:154-167 | puts the datagram at the front of the buffer and leaves the rest of it and of the stream; otherwise fails and leaves the buffer alone |
| `Framing.SendMessage` | src/tunnel_message.rs:126-132 | appends the framed serialised message; it fails exactly if the writer breaks, with a prefix written |
| `Framing.ReceiveMessage` | src/tunnel_message.rs:108-124 | returns what the framed bytes decode to; refuses more than 65536 bytes |
| `Framing.FramesRoundTrip` | src/tunnel_message.rs:154-177 | datagrams come back with their boundaries if and only if each fits the reader's buffer and the prefix |
| `Framing.CutFramesAreAPrefix` | src/tunnel_message.rs:154-167 | a stream that breaks off anywhere yields its first datagrams, whole |
| `Framing.MessageRoundTrip` | src/tunnel_message.rs:108-132 | what is received for a message of any length: the message itself within the limit, which only the receiver checks; nothing beyond it; and what the wrapped length speaks of where the length does not fit its prefix |
| `UdpServing.AlwaysInv` | src/udp/udp_tunnel.rs:93-242 | in every interleaving each stream carries its header and the frames of packets with its key in queue order, each channel holds at most 512 packets besides the one under way, and the map points at streams of the right key |
| `UdpServing.StreamsReadBack` | src/udp/udp_tunnel.rs:93-242 | so the receiver of any stream gets the target of its key and then payloads of packets with that key, whole and in order: at least all that were sent, and all once nothing is unsent |
| `UdpServing.StepsTell` | src/udp/udp_tunnel.rs:93-242 | the steps determine all: a packet goes to the stream opened last for its key unless one of that key has ended since, and a stream gets exactly the packets handed to it while its writer runs and has fewer than 512 waiting, in that order |
| `UdpServing.HandOverQueues` | src/udp/udp_tunnel.rs:129-180 | such a packet goes to the end of the channel, and any other changes no stream |
| `UdpServing.StepsTellTheWire` | src/udp/udp_tunnel.rs:185-242 | the bytes of every stream: header, the frames sent, and of one more as much as was sent when the writer broke |
| `UdpServing.HeadersExist` | src/util/stream_util.rs:219-239 | a stream can be opened for every target but a host of no bytes or of more than 255 |
| `UdpServing.LoopGoesOn` | src/udp/udp_tunnel.rs:93-145 | the serving loop can always go on |
| `UdpServing.WritersGoOn` | src/udp/udp_tunnel.rs:181-242 | so can writers with packets, and writers and readers can end wherever they can |
| `PortAllocator.Channel.Reserve` | src/udp/udp_tunnel.rs:708-732 | takes the first free nonzero port in cyclic order from the counter and maps it; fails exactly if all ports but zero and the one before the counter are taken |
| `PortAllocator.TwoFailures` | src/udp/udp_tunnel.rs:708-732 | two failures in a row happen if and only if every nonzero port is taken |
| `PortAllocator.OverlooksOne` | src/udp/udp_tunnel.rs:714-731 | with only the port before the counter free a call fails and the next one hands that port out |
| `ReplyRouter.KeysAreLiveAddresses` | src/udp/udp_tunnel.rs:488-564 | in every interleaving the keys of the reply map are exactly the addresses of live streams, all different and with nonzero ports |
| `ReplyRouter.RepliesGoToTheirOwner` | src/udp/udp_tunnel.rs:592-614 | a reply is looked up to the live owner of its address, and every reply ever handed to a stream is for the address that stream was given |
| `ReplyRouter.StepsTell` | src/udp/udp_tunnel.rs:488-732 | the steps determine all: a stream that tries a free port, as the shared counter from 10000 on hands them out, has that address until it ends, and gets exactly the replies for it that were looked up in the meantime and handed over |
| `ReplyRouter.GivesUpAtLast` | src/udp/udp_tunnel.rs:714-731 | a stream gives up only after 65535 tries |
| `ReplyRouter.NeverStuck` | src/udp/udp_tunnel.rs:488-614 | no stream and no reply is stuck |
| `StartFlowing.NeverDeadlocks` | src/util/stream_util.rs:37-130 | the two tasks never wait for each other: while one has not ended some step is possible, a running one can go on with its read, write or close, and a waiting one goes on as soon as the other has ended or timed out |
| `StartFlowing.ExecutionsAreFinite` | src/util/stream_util.rs:37-130 | over finite inputs every interleaving ends |
| `StartFlowing.OutputsArePrefixes` | src/util/stream_util.rs:132-189 | each sink has a prefix of its source at all times and all of it at a clean end |
| `StartFlowing.TimeOutWaits` | src/util/stream_util.rs:74-113 | from the moves alone: a task that times out makes no move at all until the other has ended or timed out, and if it is over at last the other had stopped before |
| `StartFlowing.OtherStopsEnd` | src/util/stream_util.rs:74-118 | any other stop ends a task at once, with its sink closed exactly if closing succeeded |
| `StartFlowing.SignalsWhenStopped` | src/util/stream_util.rs:74-118 | a task has signalled exactly if it has stopped |
| `StartFlowing.SinksHoldWhatWasPassedOn` | src/util/stream_util.rs:132-189 | the moves determine what is in the sinks, part of a failed write included |
| `StartFlowing.AnythingCanFail` | src/util/stream_util.rs:132-189 | reads can fail and time out, writes break anywhere, closes fail |
| `Heartbeat.AnswersMatch` | src/heartbeat.rs:24-88 | in every interleaving at most one message is under way, every answer carries the outstanding number, and the branches for wrong and unexpected messages are never taken |
| `Heartbeat.SomeoneCanMove` | src/client.rs:816-843 | while both sides run and the login was not refused one of them has a step |
| `Heartbeat.NumbersCount` | src/heartbeat.rs:26-36 | the k-th heartbeat carries k reduced to 64 bits, and there is none before the login succeeded |
| `Heartbeat.ServerDecides` | src/client.rs:816-843 | after the server has accepted the login it serves and the client goes on to heartbeats; after a refusal neither does, and the client is told |
| `TcpServe.Tunnel.Next` | src/tcp/tcp_tunnel.rs:53-62 | the pending request, else the next one from the receiver; none at a quit message or at the end |
| `TcpServe.Tunnel.ServeOne` | src/tcp/tcp_tunnel.rs:52-88 | one turn of the loop: handed over, left pending, or lost |
| `TcpServe.Tunnel.StartServing` | src/tcp/tcp_tunnel.rs:44-91 | the loop computes the serving function that the lemmas below are about |
| `TcpServe.Tunnel.ServeAll` | src/client.rs:412-503 | the same over one connection after another |
| `TcpServe.ServeConserves` | src/tcp/tcp_tunnel.rs:52-91 | whatever happens on a connection every request is there exactly once and in order of arrival |
| `TcpServe.LostIffDropped` | src/client.rs:1044-1056 | a connection loses a request exactly if its loop is dropped after attempts that all went on and handed over fewer requests than were in reach, and then it is one and the last |
| `TcpServe.DropLosesTheFront` | src/client.rs:1044-1056 | it is the request in front then, and those before it were handed over in order |
| `TcpServe.ServeComesTo` | src/tcp/tcp_tunnel.rs:44-91 | what a connection comes to, for all requests, messages and attempts, in closed form: how many are handed over, which one is left pending or lost, and what is left to receive |
| `TcpServe.ConnectionHandsOver` | src/tcp/tcp_tunnel.rs:52-91 | a loop that is not dropped hands over in order as many as its attempts allow, and the next in reach is pending |
| `TcpServe.ReconnectHandsOver` | src/client.rs:412-503 | and so do any number of connections |
| `TcpServe.SendableUnlessTheHostIsNot` | src/tcp/tcp_tunnel.rs:64-73 | what cannot be handed over at all is a request for a host of no bytes or of more than 255 |
| `TcpServe.DroppedRequestIsLost` | src/client.rs:1044-1056 | the smallest run that loses one |
| `TcpServe.ReconnectConserves` | src/client.rs:412-503 | over any number of connections every request is there once and in order, and none is lost while no loop is dropped |
| `TcpServe.UnsendableBlocks` | src/tcp/tcp_tunnel.rs:64-73 | a pending request without an encodable target changes nothing and keeps everything behind it waiting, over any number of connections |
| `TcpServe.GoodConnectionServesAll` | src/tcp/tcp_tunnel.rs:52-91 | a connection with enough streams and no failures hands over everything in order |

## Left out

- zstd, httparse, bincode, moka, quinn and UTF-8 themselves: parameters with stated laws, a map that can lose entries at any time, and FIFO streams that can break.
- Dictionary, level and window: both peers use one codec, so a peer with another dictionary is not modelled.
- Clocks and timers: a timeout, a flush tick, an eviction or a dropped task can happen at any step where the code waits for it.
- The seed of `rand_id`: clock and thread hash are a parameter of `RandId.Generate`; `ReuseProtocol` lets a new id be any that neither table knows.
- PeerRuns.UndisturbedStreamsDeliver: asks that the two ends of no stream pick the same id, because after that a hit can deliver wrong bytes (`ReuseLimits.SamePickMisdelivers`).
- CodecLoops.RunEncoder: the 64-bit counters do not wrap, because a stream would have to move 2^64 bytes; a read of no bytes is the end of the stream, as the code takes it.
- HttpReader.HttpMessageReader.TryParse: the sum of header and body length wraps as in a release build; a debug build panics instead.
- ReuseProtocol.StatusIsRight: a direction that loses bytes while already stale is left undecided, because the bytes may or may not match afterwards; so is a pair that both ends picked at once and whose sending tasks both checked in last, unless the new wire or the old input is empty (`ReuseProtocol.TwoSendersInStepIff` is exact there).
- ReuseProtocol.SafeStreamsDeliver: streams follow one another; those that overlap are in `OverlappingStreams`.
- OverlappingStreams.StampsAreRight: a decoder that got part of a wire, or got one while out of step, carries a stamp of its own, and nothing is said about what it matches. The loops of a stream are steps of the model, not the code of `CodecLoops`.
- OrderlyStreams.OrderlyRunsDeliver: evictions, timeouts and errors are not in orderly runs; with them `OverlappingStreams.SafeIsDelivered` still decides by the stamps.
- PeerRuns.RunPeers: handshakes complete; one that fails is, in the protocol, a loss of the picked ids, or a stream whose outcomes at the failed end are not kept. A stream whose new ids are already in use is skipped.
- UdpServing.StreamsReadBack: stated for keys without IPv6 flow information and for payloads of at most 1500 bytes, because others do not come back (see `TunnelTargets.ComesBackUnchanged` and `Framing.FramesRoundTrip`).
- TunnelTargets.ReadTunnelTarget: the timeout of the read is a failed read.
- StartFlowing.NeverDeadlocks: a reading task can time out at any time, and a write that its peer holds up for ever is a step not taken.
- TcpServe.Tunnel.StartServing: a request is handed over once the streaming call is made; the server's own serving loop, which keeps no request over connections, is not modelled.
- Heartbeat.AnswersMatch: message granularity; that framed messages arrive whole and in order is in `Framing`.
- Accepting tunnels, connectors, DNS, TLS, certificates, sockets and their protection, login checks and timeouts: easy members or input and output.
- The event bus, traffic statistics, logging, configuration, the command line and the public API types.
- The upstream side of UDP accepting beyond framing and reply routing, and the compression report.
