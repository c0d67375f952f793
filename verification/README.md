# Thubo, verified

Thubo moves messages over one byte stream with strict priorities, batching and fragmentation. This project models its
transmit and receive pipeline, the lock-free ring buffers under it and the byte layer under those, in Dafny, and proves
what the layers promise, each alone and composed from `push` on one side to `pull` on the other.

Objects and loops of the repository that one thread runs - buffers, readers, codecs, `push`, reassembly, the receive
lanes, `try_pull`, the writing and the reading loop - are classes and methods here, each proved against a function on
values, and the properties are proved about the functions. What several threads do to shared memory - the ring buffers, the
pool of batches with `pull`'s scan, the event - is a transition system with one action per atomic access.
`dafny verify dfyconfig.toml` checks the whole project.

| layer | files |
|---|---|
| bytes | `Base` (integers, concatenation), `Vle` (variable-length integers), `BytesReader` (module `BytesBuf`: chunked buffers, cursor, views, equality), `BoxBuf` (module `BoxBuffer`: bounded writer), `Codec` (headers and messages) |
| ring buffer | `PackedIdx` (64-bit words), `RingLane` (one lane), `RingBuf` (four lanes in shared words), `RingWords` (the same machine on the 64-bit words), `RingCalls` (what each call has done when it returns) |
| transmit | `TxSpec` (push as a function on batches), `TxStage` (push itself), `TxAnswers` (where a push leaves its message), `TxPool` (the travels of the batches), `TxOut` (`try_pull`) |
| receive | `RxSpec` (reassembly, queueing, delivery as functions), `RxPipeline` (the code), `RxAnswers` (what every call answers) |
| composition | `Loss` (reassembly over a lossy link), `LossExact` (exactly when it is sound), `LongRun` (a run for which it is not), `LossyLink` and `LossyOrder` (delivery over a lossy link), `Reassembly` (what batches make on the other side), `EndToEnd` (all of it over a reliable link) |
| edges | `Event` (wake-ups), `Framing` (vectored writes, the read loop) |

## What is proved, in short

- **End to end.** In every state of every run - any pushes at four priorities with waits that time out anywhere, any
  interleaving of the four batch streams, any queueing and pulling, congestion declared at any moment - each priority
  delivers a prefix of what was pushed on it, byte for byte, with the same priority and congestion control: of all messages
  until congestion is first declared, of the Block messages always. A drained priority has delivered everything. Sequence
  numbers may wrap any number of times: a First fragment resynchronises the receiver.
- **Loss.** Whatever part of the sender's batches arrives, what a lane delivers is a subsequence of what was pushed on it,
  every message whole and with its congestion control, provided that fewer than 2^28 batches of each class are committed.
  The bound is there for a reason: a run of 2^28 + 1 pushes exists that, with all but two of its batches lost, makes the
  receiver hand on a message nobody pushed. The exact condition on a stream's numbers is proved, too (see below).
- **Ring buffer.** Every interleaving of four writers and a reader (or the reverse, or one of each), CAS loops with spurious
  failures and stale cached indices included, refines four independent FIFO queues with an optional booked cell; the same
  holds of the machine on packed 64-bit words, whose CAS compares all 64 bits.
- **Calls.** What a call answers is fixed by the state before it and what the other threads do meanwhile: a pull removes
  the head, once, or the queue was empty when it looked; a push leaves its message in the booked frame or has committed it,
  and fails only where a batch or a notification is refused it; a batch is queued at once exactly when its lane has room; a
  `try_pull` of the sender discards exactly the batches that must not be sent, one of the receiver loses a lane at most its
  first batch to congestion, and each clears exactly the flags of the priorities it looked at.
- **Pool.** A batch is always in exactly one place, booking never fails, a returning batch never finds its ring full, and
  both rings hand batches on in the order in which they got them.
- **Limits are exact.** 19 bytes is the smallest batch size at which the first fragment's header always fits; a fragmented
  message is handed on if and only if it fits `frag_max_size`.

## When a loss can splice messages

`Intact(out, cap)`: whatever part of the stream `out` is lost, a reassembly buffer completes nothing but the consecutive
fragments of one message, from its First to its Last. `Harmless(out)`, on the numbers of the stream alone: no fragment
j and later fragment k of a class share sequence number and fragment id while k + 1 continues k and its message reaches its
Last; and no continuation numbered (0, 0), the numbers a fresh buffer waits for, belongs to a message that reaches its Last.
For a stream whose fragments follow their predecessors, as every sender's do, `LossExact.HarmlessIsExact` proves: its numbers
are harmless if and only if it is intact under every `frag_max_size` that first fragments keep within. Under one that all
of the stream's payloads together would keep within, the two are equivalent as they stand
(`LossExact.IntactIsHarmless`). That two fragments share both numbers is not enough for harm, and that none do is not
enough for safety. Fewer than 2^28 batches of each class are enough for any `frag_max_size`
(`Loss.SoundUnderLoss`), and imply `Harmless` (`LossExact.FewIsHarmless`).

## Facts of the code the model keeps

- `Bytes` equality is equality of the bytes only without empty chunks: with them it also compares how many empty chunks
  follow the last byte (`src/buffers/bytes.rs:383-419`). `Equal` states the exact condition.
- `read_u8` fails at the end of a chunk although bytes remain (`src/buffers/bytes.rs:543-553`); `ReadU8` states when.
  `read_chunk` refuses even zero bytes at the very end; `read_exact` refuses an empty target.
- `DefragBuffer::clear` keeps the expected numbers (`src/pipeline/rx.rs:416-418`).
- After a write that fails inside a batch `write_task` goes on to drain (`src/api/sender.rs:680-699`). The receiver then
  fills the batch that was cut with the first bytes of what is drained: `Framing.CutBatchIsFilled`.
- Below 19 bytes a batch can be left holding part of a first fragment's header (`src/pipeline/tx.rs:425-430`):
  `TxStage.StartFirst`.
- A message appended to a frame inherits the frame's express bit, and only that (`src/pipeline/tx.rs:344-350`).
- `then_some` evaluates its argument first, so `allocated` grows on every failed attempt (`src/pipeline/tx.rs:643`).
- The documentation of `QoS` gives the priority three bits (`src/protocol/core/qos.rs:50`); the code uses two
  (`src/protocol/core/priority.rs:106`). The model follows the code.

## Assumptions

- Atomic accesses are sequentially consistent, `usize` has 64 bits, a message is shorter than 2^64 bytes.
- `try_pull` of the receiver is atomic against `push`: it peeks one lane and removes with a rescan from the highest
  (`src/pipeline/rx.rs:169`, `:175`, `:199`), so a higher push landing in between would be the one removed.
- The rings of `TxPool`, `TxOut`, `RxSpec` and `EndToEnd` are the queues `RingBuf` refines to.
- Time, waits, congestion flags raised by timeouts, and the answers of sockets are parameters or nondeterministic actions.

## Model

| member | source | states |
|---|---|---|
| Vle.EncodeInto | src/codec/core/vle.rs:101-129 | the write closure fills exactly the `vle_len(x)` bytes of its slot with the encoding and touches nothing else |
| Vle.EncodeLength | src/codec/core/vle.rs:9-38 | every u64 is encoded in `vle_len(x)` bytes, at most nine |
| Vle.ContinuationBits | src/codec/core/vle.rs:103-112 | a byte has its top bit set exactly when another follows, except the ninth, which carries eight bits |
| Vle.RoundTrip | src/codec/core/vle.rs:94-157 | decoding an encoding followed by anything gives the number and stops right after it, for every u64 |
| Codec.ReadVle | src/codec/core/vle.rs:143-156 | what the read loop reads is what the flat decoder reads, over any chunking and from any cursor, and it moves past exactly those bytes; without empty chunks it fails only where the flat decoder does |
| BoxBuffer.BoxBuf.Write | src/buffers/boxbuf.rs:89-94 | appends what fits and fails exactly when that is nothing |
| BoxBuffer.BoxBuf.WriteExact | src/buffers/boxbuf.rs:96-101 | appends all or nothing |
| BoxBuffer.BoxBuf.WriteVle | src/buffers/boxbuf.rs:107-120 | the reserved slot gets the whole encoding or nothing changes |
| BoxBuffer.BoxBuf.Rewind | src/buffers/boxbuf.rs:129-136 | sets the length to the mark; back to the contents at the mark |
| BytesBuf.BytesReader.Read | src/buffers/bytes.rs:501-532 | copies the bytes at the absolute position, as many as fit, from every reachable cursor |
| BytesBuf.BytesReader.ReadExact | src/buffers/bytes.rs:534-541 | succeeds exactly on a non-empty target that the data can fill, with those bytes |
| BytesBuf.BytesReader.ReadU8 | src/buffers/bytes.rs:543-553 | returns the next byte exactly from cursors inside a chunk |
| BytesBuf.BytesReader.Remaining | src/buffers/bytes.rs:555-559 | the number of bytes after the absolute position |
| BytesBuf.BytesReader.Skip | src/buffers/bytes.rs:664-678 | moves forward, failing exactly when the target is past the end |
| BytesBuf.BytesReader.Backtrack | src/buffers/bytes.rs:680-695 | moves back, failing exactly when the target is before the start |
| BytesBuf.BytesReader.Seek | src/buffers/bytes.rs:698-718 | reaches the absolute target of a seek exactly when it lies within the data |
| BytesBuf.BytesReader.SeekMark | src/buffers/bytes.rs:477-489 | returns to a mark unless it lies past the last chunk or past its chunk |
| BytesBuf.BytesReader.NextSlice | src/buffers/bytes.rs:726-765 | the next contiguous piece of the wanted bytes |
| BytesBuf.BytesReader.ReadChunks | src/buffers/bytes.rs:561-575 | all the wanted bytes in chunks, or no movement |
| BytesBuf.BytesReader.ReadChunk | src/buffers/bytes.rs:577-597 | the wanted bytes in one chunk, when it succeeds and where it leaves the cursor |
| BytesBuf.BytesReader.ReadChunkContiguous | src/buffers/bytes.rs:599-619 | succeeds exactly when the current chunk holds the bytes, else no movement |
| BytesBuf.View | src/buffers/bytes.rs:299-319 | a view of a..b flattens to bytes a..b for every chunking, and exists exactly when b is within the data |
| BytesBuf.Equal | src/buffers/bytes.rs:383-419 | the two-cursor loop terminates and decides: same bytes and as many trailing empty chunks |
| BytesBuf.EqualityIsFlat | src/buffers/bytes.rs:383-419 | without empty chunks that is equality of the bytes |
| BytesBuf.EmptyChunkBreaksEquality | src/buffers/bytes.rs:383-419 | with them it is not: a pair of buffers with the same bytes that compares different |
| BytesBuf.LenIsFlat | src/buffers/bytes.rs:151-153 | the fold over the chunks is the number of bytes |
| Codec.HeaderRoundTrip | src/codec/mod.rs:140-165 | every message header decodes to itself, whatever follows it |
| Codec.BodyRoundTrip | src/codec/mod.rs:94-132 | frame and fragment headers decode to themselves |
| Codec.HeaderLayout | src/protocol/core/qos.rs:60-75 | which bits and bytes of a header carry priority, class, express bit, sequence number, identifier, kind and fragment number |
| Codec.DecodeLayout | src/codec/mod.rs:112-165 | exactly which bytes are a header, and what each of its bits is read as |
| Codec.HeaderSize | src/codec/mod.rs:134-138 | the written length of a header, part by part, and its bounds |
| Codec.MsgRoundTrip | src/codec/core/bytes.rs:14-45 | a length-prefixed message decodes to itself, whatever follows it |
| Codec.ParseEncoded | src/pipeline/rx.rs:188-195 | reading messages until decoding fails gives exactly those appended to the frame |
| Codec.WriteHeader | src/codec/mod.rs:146-150 | writes the header exactly when it fits; otherwise the fields that fit stay; what was written before stays |
| Codec.WriteMsg | src/codec/core/bytes.rs:14-20 | writes length and bytes exactly when they fit; what was written before stays |
| Codec.ReadHeader | src/codec/mod.rs:159-164 | agrees with the flat decoder over any chunking, in value and end position, and without empty chunks in failure |
| Codec.ReadMsg | src/codec/core/bytes.rs:29-45 | the fast path and the chunked path return the bytes and end position of the flat decoder, over any chunking; without empty chunks they fail only where it does |
| PackedIdx.IncrementLane | src/pipeline/ringbuf/common.rs:64-70 | the packed increment wraps lane p's eight bits and leaves every other lane and flag |
| PackedIdx.SetLane | src/pipeline/ringbuf/common.rs:76-78 | setting BOOKED of lane p changes nothing else |
| PackedIdx.UnsetLane | src/pipeline/ringbuf/common.rs:80-82 | clearing BOOKED of lane p changes nothing else |
| PackedIdx.MergeLane | src/pipeline/ringbuf/common.rs:102-114 | the value the CAS installs has lane p of the caller and the other lanes of the word it replaces |
| PackedIdx.SlotOf | src/pipeline/ringbuf/common.rs:190-199 | masking an index is its remainder by the power-of-two capacity |
| RingLane.TestsExact | src/pipeline/ringbuf/common.rs:170-178 | on wrapped eight-bit indices the empty and full tests are exact for a power-of-two capacity up to 128 |
| RingLane.NextKeeps | src/pipeline/ringbuf/common.rs:256-426 | every atomic or slot access of writer and reader keeps the lane's invariant |
| RingLane.SlotExclusivity | src/pipeline/ringbuf/common.rs:189-199 | the writer fills free slots, the reader touches initialised ones, the two differ |
| RingLane.Refines | src/pipeline/ringbuf/common.rs:270-452 | every access is a step, possibly empty, of a FIFO queue with an optional booked cell |
| RingLane.FullIsExact | src/pipeline/ringbuf/common.rs:256-263 | an element is given back exactly when every slot counts as used at the reload |
| RingLane.EmptyIsExact | src/pipeline/ringbuf/common.rs:389-452 | None and Booked are exact for the index snapshot the call loads |
| RingCalls.ReaderCall | src/pipeline/ringbuf/common.rs:389-452 | over any run of a lane: when a pull returns it has removed and published exactly one element, the head, or none, and the queue was empty when it loaded the index; a peek removes nothing |
| RingCalls.PeekHolds | src/pipeline/ringbuf/common.rs:441-452 | while the reader peeks the head stays the head, whatever the writer does, until the peek itself edits it |
| RingCalls.WriterCall | src/pipeline/ringbuf/common.rs:270-341 | when a push returns its element is in the queue, once, or nothing happened and every slot counted as used at the reload; a booking books exactly its element; a commit publishes exactly the booked one |
| RingCalls.DidIsStep | src/pipeline/ringbuf/common.rs:270-452 | what a call is said to have done are the FIFO steps the lane refines to |
| RingCalls.RunCalls | src/pipeline/ringbuf/common.rs:245-452 | the same for the calls of every lane in every run of the whole buffer |
| RingBuf.UnpackMerge | src/pipeline/ringbuf/common.rs:102-114 | the packed merge is the merge of unpacked lanes the machine uses |
| RingBuf.LaneIndependence | src/pipeline/ringbuf/common.rs:102-118 | a step on lane p is one lane action there and changes no other lane, in all three configurations; RingWords carries it to the packed words |
| RingBuf.StepKeeps | src/pipeline/ringbuf/common.rs:245-452 | every step of every handle keeps the invariant of all four lanes |
| RingBuf.RunRefines | src/pipeline/ringbuf/common.rs:245-452 | every step of every run is a step of four independent FIFO queues, moving only its own lane's |
| RingBuf.PulledIsPrefix | src/pipeline/ringbuf/common.rs:399-415 | over any run, what was pulled from a lane is a prefix of what was published on it, and the rest is its queue |
| RingBuf.RunSlotExclusivity | src/pipeline/ringbuf/common.rs:256-326 | slot exclusivity in every reachable state, whatever the stale copies say |
| RingWords.OperationsKeepCanonical | src/pipeline/ringbuf/common.rs:64-114 | no word operation ever sets one of the seven unused bits of a lane |
| RingWords.UnpackInjective | src/pipeline/ringbuf/common.rs:102-114 | on such words, comparing 64 bits is comparing the four lanes |
| RingWords.TestsOnWords | src/pipeline/ringbuf/common.rs:170-199 | full test, empty test and slot on eight wrapped bits are those of the lane machine |
| RingWords.StepUnpacks | src/pipeline/ringbuf/common.rs:94-118 | every step on 64-bit words, CAS comparison included, is the machine's step on their lanes |
| RingWords.WordRunUnpacks | src/pipeline/ringbuf/common.rs:245-452 | every run on words unpacks to a run of the machine |
| RingWords.WordsArePrefix | src/pipeline/ringbuf/common.rs:399-415 | over any run on words, what was pulled from a lane is a prefix of what was published, and the rest is its queue |
| TxSpec.MinimumBatch | src/pipeline/tx.rs:425-430 | the first fragment's header and length always fit if and only if the batch size is at least 19 |
| TxSpec.OversizedLeavesRest | src/pipeline/tx.rs:417-442 | fragmentation starts only with more data than the first fragment takes, and its length prefix fits |
| TxSpec.FragmentShape | src/pipeline/tx.rs:413-490 | First, More, one Last; consecutive numbers, one id; all but the last fill the batch; payloads make length and message |
| TxSpec.PushKeepsInv | src/pipeline/tx.rs:241-492 | every push, failed ones included, leaves a booked frame of whole messages of the priority and well-formed committed batches |
| TxSpec.CommitKeepsInv | src/pipeline/tx.rs:231-239 | a flush by the puller commits a well-formed batch only |
| TxStage.StageInPrio.Push | src/pipeline/tx.rs:241-492 | the imperative push equals the batch-level function for every outcome of waits, notifications and flush requests; no encoding or internal error |
| TxAnswers.PushAnswers | src/pipeline/tx.rs:241-492 | `Ok(true)` exactly when the message is left last in the booked frame, neither express nor under a flush request; `Ok(false)` only when it ends the committed stream; a message that fits the booked frame of its class commits no other batch; a push fails exactly at the first refused batch or notification |
| TxAnswers.PushSucceeds | src/pipeline/tx.rs:241-492 | with enough batches and notifications every message is pushed, oversized ones included |
| TxStage.StageInPrio.TryAppend | src/pipeline/tx.rs:343-356 | a message is appended whole or the visible frame is unchanged after the rewind |
| TxStage.StageInPrio.TryFresh | src/pipeline/tx.rs:386-399 | header and message, or an empty batch again |
| TxStage.StageInPrio.SendFragments | src/pipeline/tx.rs:413-490 | commits exactly a prefix of the message's fragments, as long as batches and the puller allow |
| TxStage.StageInPrio.SendRest | src/pipeline/tx.rs:448-488 | the fragment loop terminates, each turn sending the next fragment of the sequence |
| TxStage.StageInPrio.Flush | src/pipeline/tx.rs:231-239 | commits the booked batch, if any |
| TxStage.StageInPrio.BatchLen | src/pipeline/tx.rs:111-114 | the batch's length without the reserved prefix |
| TxStage.StartFirst | src/pipeline/tx.rs:422-430 | for any batch size: header and length are written exactly when they fit, else a part of them stays in the batch |
| TxPool.BookKeeps | src/pipeline/tx.rs:265-275 | a batch in hand always finds a free slot, so `book` never answers Internal |
| TxPool.RefillKeeps | src/pipeline/tx.rs:662-668 | a returning batch belongs to the lane its qos names and always finds room there |
| TxPool.DrawKeeps | src/pipeline/tx.rs:640-648 | the eager `allocated` still yields min(allocated, capacity) batches |
| TxPool.PoolConserved | src/pipeline/tx.rs:265-310 | after any run each batch is in exactly one of hand, booked cell, in-out ring, writer, refill ring, destroyed; no booking or refill ever failed |
| TxPool.StrictPriority | src/pipeline/tx.rs:685-746 | a scan takes a lane's batch only if no higher lane held or was filling one when it began |
| TxPool.StageGets | src/pipeline/tx.rs:640-648 | the stage reuses the batch that came back first, gets a new one while the capacity lasts, and books the batch it holds |
| TxPool.VisitTakes | src/pipeline/tx.rs:685-700 | from a lane that holds batches the scan takes the oldest and only that, and ends; a lane only being filled ends it with nothing taken; an empty one is passed over |
| TxPool.PoolIsFifo | src/pipeline/tx.rs:640-700 | in every run batches go to the writer in the order committed and are reused in the order returned; each batch taken is with the writer, was brought back, or was destroyed |
| TxOut.PipelineTxOut.TryPullNext | src/pipeline/tx.rs:771-796 | the rescanning loop terminates and equals the function `TryPullIsStrict` is about |
| TxOut.PipelineTxOut.Scan | src/pipeline/tx.rs:773-793 | one pass over the lanes returns, sheds, or stops at a booked lane |
| TxOut.TryPullIsStrict | src/pipeline/tx.rs:771-796 | a result comes from a lane above which nothing is committed or booked, without one nothing is, or a lane being filled holds the rest back; of the batches taken exactly those were shed that are flagged, or droppable and first of a congested priority; exactly the flags of the priorities taken from are cleared; the refill rings grew by exactly the emptied shed batches, in order |
| RxPipeline.DefragBuffer.Extend | src/pipeline/rx.rs:446-475 | accepts exactly the expected fragment within the capacity, and appends its bytes |
| RxPipeline.DefragBuffer.Clear | src/pipeline/rx.rs:416-418 | empties the buffer and keeps the expected numbers |
| RxPipeline.DefragBuffer.Feed | src/pipeline/rx.rs:260-286 | First resynchronises, More clears on error, Last hands the whole on |
| RxPipeline.PipelineRx.Receive | src/pipeline/rx.rs:229-288 | header, view of the payload and reassembly agree with the flat function for every chunking |
| RxPipeline.PipelineRx.Refusal | src/pipeline/rx.rs:308-338 | after a refused attempt: wait, give up, or declare congestion, by class and by how the wait ends |
| RxPipeline.PipelineRx.Enqueue | src/pipeline/rx.rs:290-346 | the retry loop equals its function for every sequence of wake-ups, timeouts and concurrent pulls |
| RxPipeline.PipelineRx.TryPull | src/pipeline/rx.rs:165-206 | the removing loop terminates and equals its function; saved positions resume inside multi-message batches |
| RxSpec.PullDelivers | src/pipeline/rx.rs:165-206 | without congestion a call returns exactly the first message waiting on the highest lane that has one, and takes only that |
| RxSpec.PullKeepsBlocking | src/pipeline/rx.rs:165-206 | under congestion no Block message is skipped, lost or reordered |
| RxSpec.EnqueueConserves | src/pipeline/rx.rs:290-346 | however long a push waits and whatever is pulled meanwhile, Block messages are conserved lane by lane |
| RxSpec.BlockNeverCongested | src/pipeline/rx.rs:309-321 | a Block batch is queued or refused with an error, never dropped for congestion |
| RxAnswers.PullAnswers | src/pipeline/rx.rs:165-206 | under any congestion, lane by lane: what waited is what congestion cost, at most the lane's first batch, if droppable and looked at, then the message returned, then what still waits; the flags of the lanes looked at are clear, the others as they were |
| RxAnswers.EnqueueAnswers | src/pipeline/rx.rs:290-346 | a batch is queued at once, last on its lane, with nothing pulled, exactly when the lane has room |
| RxAnswers.EnqueueEnds | src/pipeline/rx.rs:306-346 | a push tries until an attempt finds room, or a refused attempt ends it, and for no other reason stops |
| RxAnswers.RefusalAnswers | src/pipeline/rx.rs:308-338 | a refused Drop batch ends as congested on a flagged lane; an elapsed wait flags the lane for both classes and ends a Drop batch; a wake-up tries again; nothing else sets a flag |
| RxAnswers.EnqueueBounded | src/pipeline/rx.rs:290-346 | no lane ever holds more than its capacity |
| RxAnswers.FragmentAnswers | src/pipeline/rx.rs:260-286 | exactly which fragment a buffer takes, what it expects and holds afterwards, and which error a refused one gets |
| RxAnswers.ReceiveAnswers | src/pipeline/rx.rs:229-288 | a received batch touches no queue, no flag, and at most the reassembly buffer of its own priority and class |
| Loss.RunSound | src/pipeline/tx.rs:241-492 | every run of pushes and flushes commits a stream whose fragments follow their predecessors, whose numbers count, and whose last fragments complete pushed messages |
| Loss.ShortStreamsAreDistinct | src/protocol/core/seq_num.rs:42-48 | fewer than 2^28 batches of a class never repeat a number, nor the initial one |
| Loss.FragmentSafe | src/pipeline/rx.rs:251-287 | whatever fragment of the stream arrives next, a completed message is the payloads of one message from its first fragment on |
| Loss.ReceiveWire | src/pipeline/rx.rs:229-288 | a committed batch is decoded to what it means |
| Loss.QueuedIsWhole | src/pipeline/rx.rs:251-287 | over any subsequences of four sound streams, interleaved, everything queued parses to whole sent messages |
| Loss.SoundUnderLoss | src/pipeline/rx.rs:446-489 | the same for the streams of any four senders' runs |
| LossyLink.PullSent | src/pipeline/rx.rs:165-206 | a call returns a sent message and leaves sent messages, exhausted, undecodable and congested batches included |
| LossyLink.StepKeeps | src/pipeline/rx.rs:229-347 | every arrival, queueing, discard and pull over a lossy link keeps the reassembly buffers safe and the queued items whole |
| LossyLink.DeliveredWasSent | src/pipeline/rx.rs:251-287 | in every run over a lossy link every delivered message was pushed, whole, at that priority and class |
| LossyOrder.PullSub | src/pipeline/rx.rs:165-206 | a call takes its message out of its lane after some it discards, and disturbs no order |
| LossyOrder.PushMade | src/pipeline/tx.rs:241-492 | a push, failed or not, adds its message at the end of what its priority's batches carry, or nothing |
| LossyOrder.RunOrdered | src/pipeline/rx.rs:229-347 | in every run over a lossy link, delivered, queued and pending messages of a lane are a subsequence of what its stream carries so far |
| LossyOrder.DeliveredInOrder | src/pipeline/rx.rs:165-206 | over a lossy link what a lane delivered is a subsequence of what was pushed on it: nothing twice, nothing out of order |
| LossExact.WatchTruthful | src/pipeline/rx.rs:446-489 | the record of fragments taken is true: the buffer holds exactly their payloads, and hands on exactly those |
| LossExact.HarmlessIsIntact | src/pipeline/rx.rs:251-287 | over harmless numbers no loss makes a buffer complete anything but whole messages, once first fragments fit |
| LossExact.MistakableBreaks | src/pipeline/rx.rs:455-462 | a fragment that can be mistaken for another's successor, in a message that is completed: some loss splices |
| LossExact.OrphanBreaks | src/pipeline/rx.rs:404-412 | a continuation a fresh buffer waits for, in a message that is completed: some loss hands on an incomplete one |
| LossExact.IntactIsHarmless | src/pipeline/rx.rs:446-489 | the exact condition: no loss breaks a stream if and only if its numbers are harmless |
| LossExact.HarmlessIsExact | src/pipeline/rx.rs:446-489 | the condition without a bound of its own: numbers are harmless if and only if the stream is intact under every limit first fragments keep within |
| LossExact.RunIsExact | src/pipeline/tx.rs:241-492 | the same for the stream of any sender's run |
| LossExact.FewIsHarmless | src/protocol/core/seq_num.rs:42-48 | fewer than 2^28 batches of each class are harmless |
| LossExact.FeedIsArrived | src/pipeline/rx.rs:251-287 | the receiver's buffers are the watched ones, lane by lane and class by class |
| LossExact.HarmlessIsSound | src/pipeline/rx.rs:229-288 | for harmless streams of any length, everything the receiver queues is made of whole logged messages |
| LongRun.LongRunState | src/pipeline/tx.rs:413-490 | n pushes of an oversized message: two batches, two sequence numbers and one fragment id each |
| LongRun.LongRunIsHarmful | src/protocol/core/seq_num.rs:42-48 | after 2^28 of them the numbers return: the run's stream is not harmless |
| LongRun.LongRunSplices | src/pipeline/rx.rs:446-489 | two batches of that run, the rest lost: the receiver hands on a message nobody pushed |
| Reassembly.AbsorbFragments | src/pipeline/rx.rs:260-286 | the fragments of a message make exactly that message, whatever the buffers held before |
| Reassembly.AbsorbCut | src/pipeline/rx.rs:260-286 | an aborted message makes nothing |
| Reassembly.FragMaxIsExact | src/pipeline/rx.rs:464-468 | a fragmented message is handed on if and only if it fits `frag_max_size`; otherwise no part of it is |
| Reassembly.ShedDoomed | src/pipeline/tx.rs:692-696 | discarding a fragment of an aborted message changes nothing for the receiver |
| Reassembly.ShedDroppable | src/pipeline/tx.rs:692-696 | discarding a droppable batch costs droppable messages only |
| EndToEnd.PushGrows | src/pipeline/tx.rs:241-492 | a push adds its message, and nothing else, to what the receiver will make, exactly when it reports success; priority and congestion control are kept |
| EndToEnd.StepKeeps | src/pipeline/rx.rs:229-347 | each step on either side keeps: pushed equals delivered, then queued, then in flight |
| EndToEnd.DeliveredIsPrefix | src/pipeline/rx.rs:165-206 | in every run what a priority delivered is a prefix of what was pushed on it |
| EndToEnd.DrainedIsDelivered | src/pipeline/rx.rs:165-206 | a drained priority delivered all that was pushed on it |
| Event.EventInner.Check | src/sync/event.rs:87-96 | takes a pending OK and keeps ERR; Err exactly if ERR was set, Ok exactly if OK was and ERR was not |
| Event.EventInner.Set | src/sync/event.rs:99-105 | leaves an OK pending and keeps ERR; Err exactly if ERR was set |
| Event.EventInner.Perform | src/sync/event.rs:87-145 | performing an action's atomic operation moves the flag, and answers, as the protocol's step does |
| Event.StepKeeps | src/sync/event.rs:127-172 | a sleeper nobody has notified sees every set and drop coming, kept by every step |
| Event.NoLostWakeUp | src/sync/event.rs:127-172 | in every run a parked waiter with no wake step pending was notified or has nothing to see |
| Event.WaiterMoves | src/sync/event.rs:151-172 | a wait ends only by a check that answers or abandoned; a notified sleeper starts over; nobody sleeps without having listened and then checked again |
| Event.WaitAnswers | src/sync/event.rs:151-172 | in every run a wait that ends was abandoned, having consumed nothing, or answers once: Ok, consuming the pending notification, or the error |
| Event.ErrStays | src/sync/event.rs:108-111 | ERR is never cleared and no wait returns Ok after it |
| Event.NewsIsExact | src/sync/event.rs:87-105 | while open, a check succeeds exactly when a notify succeeded since the last successful wait |
| Framing.AdvanceSlices | src/api/sender.rs:718 | drops exactly the written bytes, and slices left empty |
| Framing.WriteAllVectored | src/api/sender.rs:707-722 | for any partial writes the writer holds a prefix of the slices, all of them exactly on success |
| Framing.StampedBytes | src/pipeline/tx.rs:111-120 | the sixteen-bit stamp never truncates: stamp and batch are the batch's framed bytes |
| Framing.StampRoundTrip | src/pipeline/tx.rs:111-120 | the stamp is two bytes, the low one first, and reads back as the number modulo 2^16 |
| Framing.WriteBatches | src/api/sender.rs:615-637 | a coalesced write emits exactly the framed batches, or a proper prefix on failure; a writer that always takes something takes all |
| Framing.WriteLoop | src/api/sender.rs:641-691 | up to the first write that fails, the writer has the units written whole and a proper prefix of the next; it stops early only at a unit whose writer failed or took nothing before all its bytes |
| Framing.WriteTask | src/api/sender.rs:641-702 | what the writer has after the loop and the drain: whole units, and a proper prefix of the next where the writer failed it; if all succeed, the framed stream of all |
| Framing.WrittenIsReceived | src/api/sender.rs:641-702 | that stream deframes to exactly the batches, in order |
| Framing.CutBatchIsFilled | src/api/sender.rs:680-699 | after a write that failed inside a batch, the receiver completes that batch with the first bytes drained |
| Framing.InStepAfterCut | src/api/sender.rs:680-699 | the cut batch arrives as it was if and only if what is drained begins with its missing bytes |
| Framing.FramingRoundTrip | src/api/receiver.rs:603-634 | deframing recovers exactly the batches, with any keep-alives between them |
| Framing.CutStream | src/api/receiver.rs:603-634 | a stream that breaks off yields a prefix of the batches |
| Framing.ReadTask | src/api/receiver.rs:603-654 | the read loop, over any segmentation of the stream, yields what deframing yields |

## Left out

- RingBuf.RunRefines: sequential consistency; the Acquire/Release orderings, pointer provenance and cache padding are not modelled.
- RingLane.NextKeeps: `push` on a lane with a booked element, which no caller does, is disabled; the release of the remaining elements in `RingBuffer::drop` is not modelled (a booked element is not released there).
- RingLane.TestsExact: `wrapping_sub` on u8 is written as subtraction modulo 256.
- TxStage.StageInPrio.Push: one frame buffer stands for the batches handed out by the refill stage in turn, and committed batches are values; drop flags, batch age and backoff are not part of the state.
- TxPool.StrictPriority: of `pull`, the scan; its backoff, and wake-ups skipped while BACKOFF is set, are timing. There is no liveness claim for it.
- TxPool.PoolConserved: the 64-bit overflow of `allocated` is not modelled.
- TxOut.PipelineTxOut.TryPullNext: one call without other threads in between; `TxPool` has the interleavings. DISABLED is not modelled.
- RxPipeline.PipelineRx.Enqueue: the notification of the reader after a successful push is not part of the result.
- RxPipeline.PipelineRx.TryPull: atomic against `push`, see the assumptions.
- Codec.DecodeLayout: the fourth fragment kind, which the code transmutes unchecked (`src/protocol/fragment.rs:75-77`), is refused here.
- Codec.ReadVle: on buffers with empty chunks, or from a cursor at the end of a chunk, when it gives up early is not stated; likewise `Codec.ReadHeader` and `Codec.ReadMsg`.
- RxPipeline.PipelineRx.Receive: batches without empty chunks, which is what the read loop hands it.
- BytesBuf.View: requires a <= b, as the slicing it stands for does.
- BytesBuf.BytesReader.Seek: 64-bit overflow of the offsets is not modelled.
- Loss.SoundUnderLoss: fewer than 2^28 batches of each class per priority; beyond, `LossExact` has the exact condition.
- Loss.QueuedIsWhole: no two fragments of a class share both numbers and no continuation is numbered (0, 0); `LossExact.HarmlessIsSound` needs less, but first fragments within `frag_max_size`.
- LossExact.IntactIsHarmless: under one given `frag_max_size` the equivalence is for limits that the stream's payloads together keep within; under a smaller one some of the losses that would splice are refused for their size. `LossExact.HarmlessIsExact` covers all limits at once. A limit below a first fragment is not part of either: a refused First leaves its own number expected.
- LossyLink.DeliveredWasSent: the bound of 2^28; likewise `LossyOrder.DeliveredInOrder`.
- TxSpec.OversizedLeavesRest: batch sizes from 19 on; likewise `TxSpec.FragmentShape`, `TxSpec.PushKeepsInv` and `TxStage.StageInPrio.Push`. Below, a push that fragments can fail, as `TxStage.StartFirst` states for any size.
- TxSpec.FragmentShape: batch sizes from 19 on.
- TxSpec.PushKeepsInv: batch sizes from 19 on; below, the booked batch a failed push leaves is not a frame.
- EndToEnd.PushGrows: pushes that find the puller gone, and fragmented messages beyond `frag_max_size` (`Reassembly.FragMaxIsExact` has those).
- Reassembly.FragMaxIsExact: messages of at most 2^28 fragments.
- EndToEnd.DeliveredIsPrefix: the puller stays alive, the receiver's wait for room on a Block batch does not expire, and a message that needs fragments fits `frag_max_size`; `push` is one step against the other side.
- Framing.WriteTask: write timeouts are failed writes; cancellation and the closed pipeline are the end of the list of events.
- Framing.ReadTask: read timeouts and cancellation are the end of the stream.
- Clocks, keep-alive timers, `AtomicBackoff`, yield counts; sockets, tokio tasks, cancellation, statistics, builders.
- QoS setters, `AtomicDuration`, `SingleOrVec`, `Boomerang`, `OnDrop`, array and string codecs, the ordering of `SeqNum`: easy, or not used by the pipeline.
- The `siphon` methods and `BytesWriter`: off the path of a message through the pipeline.
- Malformed input beyond what the decoders refuse.
