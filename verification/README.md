# grpc-over-ayame: a model and its proofs

grpc-over-ayame runs gRPC calls over WebRTC data channels. A *signalling* peer talks to an
Ayame server over a WebSocket until the two sides have a peer connection; a *transport* then
gives every gRPC call a *stream* of its own on a data channel. A stream replaces HTTP/2
framing by bare, untyped messages, so all of its correctness rests on order: what is sent in
which order, and who receives the next thing that arrives.

## How the project is laid out

| module | content |
|---|---|
| `UrlParts` | the URL splitter, its printer, and both round trips |
| `Metadata` | metadata through a JSON object and back |
| `PlainLib` | a JSON library that meets what `Metadata` assumes of one |
| `ByteStream` | the loop that sends a message slice by slice |
| `Rendezvous` | the two queues at which frames meet continuations |
| `Ledger` | the accounting of the one-slot deferral `pending_op_` |
| `Batches` | batches, their frames and continuations, and the code their closures still hold |
| `StreamSpec` | one stream as a value: its atomic steps and what each keeps |
| `EndToEnd` | two streams over two FIFO channels |
| `Closures` | the callers' closures in those runs: none lost, doubled or out of order; a flush is such a run |
| `TransportRuns` | one transport: its signalling peer, all its streams, the ready callbacks |
| `Submissions` | every batch handed to a stream is counted, and what becomes of it |
| `Displacement` | when a stream of such a transport loses a batch |
| `WakeUps` | what becomes of a batch that waits, over whole runs |
| `Lifetime` | the reference count of a transport |
| `AyameTransport` | the classes `AyameTransport` and `AyameStream`, proved against the modules above |
| `WriteQueue` | the outgoing WebSocket queue, as a value and as a class over heap buffers |
| `SignalingSpec` | one signalling peer as a value: read loop, messages, offer/answer state, `ready_` |
| `SignalingAccounts` | what a peer read, posted, applied and when it stopped or closed, told from its events |
| `AyameSignaling` | the class `AyameSignaling`, proved against `SignalingSpec` |
| `Negotiation` | two peers and the server, step by step |
| `NegotiationRuns` | safety of the offer/answer exchange in every run, and what overtaking can break |
| `NegotiationEnds` | how such an exchange ends, well or badly |
| `Wrappers` | `Option`, bytes |

The C++ code works by mutation, so the operations are methods that change fields. Each is
proved to take exactly the step that a specification function gives for it, and the theorems
are lemmas about all runs of those functions.

## Assumptions

- A handler is one atomic step. Thread races are outside the model.
- A data channel is reliable and ordered. Its state only moves forward (connecting, open,
  closing, closed), and its observer hears of a change some time later. Batches are run on an
  open channel only; a channel that closes leaves its pending batch where it is.
- A stream outlives its callbacks. An incoming channel is bound to its stream in the step in
  which it arrives.
- `ExecCtx::Run` only enqueues. A context runs its closures in order when it is left, and a
  closure may submit further batches to the same stream. A closure is therefore modelled as the
  finite tree of batches its code submits.
- JSON text is abstract: `Lib` holds `dump` and `parse`, and `parse(dump(j)) == j` is assumed for
  objects whose strings are text (`isText`, valid UTF-8); text cut at a NUL is text. An object
  iterates its members in key order. `PlainLib` shows that a library can be like that.
- A metadata batch refuses a second element under one of the header names gRPC knows (`callouts`).
- `SetRemoteDescription` and `SetLocalDescription` take effect at the call. The results of
  `CreateOffer` and `CreateAnswer`, and the success of a remote offer, arrive later, and only
  while the connection lives. A candidate is refused while there is no remote description.
  Creating a peer connection succeeds.
- The server puts each registering peer into the room, tells it whether another one was
  there, and forwards offers, answers and candidates to the other peer once that one is registered.
- `boost::asio::post` in `SendText` (`src/ayame_signaling.cpp:480`) names no executor, so the
  order in which posted texts reach `DoSendText` is not guaranteed. The model lets the server take
  any text under way (`ServerTakes(i)`), and says which orders are harmless.

## What turned out not to hold unconditionally

- **Texts may overtake.** If a candidate overtakes the description posted before it, the other
  peer refuses it and stops reading for good; the offer behind it is then never answered, and that
  side never gets a channel of its own, whatever follows (`OvertakingRun`, `EarlyIsFinal`,
  `NoChannelUndescribed`). That is all that can go wrong: everything else holds in every run,
  overtaking or not (`NegotiationSafe`). In benign runs that are read to the end something goes
  wrong if and only if a candidate overtook a description (`FaultlessExactly`), and without
  overtaking the peers can always settle (`NegotiationCanSettle`, `NegotiationCompletes`).
- **A second batch displaces one.** The slot holds one batch. A batch submitted while another
  one is pending is lost, or clears the other from the slot if the channel is open by then
  (`DisplacingRun`). A stream loses a batch if and only if that happens, and otherwise
  executes each once and in order (`LosesExactly`, `ExecutesInOrder`).
- **A message in several slices shifts all later frames**, since the receiver has no reassembly
  (`TwoSlicesShift`, `OneFrameEachExactly`). A pull that fails ends the message early, and shifts
  them too if it is the first (`FailedPullShifts`, `AlwaysAlignedExactly`, `MessageExact`), and the batch's completion is scheduled all the same (`RegisterSurplus`).
- **Metadata is cut at NUL bytes** and keeps only the last value of a repeated key
  (`CutAndOverwritten`, `PermutationExact`, `MeaningExact`).
- **After a bye to a ready peer**, asking for a data channel uses a null connection
  (`CreateAfterBye`), in exactly these steps: an outgoing stream is built, or a batch is submitted
  to a stream without a channel (`CanCreateExactly`, `CrashExactly`).
- **A message before the accept** uses a null connection, if it is a parsable offer, answer or
  candidate (`CandidateBeforeAccept`, `NullUseExactly`).
- **URLs:** re-parsing a printed URL can promote an `@` that was no delimiter before
  (`PromotedAt`, `NormalFormIsStable`).

## Model

| member | source | states |
|---|---|---|
| EndToEnd.EndToEndFaithful | src/ayame_transport.h:263-416 | in every reachable state of two streams, in both directions: frames sent = frames delivered ++ receiver's `data_queue_` ++ frames in flight; the k-th continuation got the k-th frame sent; if the kinds line up, each continuation got the sender's exact bytes or, for metadata that is text, a list denoting the sender's metadata; with nothing in flight, no frame and continuation both wait |
| EndToEnd.WholeMessages | src/ayame_transport.h:263-404 | in every reachable state and both directions, whichever side is ahead: with one slice per message, and receive requests that agree with the send operations as far as both reach, however split into batches, the k-th request answered got the payload of the k-th send operation: its metadata list, or all bytes of its message at the announced length; with nothing in flight every request is answered whose payload was sent |
| EndToEnd.ReceiveBufferBalanced | src/ayame_transport.h:191-194 | in every run and on both sides the receive buffer holds the latest message delivered and was initialised once for each; initialisations exceed destructions by one exactly while it holds something, and equal them after the final destruction |
| EndToEnd.StepKeeps | src/ayame_transport.h:150-189 | every step of either stream or channel keeps the invariants of both streams and loses, repeats and reorders no frame under way |
| Closures.ClosuresConserved | src/ayame_transport.h:316-373 | for every closure, told apart by identity, and every run: times run + times scheduled = executed batches with a send operation that it completes + delivered frames it announces; so no completion is lost, doubled or made up; on either side, once nothing is scheduled, it ran exactly that often |
| Closures.ClosuresRunInOrder | src/ayame_transport.h:178-188 | whatever follows, the closures scheduled so far run before any later one, in the order in which they were scheduled |
| Closures.FlushRunsAll | src/ayame_transport.h:174-179 | a flush runs every closure scheduled, first and in order, leaves none, and keeps every closure accounted for |
| Closures.FlushIsRun | src/ayame_transport.h:174-179 | from every state a flush is a run of closure steps that each run one scheduled closure, until none is; so what holds of runs holds of flushes |
| Closures.RegisterLog | src/ayame_transport.h:316-404 | a batch schedules its completion first, if it has a send operation, and then the closures of its continuations that met a frame, in order |
| Closures.ArriveLog | src/ayame_transport.h:178-188 | an arriving frame schedules exactly the closure of the continuation it meets, last, unless that throws |
| Closures.OutcomeExactly | src/ayame_transport.h:327-372 | a continuation throws if and only if the text is malformed or it comes to an element that is no string before one that is refused; it leaves messages whole, and metadata up to the first element refused |
| Closures.RegisterSurplus | src/ayame_transport.h:316-404 | a batch schedules its own completion once if it has a send operation of any kind, and otherwise only ready closures of continuations that met a frame |
| Rendezvous.Confluence | src/ayame_transport.h:178-188 | every interleaving of arrivals and waits ends with the k-th frame paired with the k-th waiter exactly once and the surplus queued in order |
| Rendezvous.InterleavingIsIrrelevant | src/ayame_transport.h:407-416 | two interleavings of the same arrivals and waits end in the same state, and never are `data_queue_` and `func_queue_` both non-empty |
| Submissions.CountsWhatIsHandedIn | src/ayame_transport.h:223-256 | in every run of a transport, the batches a stream counts as submitted are those handed to it by the events and by the closures that ran, in order, up to the pending one being handed in again |
| Submissions.CountsAllDistinct | src/ayame_transport.h:456-461 | if no batch is handed in twice, they are simply all batches handed in |
| Submissions.HandedInIsAccounted | src/ayame_transport.h:223-256 | in every run, a batch handed to a stream has executed, was displaced, or is pending |
| Submissions.PatienceIsServed | src/ayame_transport.h:150-256 | where callers are patient and hand in no batch twice, an open channel whose observer was told has executed all batches handed in, each once and in that order |
| Submissions.BothCount | src/ayame_transport.h:223-256 | the same for both streams of the two-stream system |
| Submissions.FateOfSubmission | src/ayame_transport.h:244-263 | a batch handed in runs at once on an open channel, sending its frames and losing a pending other one; otherwise it waits in the slot, or is lost if another one waits there; a stream without a channel gets one if signalling is ready |
| Submissions.FateOfRetry | src/ayame_transport.h:157-177 | a wake-up runs the pending batch on an open channel and otherwise leaves it; the observer wakes it on an open channel only |
| Submissions.RunsOnlyWhenOpen | src/ayame_transport.h:245-256 | no step sends anything or runs a batch unless the channel is open |
| Displacement.LosesExactly | src/ayame_transport.h:223-256 | in every run of a transport, a stream loses a batch if and only if an outside submission or one made by a closure found another batch pending |
| Displacement.ExecutesInOrder | src/ayame_transport.h:157-256 | if and only if that never happens, the batches executed followed by the one pending are the batches submitted, each once and in order, retries included |
| Displacement.DisplacingRun | src/ayame_transport.h:246-256 | a run in which a batch is lost |
| Ledger.ExecutedAtMostOnce | src/ayame_transport.h:157-177 | with distinct submissions no batch executes twice, and no executed batch is pending or displaced |
| TransportRuns.NoStrandedBatch | src/ayame_transport.h:150-177 | in every run a pending batch has a ready callback still to run, or a channel whose opening or notice is still to come, or a channel that has gone; on an open channel whose observer was told, every batch has run or was displaced |
| TransportRuns.ReadyThenOpenRuns | src/ayame_transport.h:112-177 | from every reachable state, ready, open and notice in a row make the pending batch the next one executed |
| WakeUps.WakeUpsSuffice | src/ayame_transport.h:150-177 | in every run, a batch submitted by the time signalling is ready has executed or was displaced once its channel opened and its observer was told, whatever happens in between and afterwards, unless the channel has gone |
| WakeUps.NoChannelUndescribed | src/ayame_transport.h:157-162 | as long as the peer read no offer and no answer, a stream that waits for signalling has no channel, ran no batch and sent nothing |
| TransportRuns.BatchesAccounted | src/ayame_transport.h:223-256 | in every run of a transport, each stream's batches are accounted for: balance, no double execution, submission order unless displaced |
| TransportRuns.BuildsExactly | src/ayame_transport.h:144-166 | a new stream has the channel it is built on; without one it gets one if signalling is ready, and otherwise registers a callback |
| TransportRuns.CallbacksRunOnce | src/ayame_transport.h:112-123 | every ready callback runs exactly once, in registration order, when signalling becomes ready; later streams register none |
| TransportRuns.FireAllExactly | src/ayame_transport.h:112-117 | becoming ready retries exactly the streams whose callbacks wait, each once |
| TransportRuns.CrashExactly | src/ayame_signaling.cpp:209-216 | from every reachable state, a step asks a null connection for a channel if and only if the peer read a bye after it had become ready and the step builds an outgoing stream or submits a batch to a stream without a channel |
| TransportRuns.CrashNeedsBye | src/ayame_signaling.cpp:419-422 | in every run that does so, the peer was ready and read a bye |
| StreamSpec.PerformInStep | src/ayame_transport.h:263-404 | the channel was given exactly the frames of the executed batches in order, and the queues exactly their continuations |
| StreamSpec.SubmitKeeps | src/ayame_transport.h:223-256 | a submission keeps every invariant of a stream, the wake-up that a pending batch on an open channel needs included |
| StreamSpec.NoticeKeeps | src/ayame_transport.h:168-177 | the observer's notice keeps them, because it runs the pending batch |
| StreamSpec.RunOneLoad | src/ayame_transport.h:316-320 | running a closure strictly reduces the code still to run, whatever it submits |
| StreamSpec.FlushKeeps | src/ayame_transport.h:178-188 | every flush terminates with nothing scheduled and keeps every invariant, closures that submit to the same stream included |
| Batches.OneFrameEachExactly | src/ayame_transport.h:263-314 | where no pull fails, frames line up with send operations if and only if the first slice of every message is all of it |
| Batches.AlwaysAlignedExactly | src/ayame_transport.h:281-297 | failing pulls included, frames stay lined up after every batch if and only if every message comes in one slice, or fails right after its first |
| Batches.BatchAlignedExactly | src/ayame_transport.h:263-314 | the same for one batch |
| Batches.AllFramesArePayloads | src/ayame_transport.h:263-314 | where the first slice of every message is all of it, the k-th frame is the payload of the k-th send operation, messages whole |
| Batches.FramesCarryMessage | src/ayame_transport.h:278-299 | however a message is sliced, the frames of its batch carry its bytes in order |
| Batches.SendsExactly | src/ayame_transport.h:316-317 | a batch counts as sending if and only if it has some send operation |
| Batches.TwoSlicesShift | src/ayame_transport.h:281-297 | a message of two slices puts its second slice where the trailing metadata is expected |
| Batches.FailedPullShifts | src/ayame_transport.h:285-289 | a message whose first pull fails sends nothing, so the trailing metadata comes where the message is expected |
| Batches.WaitersFollowRequests | src/ayame_transport.h:322-404 | the k-th continuation is of the kind of the k-th receive request (initial metadata, message, trailing metadata, batch by batch), fills what that names and announces it through its closure |
| ByteStream.SendMessage | src/ayame_transport.h:278-299 | the do-while sends exactly the slices the specification gives and terminates; `remaining` never underflows |
| ByteStream.MessageExact | src/ayame_transport.h:278-299 | the bytes sent are the bytes pulled before the first failure, NUL bytes included; they are the whole message if and only if the loop comes to no failing pull (or the message is empty); without a failure at least one frame goes out |
| ByteStream.SentIsPrefix | src/ayame_transport.h:281-297 | the frames are the slices pulled, one frame each, up to the first that completes the announced length or to a failure |
| ByteStream.OneFrameExactly | src/ayame_transport.h:281-297 | a message goes out in one frame if and only if its first slice is all of it, or its second pull fails |
| ByteStream.ContractSuffices | src/ayame_transport.h:280-297 | the byte-stream contract implies, pull by pull, that the loop finds a next pull and never overshoots |
| ByteStream.Reduced | src/ayame_transport.h:296 | subtraction in `size_t` equals subtraction as long as the slice does not exceed what remains |
| Metadata.EncodeMetadata | src/ayame_transport.h:266-274 | the loop builds the object the specification gives, JSON null for an empty list |
| Metadata.PutAllCorrect | src/ayame_transport.h:300-314 | that object is strictly sorted and denotes the last-value-wins map of the C-string-truncated list |
| Metadata.AppendMetadata | src/ayame_transport.h:327-345 | the receive loop appends elements in order and stops at the first refusal; it throws on malformed text, and at an element that is no string, keeping what it had appended |
| Metadata.AppendedPrefix | src/ayame_transport.h:330-345 | any elements are appended in order exactly up to the first that is refused |
| Metadata.AppendedExact | src/ayame_transport.h:380-398 | distinct items are appended exactly up to the first whose key the batch already holds under a known header name |
| Metadata.RoundTrip | src/ayame_transport.h:263-345 | for metadata that is text, an empty batch receives, without error, the one strictly sorted list that denotes the truncated sender's map; it is empty if and only if the sender's list was |
| PlainLib.PlainIsOk | src/ayame_transport.h:266-276 | some library meets the assumptions, with every string without a NUL for text |
| Metadata.PermutationExact | src/ayame_transport.h:263-277 | the received list is a permutation of the sent one if and only if keys are distinct and no string holds a NUL |
| Metadata.MeaningExact | src/ayame_transport.h:263-277 | the map survives if and only if none of its keys and winning values holds a NUL |
| Metadata.CutAndOverwritten | src/ayame_transport.h:269-271 | a value cut at its NUL, and a value lost to a later one under its key |
| Metadata.CStringExact | src/ayame_transport.h:269-271 | passing through a C string changes a string if and only if it holds a NUL |
| Metadata.SortedIsCanonical | src/ayame_transport.h:330-345 | a strictly sorted list is determined by the map it denotes |
| Lifetime.FreedExactlyOnce | src/ayame_transport.h:66-76 | in every run references = owner's + live streams, and the transport is freed exactly once, when both are gone |
| AyameTransport.AyameStream.NeverReacquires | src/ayame_transport.h:178-188 | of every valid stream, whatever it did so far: its mutex was free at every acquisition and at every closure run, and held at every release |
| AyameTransport.AyameStream.OnMessage | src/ayame_transport.h:178-188 | one arrival under the mutex, then a flush after its release; ends unlocked with nothing scheduled |
| AyameTransport.AyameStream.WaitForRecv | src/ayame_transport.h:407-416 | the continuation takes the oldest queued frame or queues behind the others |
| AyameTransport.AyameStream.RunContinuation | src/ayame_transport.h:323-373 | a continuation, run under the mutex, fills its batch or replaces the receive buffer, and only schedules its closure |
| AyameTransport.AyameStream.PerformOp | src/ayame_transport.h:223-405 | pends, displaces or runs the batch exactly as specified, creating the channel if it can |
| AyameTransport.AyameStream.RunBatch | src/ayame_transport.h:263-404 | sends initial metadata, slices and trailing metadata, schedules the completion, registers the continuations |
| AyameTransport.AyameStream.SendFrames | src/ayame_transport.h:263-314 | what goes to the channel is the batch's frames, in their fixed order |
| AyameTransport.AyameStream.RegisterWaiters | src/ayame_transport.h:322-404 | each continuation in turn takes a waiting frame or queues |
| AyameTransport.AyameStream.Submit | src/ayame_transport.h:456-461 | a batch handed in by gRPC is counted once and performed |
| AyameTransport.AyameStream.OnTransportReady | src/ayame_transport.h:158-162 | the ready callback retries the pending batch, if any |
| AyameTransport.AyameStream.OnStateChange | src/ayame_transport.h:168-177 | in any state, past a bye too, the observer retries the pending batch exactly on an open channel, and then flushes |
| AyameTransport.AyameStream.FlushClosures | src/ayame_transport.h:174-179 | the context runs closures, each with the mutex free, until none is left; it terminates |
| AyameTransport.AyameStream.constructor | src/ayame_transport.h:144-166 | takes a reference; an incoming stream has its channel, an outgoing one asks for one and registers a callback exactly if it gets none |
| AyameTransport.AyameStream.Destroy | src/ayame_transport.h:191-219 | the buffer is destroyed if it was initialised, so that destructions equal initialisations; the reference is dropped and the closure scheduled |
| AyameTransport.AyameTransport.OnReady | src/ayame_transport.h:112-117 | every waiting stream retries its pending batch once; afterwards none waits |
| AyameTransport.AyameTransport.Unref | src/ayame_transport.h:68-74 | drops one reference and reports exactly the step that frees the transport |
| AyameTransport.AyameTransport.CreateDataChannel | src/ayame_transport.h:44-46 | a connecting channel if signalling is ready, none otherwise |
| WriteQueue.RunOrdered | src/ayame_signaling.cpp:484-525 | in every run completed writes ++ queue = texts submitted, in order; a write is under way exactly while the queue is non-empty, until one fails |
| WriteQueue.WritesExactly | src/ayame_signaling.cpp:484-525 | in every run the whole state of the writer is what the events say: as many texts written as writes succeeded, the rest queued, a write under way while there is a rest and none failed |
| WriteQueue.FailedExactly | src/ayame_signaling.cpp:511-518 | the writer has failed if and only if some write that was under way did |
| WriteQueue.FailureIsFinal | src/ayame_signaling.cpp:509-518 | once a write under way fails, none is under way and nothing is written any more, whatever follows |
| WriteQueue.Drains | src/ayame_signaling.cpp:520-524 | as long as no write failed, letting the queued writes finish puts every text on the wire, in order |
| WriteQueue.SignalingWriter.DoSendText | src/ayame_signaling.cpp:484-498 | appends a copy of the text, starts a write exactly if the queue was empty, and leaves the buffer of a write under way untouched |
| WriteQueue.SignalingWriter.OnWrite | src/ayame_signaling.cpp:509-525 | a completed write wrote what its buffer held at the start, and the next buffer in front is written next; a failed one removes nothing and starts nothing |
| SignalingAccounts.ReadsExactly | src/ayame_signaling.cpp:283-423 | in every run a read is under way exactly from the handshake on until one fails or a message ends the loop (bye, unknown, unparsable, refused), and the messages handled are those that came meanwhile |
| SignalingAccounts.ClosesExactly | src/ayame_signaling.cpp:289-298 | in every run the peer begins to close if and only if it read a bye or a read under way failed without being cancelled |
| SignalingAccounts.PostsExactly | src/ayame_signaling.cpp:459-482 | in every run the texts posted are one registration, a pong for each ping read, and each description and candidate made, in order of the events; the peer is ready if and only if it read a candidate that could be applied |
| SignalingAccounts.LegalExactly | src/ayame_signaling.cpp:316-388 | the offer/answer states by type of description, as in section 3.2 of RFC 8829: an offer starts from stable or repeats on its own side, an answer settles the other side's offer |
| SignalingAccounts.DescribesExactly | src/ayame_signaling.cpp:366-386 | a legal description is had from then on and moves the state; an illegal one changes nothing |
| SignalingSpec.ReadLoopEnds | src/ayame_signaling.cpp:277-298 | once no read is outstanding, no later message is handled, ever |
| SignalingSpec.HandleKeepsLoop | src/ayame_signaling.cpp:283-423 | a handled message re-arms at most one read, whatever it is |
| SignalingSpec.NullUseExactly | src/ayame_signaling.cpp:305-422 | a read handler meets a null connection in exactly the runs whose first message other than pings is a parsable offer, answer or candidate; at most one read is ever outstanding |
| SignalingSpec.CandidateBeforeAccept | src/ayame_signaling.cpp:389-404 | a run in which a handler does meet one |
| SignalingSpec.ReadyOnce | src/ayame_signaling.cpp:404-413 | the listener is told of readiness at most once, and exactly if a candidate was applied |
| SignalingSpec.ReadyStays | src/ayame_signaling.cpp:410-413 | once set, `ready_` stays set in every continuation, and the listener is called no more |
| SignalingSpec.ReadyNeedsDescription | src/ayame_signaling.cpp:404-413 | in every run a peer becomes ready, or gets a remote description, only after it read an offer or an answer |
| SignalingSpec.CanCreateExactly | src/ayame_signaling.cpp:209-216 | in every run, asking for a channel is safe if and only if the peer is not both ready and past a bye |
| SignalingSpec.CreateAfterBye | src/ayame_signaling.cpp:419-422 | a run in which it is not |
| AyameSignaling.AyameSignaling.OnRead | src/ayame_signaling.cpp:300-423 | every message type has exactly the specified effect on connection, latch, read loop and texts |
| AyameSignaling.AyameSignaling.OnReadError | src/ayame_signaling.cpp:283-298 | a failed read re-arms nothing; it begins a close unless it was cancelled |
| AyameSignaling.AyameSignaling.OnHandshake | src/ayame_signaling.cpp:258-268 | arms the one read, posts the registration, tells the listener; a failed handshake does nothing |
| AyameSignaling.AyameSignaling.OnCandidate | src/ayame_signaling.cpp:390-415 | the latch fires on the first applied candidate only; a refused one stops the read loop |
| AyameSignaling.AyameSignaling.OnDescription | src/ayame_signaling.cpp:337-388 | a remote description is applied and the read re-armed, unless it does not parse |
| AyameSignaling.AyameSignaling.OnCreateOffer | src/ayame_signaling.cpp:315-325 | the created offer is set locally, then posted |
| AyameSignaling.AyameSignaling.OnCreateAnswer | src/ayame_signaling.cpp:339-349 | the created answer is set locally, then posted |
| AyameSignaling.AyameSignaling.OnIceCandidate | src/ayame_signaling.cpp:527-542 | a gathered candidate is posted, unless it cannot be written as text |
| AyameSignaling.AyameSignaling.CreateDataChannel | src/ayame_signaling.cpp:209-216 | a channel exactly if ready, and then from a live connection |
| NegotiationRuns.NegotiationSafe | src/ayame_signaling.cpp:305-415 | in every run, overtaking included: at most one offer, an answer only to it and at most one, never both peers with a local offer, every description legal by section 3.2 of RFC 8829, no null connection; and a candidate is refused as early if and only if it parses, is the last message read, and no description was read before it |
| NegotiationRuns.OrderIsFaultless | src/ayame_signaling.cpp:389-408 | without overtaking, no candidate is early either |
| Negotiation.StepKeeps | src/ayame_signaling.cpp:283-423 | every step of peers and server keeps the invariant behind that |
| Negotiation.NextIsExpected | src/ayame_signaling.cpp:305-415 | the next message a peer reads is one its state is ready for |
| Negotiation.RolesFollow | src/ayame_signaling.cpp:311-334 | only the first comer is sent an offer, only the other one an answer, each once and the answer only to an offer it sent |
| NegotiationRuns.PostingOrderSuffices | src/ayame_signaling.cpp:479-482 | handling posted texts in posting order is enough |
| NegotiationRuns.LedExactly | src/ayame_signaling.cpp:479-482 | in what the server sends, descriptions come before candidates if and only if no candidate overtook a description of its own peer |
| NegotiationEnds.NegotiationCompletes | src/ayame_signaling.cpp:305-415 | without overtaking and refusals both peers keep reading, and whenever nothing is left to do, exactly one offer and one answer were sent and both peers are stable with both descriptions |
| NegotiationEnds.NegotiationCanSettle | src/ayame_signaling.cpp:305-388 | from every state of such a run, the empty run included, some such continuation leaves nothing to do |
| NegotiationEnds.FaultlessExactly | src/ayame_signaling.cpp:389-408 | in a benign run whose peers read all they were sent or read no more, both are faultless if and only if no candidate overtook a description |
| NegotiationEnds.EarlyIsFinal | src/ayame_signaling.cpp:404-408 | a peer that refused an early candidate reads nothing more, never gets a remote description, never becomes ready and never answers, in every continuation; if it came first, no answer is ever sent |
| NegotiationEnds.OvertakerStopsReading | src/ayame_signaling.cpp:404-408 | an overtaking candidate that parses is refused by a peer that has read everything before it, and ends that peer's read loop |
| NegotiationEnds.OvertakingRun | src/ayame_signaling.cpp:479-482 | a run in which that happens, whose one offer is answered in no continuation |
| UrlParts.Find | src/url_parts.h:17-24 | the first occurrence at or after a position, and none only if there is none |
| UrlParts.URLParts.Parse | src/url_parts.h:16-56 | succeeds exactly if "://" occurs; the fields are the three nested cuts, and stay as they were on failure |
| UrlParts.AcceptsExactly | src/url_parts.h:17-20 | a string is accepted if and only if "://" occurs in it |
| UrlParts.URLParts.ParsePath | src/url_parts.h:23-32 | the path is what comes from the first '/' after the scheme on |
| UrlParts.URLParts.ParseUser | src/url_parts.h:34-43 | user part and rest are cut at the first '@' |
| UrlParts.URLParts.ParseHost | src/url_parts.h:45-53 | host and port are cut at the first ':' |
| UrlParts.CutScheme | src/url_parts.h:17-23 | "://" cannot overlap itself: the cut falls after the scheme if and only if the scheme is free of it |
| UrlParts.ParseAfterPrint | src/url_parts.h:16-56 | parsing a printed URL gives back its parts if and only if they are printable, a condition on their characters |
| UrlParts.PrintAfterParse | src/url_parts.h:16-56 | printing an accepted URL loses exactly the '@' of an empty user part and the ':' of an empty port, and gives it back if and only if there is none |
| UrlParts.PrintsTrimmed | src/url_parts.h:16-56 | the printed form is the very text of the URL without those delimiters |
| UrlParts.NormalFormIsStable | src/url_parts.h:34-43 | printing and parsing again changes nothing if and only if the user part is not empty or no '@' is left behind it |
| UrlParts.PromotedAt | src/url_parts.h:34-43 | the family of URLs for which it does change: an '@' left behind an empty user part becomes the delimiter |

## Left out

- AyameTransport.AyameStream.RunContinuation: records a thrown parse error as an outcome and goes on; what the program does with the exception is not modelled.
- AyameTransport.AyameStream.PerformOp: requires, like every method that may ask for a channel, that a stream without one finds a connection if its transport is ready, because the code dereferences it (`TransportRuns.CrashExactly` says when there is none); the status given to the completion is not modelled.
- AyameTransport.AyameTransport.Unref: says which step frees the memory; the object itself cannot be deallocated in the model.
- AyameSignaling.AyameSignaling.OnRead: calls on the listener are recorded; `TransportRuns` joins them to the streams.
- EndToEnd.EndToEndFaithful: says nothing about the content of metadata that is not valid UTF-8, for which the JSON library throws in the middle of sending.
- WriteQueue.RunOrdered: counts texts written completely; a failed write may have sent a part of its text.
- ByteStream.SendMessage: `Next` returns at once, as the code asserts; asynchronous pulls are not modelled, nor are slices of 2 GiB and more, whose length does not fit the code's `int`.
- `AyameDataChannel` is a value owned by its stream: its callback fields, `OnBufferedAmountChange` and the observer registration are not modelled.
- `OnDataChannel` and its routing by label: an incoming channel with the label "init" is only kept alive, any other one becomes a stream.
- DNS, TCP, TLS and WebSocket handshakes, the peer-connection factory and its threads.
- JSON text, SDP and ICE contents, DTLS and SCTP.
- A second accept to the same peer, and rooms of more than two: the server sends one accept for each registration.
- `cancel_stream`, goaway, connectivity watchers, and `set_accept_stream`.
- Slices, arenas, interning and the reference counts of gRPC objects; the extra stream reference of `init_stream`.
- Races between threads on `pending_op_`, `ready_`, `write_buffer_` and `dc_`; completion callbacks that arrive after a bye.
- `CreateIceServers`, logging, state names, demo programs and build scripts.
