# MKSandbox: a verified model of its messaging stack, engine and guest bookkeeping

MKSandbox runs containers in their own kernels. The kernels talk through a shared-memory ring, a
channel layer demultiplexes the ring's messages, a host transport matches control requests to
responses, a host engine owns peer ids and pod addresses, and a guest agent keeps logs and container
metadata. This project models those parts in Dafny and proves what they are meant to guarantee, for
every input and every interleaving. `dafny verify dfyconfig.toml` checks everything.

How the model is built:

- Concurrency is a state machine: `Next(s, a)` is total, a run is a sequence of actions, and theorems
  quantify over all of them. The ring's two ends take steps of one shared access each (one index, one
  ring slot, one length, one payload byte); the engine takes one step per locked section, allocator
  call or call out; a control caller and the receiver take one step per locked section, channel send
  or select.
- Code that updates fields or arrays in place is also written as a class or a method with loops, proved
  against the specification function that the theorems are about.
- Integers are unbounded in Dafny, so every width that matters is written out: 16-bit ring indices,
  32-bit layout offsets and addresses, 64-bit ids, two's complement fields.
- External results (allocation, notification, remote calls, short reads, write errors) are action
  parameters.

Modules, bottom up:

| files | what they model |
|---|---|
| `Basics`, `CText` | bytes, remainders, C strings in fixed fields, decimal numbers |
| `RingQueue`, `RingInvariant`, `RingTheorems`, `RingSafety`, `RingSolo`, `RingWrap`, `RingDriver` | one directional ring queue |
| `RingLayout`, `ReadyBitmap` | the shared area's layout and its ready bitmap |
| `Channel`, `ChannelSystem`, `ChannelDrain`, `ChannelOrder` | the transport syscall, the demultiplexer, and all kernels together over their rings |
| `ControlTransport` | request and response matching on the host |
| `WireFormat`, `WireRequest`, `WireRoundTrip`, `WireResponse`, `WireDecoding` | the two-sided codec of control messages |
| `Allocators`, `Engine`, `EngineProofs`, `EngineTheorems`, `EngineCalls`, `EngineCleanups`, `Containers` | the host engine |
| `LogSync`, `CriLog`, `Metadata`, `PendingEnv` | guest logs and metadata, and the host's log copy |
| `Stack` | theorems that join the layers |

Properties that are false of the code as it stands, with the exact condition under which they hold:

- The ring is a FIFO over all runs if and only if `desc_num` divides 65536 (`RingWrap.FifoIffDivides`);
  initialisation accepts any non-zero value.
- The queues of an accepted parameter set lie inside the shared area and apart from each other if and
  only if the unrounded queue end is at most 2^32 - 4096, or there is a single kernel whose queue happens
  to fit (`RingLayout.QueuesSoundIff`); a larger end wraps the queue size to zero.
- Peer ids are conserved over all runs if and only if the range fits 16 bits or no address can be issued
  (`EngineTheorems.ConservedIffFits`).
- One container per pod is kept by a step if and only if the step's second locked section is not stale
  (`Containers.KeptIffFresh`); it holds over all runs in which calls on one pod do not overlap.
- A waiting control call is forgotten by a step if and only if that step is the deferred unregister of
  another call that used the same key (`ControlTransport.ForgetsExactlyByEviction`).
- A request arrives unchanged if and only if its strings are NUL-free and strictly shorter than their
  fields (`WireRoundTrip.RequestExact`); a kernel id of 64 bytes loses its last one
  (`WireRoundTrip.FullFieldLosesByte`).
- The host's copy of a log equals the guest's log up to the saved offset if and only if no call met, after
  bytes were appended and before its loop stopped, a failed read or a write that failed part-way
  (`LogSync.FileIsLogIff`).
- A saved end mark means that the whole final log was read if and only if the read that set it saw the final
  log (`LogSync.EofMeansWholeIff`).
- Metadata survives its file if and only if no value contains a newline, no key is empty, and every value
  that fills its line buffer stands where the line it spills is not seen (`Metadata.RoundTripIff`); behind an
  image name of 255 bytes an argument is read back as an environment variable (`Metadata.FilledImageMisread`).

## Model

| member | source | states |
|---|---|---|
| RingQueue.FirstZero | mkring/mkring.c:454-461 | the claimed descriptor is the lowest one whose in-flight bit is clear |
| RingQueue.ShapedNext | mkring/mkring.c:415-555 | no step of either side ever indexes outside a ring, a length table or a data slot |
| RingInvariant.SlotsDiffer | mkring/mkring.c:428-428 | counts less than desc_num apart have different ring slots, given no wrap-around or a desc_num that divides 65536 |
| RingInvariant.ReclaimSeesInflight | mkring/mkring.c:415-438 | every id reclaim reads from the used ring is in range and in flight |
| RingInvariant.FreeMeansZeroBit | mkring/mkring.c:447-461 | the free count is zero exactly if every bit is set, and otherwise the search finds a clear bit, so the second -EAGAIN branch is unreachable |
| RingInvariant.TxClaimKeeps | mkring/mkring.c:447-461 | claiming a descriptor keeps the whole ownership invariant |
| RingInvariant.TxCopyKeeps | mkring/mkring.c:463-467 | writing one payload byte or the length disturbs no message that is on its way |
| RingInvariant.TxPublishKeeps | mkring/mkring.c:469-476 | publishing the avail index hands over exactly the message whose bytes and length are in place |
| RingInvariant.RxTakeKeeps | mkring/mkring.c:480-509 | the receive path copies the oldest waiting message, bytes and length, and records a failed allocation as a drop |
| RingInvariant.RxPublishKeeps | mkring/mkring.c:539-550 | returning a descriptor through the used ring keeps the invariant, also after a drop |
| RingInvariant.NextKeeps | mkring/mkring.c:415-555 | every step of every interleaving keeps the invariant of bitmap, windows, payloads and FIFO history |
| RingTheorems.ReachableOnePlace | mkring/mkring.c:415-555 | in every reachable state each descriptor is in exactly one of: free, being filled, in the avail window, being copied, in the used window |
| RingTheorems.WritesOnlyWhatItFills | mkring/mkring.c:463-467 | a data slot or length is only ever written while its descriptor is being filled, so never before its message was copied out |
| RingTheorems.NeverOverwritten | mkring/mkring.c:463-467 | in every run no step changes the data or length of a descriptor in the avail window or being copied |
| RingTheorems.RefinesFifo | mkring/mkring.c:440-555 | every fine-grained step from a state with the invariant is a step of a plain FIFO that may drop its head; what is dequeued is the head, byte for byte |
| RingTheorems.RunsRefineFifo | mkring/mkring.c:440-555 | the same for every step of every run from an empty queue |
| RingTheorems.DeliversInOrder | mkring/mkring.c:440-555 | over every run and any number of wrap-arounds, delivered messages are the accepted ones in order, once each, less failed allocations |
| RingTheorems.ReceiverHoldsOldest | mkring/mkring.c:520-533 | the descriptor in the receiver's hand is that of the oldest message not yet returned, in range, with that message's length in its table entry |
| RingSafety.ClampNeverActs | mkring/mkring.c:527-536 | for every accepted desc_num, in no reachable state does the receiver see an id out of range or a length that the clamp would change |
| RingSafety.FreeCountExact | mkring/mkring.c:415-461 | for every accepted desc_num, in every reachable state free_cnt plus the number of in-flight bits is desc_num, and the second -EAGAIN never happened |
| RingSafety.RefusedMeansAllInFlight | mkring/mkring.c:447-461 | for every accepted desc_num, in every run a sender is refused exactly if the bits of all desc_num descriptors are set |
| RingTheorems.AgainMeansFull | mkring/mkring.c:447-451 | a sender refused with -EAGAIN has all desc_num descriptors outstanding as it sees them |
| RingTheorems.ReclaimProgress | mkring/mkring.c:427-437 | each round of reclaim lowers the distance to the used index modulo 2^16 by one |
| RingSolo.TxCallEffect | mkring/mkring.c:440-478 | a whole enqueue with the receiver stopped anywhere accepts the message exactly if fewer than desc_num are unreturned, and changes nothing else |
| RingSolo.RxCallEffect | mkring/mkring.c:510-555 | a whole receive pass with the sender stopped anywhere takes out everything waiting and returns every descriptor |
| RingSolo.DeliveredExact | mkring/mkring.c:510-555 | with both sides described by the invariant, the delivered list is the kept part of the accepted one |
| RingWrap.Overtaken | mkring/mkring.c:428-428 | if desc_num does not divide 65536 there is a run in which the wrap reuses the slot of an unread message and a message is overtaken |
| RingWrap.FifoIffDivides | mkring/mkring.c:822-822 | the queue is a FIFO over all runs if and only if desc_num divides 65536 |
| RingDriver.Driver.constructor | mkring/mkring.c:264-284 | a new queue is the machine's initial state and satisfies the invariant |
| RingDriver.Driver.Reclaim | mkring/mkring.c:415-438 | the reclaim loop terminates and is the corresponding run of sender steps |
| RingDriver.Driver.Fill | mkring/mkring.c:463-467 | the copy into the claimed slot and the length are the corresponding run of sender steps |
| RingDriver.Driver.Publish | mkring/mkring.c:469-476 | writing the avail slot and then the index is the corresponding pair of steps |
| RingDriver.Driver.Enqueue | mkring/mkring.c:440-478 | the in-place enqueue computes the specified call for any position of the receiver |
| RingDriver.Driver.TakeLocal | mkring/mkring.c:480-508 | the message appended to the local list is what the slot held; rx_pending is the list's length |
| RingDriver.Driver.ReturnDescriptor | mkring/mkring.c:539-551 | the used element, the used index and the cursor advance together and the distance left shrinks |
| RingDriver.Driver.TakeOne | mkring/mkring.c:518-551 | one round of the receive loop is the corresponding run of receiver steps |
| RingDriver.Driver.Process | mkring/mkring.c:510-555 | the in-place receive loop terminates and computes the specified pass for any position of the sender |
| RingDriver.Driver.Receive | mkring/mkring.c:597-644 | the head leaves the list even if the buffer is too small; then its prefix and full length are returned |
| RingDriver.MkringSend | mkring/mkring.c:557-594 | the message is accepted exactly for a sent or notify-failed result; each refusal is returned exactly for its own cause, and the success condition is given in full; for a desc_num that does not divide 65536, until its index wraps |
| RingDriver.MkringDrain | mkring/mkring.c:510-555 | with successful allocations a pass appends exactly the waiting messages in order; for a desc_num that does not divide 65536, until its index wraps |
| RingLayout.AreasSound | mkring/mkring.c:189-236 | desc, avail, used and data areas follow one another, aligned with no more padding than that takes, and end below 2^32 |
| RingLayout.QueueSizeExact | mkring/mkring.c:231-233 | the queue size is the page-rounded end exactly if the rounding does not wrap, and 0 otherwise |
| RingLayout.PreparedIff | mkring/mkring.c:286-308 | a parameter set is accepted exactly if it is sensible, one queue ends below 2^32 and all queues fit the area and 2^32; -EOVERFLOW is exact and -ERANGE is never returned |
| RingLayout.PointersInside | mkring/mkring.c:137-177 | every pointer helper stays in its area, aligned where it must be, and distinct ids share no byte |
| RingLayout.QIndexInjective | mkring/mkring.c:184-187 | different ordered pairs of kernels have different queue indices below kernels squared |
| RingLayout.NeverOutOfRange | mkring/mkring.c:363-377 | -ERANGE is unreachable for every parameter set that initialisation accepts |
| RingLayout.QueuesSoundIff | mkring/mkring.c:297-308 | the queues lie inside shm_size and apart from each other if and only if the unrounded end is at most 2^32 minus a page (or a lone kernel's queue fits) |
| RingLayout.WrappedSizeAccepted | mkring/mkring.c:233-233 | a concrete accepted parameter set whose queue size wrapped to 0 and whose queues overlap |
| ReadyBitmap.UpdateBits | mkring/mkring.c:356-357 | setting or clearing one kernel's bit leaves every other bit alone |
| ReadyBitmap.NoUpdateLost | mkring/mkring.c:355-358 | in every interleaving of joining and leaving kernels each bit is that kernel's last completed join or leave |
| ReadyBitmap.IdleMeansDone | mkring/mkring.c:355-358 | in every interleaving no begun join or leave is given up: the bit of a kernel outside its loop is its last begun one |
| ReadyBitmap.UncontendedCompletes | mkring/mkring.c:790-795 | a retry loop left alone completes after one read and one swap with exactly its own bit changed |
| Channel.CheckSend | mkring/mkring_transport_syscall.c:256-273 | a send passes exactly if the peer is valid, the message is valid and its header names the requested channel; the size and protocol errors are exact |
| Channel.AcceptedIsQueued | mkring/mkring_demux.c:42-77 | what a sender's checks accept passes every check of the receiver and lands at the end of its own channel's queue, or is counted bad on a failed allocation |
| Channel.RefusedIsIgnored | mkring/mkring_demux.c:42-77 | a message of an invalid peer, an invalid message and one for a channel without handler change nothing |
| Channel.PopKeeps | mkring/mkring_transport_syscall.c:115-128 | taking a message out loses and reorders nothing on any channel, and pending stays the queue length |
| Channel.PopHead | mkring/mkring_transport_syscall.c:115-128 | mkct_recv returns the head of the channel's queue, nothing exactly if it is empty, and the record of what it returned grows by that message and no other channel changes |
| Channel.Transport.constructor | mkring/mkring_transport_syscall.c:107-113 | fresh queues are empty with pending counts of zero |
| Channel.Transport.RegisterChannel | mkring/mkring_demux.c:165-192 | registering succeeds exactly for a non-zero channel without a handler |
| Channel.Transport.UnregisterChannel | mkring/mkring_demux.c:195-207 | unregistering removes that channel's handler and no other |
| Channel.Transport.RegisterDemux | mkring/mkring_transport_syscall.c:187-211 | all three channels are registered or, on failure, the table is as before |
| Channel.Transport.Deliver | mkring/mkring_transport_syscall.c:151-180 | the in-place receive path computes the specified step |
| Channel.Transport.Receive | mkring/mkring_transport_syscall.c:286-327 | the in-place receive returns the oldest message of the channel, which leaves the queue, or nothing exactly if the queue is empty |
| ChannelSystem.NextKeeps | mkring/mkring_transport_syscall.c:90-180 | every step of any number of kernels keeps: received plus queued is what the ring handed over, per source and channel |
| ChannelSystem.EndToEnd | mkring/mkring_transport_syscall.c:256-327 | in every run what mkct_recv returned from a source on a channel, followed by what is queued, is what that source's ring accepted for the channel, in order and byte for byte, less failed allocations |
| ChannelSystem.Lossless | mkring/mkring_transport_syscall.c:256-327 | without failed allocations every accepted message the receiver has got to is received or queued, in order |
| ChannelDrain.CanReturnAll | mkring/mkring.c:510-555 | from every reachable state the receiver's own steps and receives, with successful allocations, empty the ring and the channel's queue |
| ChannelDrain.EverythingArrives | mkring/mkring_transport_syscall.c:256-327 | from every reachable state without failed allocations such a run makes mkct_recv return every message accepted from the source for the channel, in order and byte for byte |
| ChannelDrain.SentArrives | mkring/mkring_transport_syscall.c:256-327 | from every reachable state without failed allocations, with the sender idle and a descriptor unreturned to spare, one mkct_send of a valid message and steps of the two ends make mkct_recv return everything accepted before and then this message |
| RingSolo.ReachesEmpty | mkring/mkring.c:510-555 | from every state with the invariant the receiver's own steps take out everything accepted; for a desc_num that does not divide 65536, until its index wraps |
| ChannelSystem.QueuesWellFormed | mkring/mkring_transport_syscall.c:115-180 | in every run, for every accepted desc_num, a queue holds only valid messages of its own channel from other kernels, and pending is its length |
| ChannelOrder.EnteredWereSubmitted | mkring/mkring_transport_syscall.c:256-284 | in every run, for every accepted desc_num, what a ring accepted on a channel and the message it is working on are messages mkct_send was called with, in the order of the calls, none twice |
| ChannelOrder.ReturnedWereSubmitted | mkring/mkring_transport_syscall.c:256-327 | in every run what mkct_recv returned from a source is what that source's mkct_send was called with for this kernel and channel, in the order of the calls, none twice |
| ControlTransport.NextKeeps | mk-container/pkg/transport/mkringcontrol/uapi.go:131-326 | every step of callers, receiver and timeouts keeps the invariant |
| ControlTransport.ReceiverNeverBlocks | mk-container/pkg/transport/mkringcontrol/uapi.go:298-326 | whenever the receiver is about to send on a channel, it has room |
| ControlTransport.AtMostOneSend | mk-container/pkg/transport/mkringcontrol/uapi.go:298-326 | at most one result is ever sent on a caller's channel |
| ControlTransport.SuccessIsOwnResponse | mk-container/pkg/transport/mkringcontrol/uapi.go:391-416 | a successful RoundTrip returns a response with its own peer, request id and operation |
| ControlTransport.FailureReachesEveryone | mk-container/pkg/transport/mkringcontrol/uapi.go:311-326 | after receiver failure the pending table stays empty, and every entry present at the failure got the error and nothing else |
| ControlTransport.PendingAtFailureGetError | mk-container/pkg/transport/mkringcontrol/uapi.go:311-326 | whoever is in the pending table when the receiver fails has, once it has stopped, been sent the error and nothing else, whatever happens in between |
| ControlTransport.ReadyIsMonotone | mk-container/pkg/transport/mkringcontrol/uapi.go:262-276 | READY and receiver failure are never undone |
| ControlTransport.ReadyIff | mk-container/pkg/transport/mkringcontrol/uapi.go:262-276 | in every run a peer is ready exactly if some step took in its READY message while the receiver was receiving |
| ControlTransport.OutcomeIff | mk-container/pkg/transport/mkringcontrol/uapi.go:131-185 | in every run a call ends in success, bad response, timeout, send error, duplicate or receiver error exactly if a step decided on that: what it took from its channel, its timer, its send or its registration |
| ControlTransport.ForgetsExactlyByEviction | mk-container/pkg/transport/mkringcontrol/uapi.go:292-296 | a step forgets a waiting call if and only if it is another call's deferred unregister of the same key |
| ControlTransport.ExclusiveKeysNeverForget | mk-container/pkg/transport/mkringcontrol/uapi.go:278-296 | with distinct keys of overlapping calls nobody is ever forgotten |
| ControlTransport.ReusedKeyIsForgotten | mk-container/pkg/transport/mkringcontrol/uapi.go:147-147 | a run in which a reused key makes a waiting call unreachable |
| ControlTransport.PendingTable.Register | mk-container/pkg/transport/mkringcontrol/uapi.go:278-290 | registration fails exactly after receiver failure or for a duplicate key |
| ControlTransport.BeginIsRegister | mk-container/pkg/transport/mkringcontrol/uapi.go:144-146 | entering RoundTrip does to the table what registerPending does, and the caller goes on to send exactly if that succeeded |
| ControlTransport.LeaveIsUnregister | mk-container/pkg/transport/mkringcontrol/uapi.go:292-296 | leaving RoundTrip is unregisterPending of the caller's own key: channels and every other entry stay |
| ControlTransport.DeliveryIsComplete | mk-container/pkg/transport/mkringcontrol/uapi.go:220-247 | in every reachable state taking a response in and pushing it is completePending; one with request id 0 is ignored |
| ControlTransport.FailureIsFailReceiver | mk-container/pkg/transport/mkringcontrol/uapi.go:311-326 | from every reachable state failing and pushing the error in any order is failReceiver |
| ControlTransport.PendingTable.Complete | mk-container/pkg/transport/mkringcontrol/uapi.go:298-309 | the entry is removed and its channel gets the result; an unknown key changes nothing |
| ControlTransport.PendingTable.SendFailure | mk-container/pkg/transport/mkringcontrol/uapi.go:323-325 | the loop sends the error to exactly the given channels |
| ControlTransport.PendingTable.FailReceiver | mk-container/pkg/transport/mkringcontrol/uapi.go:311-326 | the first failure empties the table and sends the error to every entry; later ones change nothing |
| CText.CutUnique | mk-container/pkg/transport/mkringcontrol/wire.go:735-740 | the text of a field is the one NUL-free prefix that ends at a NUL or at the field's end |
| CText.ArrivesIff | mk-guest-agent/src/transport_mkring.c:64-85 | a string passes a field of equal width unchanged exactly if it is NUL-free and strictly shorter |
| CText.CStringArrives | mk-guest-agent/src/transport_mkring.c:64-85 | the guest reads from a host-written field the text up to its NUL, cut to the width less one |
| CText.StoredReadBack | mk-guest-agent/src/transport_mkring.c:44-62 | the host reads from a guest-written field what of the text fitted |
| CText.CopyCString | mk-container/pkg/transport/mkringcontrol/wire.go:742-748 | the field becomes the padded value, the rest of the buffer is untouched, and only what is longer than the field is refused |
| CText.CopyBoundedString | mk-guest-agent/src/transport_mkring.c:64-85 | the destination holds the cut text with its NUL |
| WireFormat.NumberReadBack | mk-container/pkg/transport/mkringcontrol/wire.go:750-763 | a little-endian number of any width reads back |
| WireFormat.SignedReadBack | mk-container/pkg/transport/mkringcontrol/wire.go:750-763 | a two's complement number of any width reads back |
| WireFormat.FieldsReadBack | mk-container/pkg/transport/mkringcontrol/wire.go:750-763 | splitting a packed struct returns its fields whatever follows it, and its size is the sum of the widths |
| WireFormat.BlockReadBack | mk-container/pkg/transport/mkringcontrol/wire.go:327-333 | the used elements of a fixed array read back |
| WireFormat.HeaderReadBack | mk-container/pkg/transport/mkringcontrol/wire.go:78-94 | the header of a message reads back and the payload follows it |
| WireFormat.HeadersAgree | mk-guest-agent/include/mkring_container.h:57-68 | the Go and the C header have the same ten fields of 28 bytes in all |
| WireRequest.LayoutsAgree | mk-guest-agent/src/transport_mkring.c:88-125 | for every operation the Go and the C request struct have the same fields, and the host's size constant is the C struct's size |
| WireResponse.LayoutsAgree | mk-container/pkg/transport/mkringcontrol/wire.go:195-228 | the same for the response structs |
| WireRequest.EncodeArgv | mk-container/pkg/transport/mkringcontrol/wire.go:392-397 | the loop fills the argv array with one padded field per argument, or refuses an argument longer than 64 bytes |
| WireRoundTrip.AcceptedIff | mk-container/pkg/transport/mkringcontrol/wire.go:281-537 | the encoder accepts a request exactly if its lists fit their arrays and no string is longer than its field |
| WireRoundTrip.RequestRoundTrip | mk-guest-agent/src/transport_mkring.c:252-553 | for all twelve operations the guest decodes an accepted request to the same id, operation and numbers, argv as command and args joined, strings up to their NUL and cut to the field less one byte |
| WireRoundTrip.CreateArrives | mk-container/pkg/transport/mkringcontrol/wire.go:539-548 | an accepted CreateContainer is decoded with every field in its place and as arguments those of command, in order, followed by those of args |
| WireRoundTrip.PrepareExecArrives | mk-container/pkg/transport/mkringcontrol/wire.go:708-713 | an accepted PrepareExec is decoded with its command and with each flag 1 exactly if the host's is true |
| WireRoundTrip.UnchangedIffClean | mk-guest-agent/src/transport_mkring.c:64-85 | delivery changes no field exactly if every string is NUL-free and strictly shorter than its field |
| WireRoundTrip.RequestExact | mk-container/pkg/transport/mkringcontrol/wire.go:281-548 | an accepted request makes the whole trip unchanged if and only if it is clean |
| WireRoundTrip.FullFieldLosesByte | mk-container/pkg/transport/mkringcontrol/wire.go:742-748 | a kernel id of 64 bytes is accepted and reaches the guest as its first 63 |
| WireResponse.EncodeResponse | mk-guest-agent/src/transport_mkring.c:555-669 | a response is encoded exactly if it names an operation and a non-zero request id, into 996 bytes |
| WireResponse.ResponseRoundTrip | mk-container/pkg/transport/mkringcontrol/wire.go:550-675 | the caller decodes the same result, or the mapped errno with the text cut to 127 bytes (the default text if empty); a log chunk keeps its length |
| WireResponse.ErrorCodesArrive | mk-guest-agent/src/transport_mkring.c:127-145 | each error code arrives as its errno string, any other code as EIO |
| WireResponse.StatesAgree | mk-container/pkg/transport/mkringcontrol/wire.go:715-726 | the host reads back every state number the guest sends; other numbers are unknown |
| WireResponse.RefusedIff | mk-container/pkg/transport/mkringcontrol/wire.go:630-632 | a response is refused by the caller it answers if and only if it is a log chunk longer than 384 bytes |
| WireResponse.OnlyItsOwn | mk-container/pkg/transport/mkringcontrol/uapi.go:391-416 | no caller accepts a response to another operation or request id |
| WireDecoding.DecodedIff | mk-guest-agent/src/transport_mkring.c:252-281 | the guest accepts a message exactly if its size, its header, the payload size of its operation and the list counts at their byte offsets are right |
| WireDecoding.DecodedIsClean | mk-guest-agent/src/transport_mkring.c:252-553 | whatever bytes arrive, a decoded request has NUL-free strings strictly shorter than their fields, lists within their arrays, and the header's id and operation |
| WireDecoding.PassedOnUnchanged | mk-guest-agent/src/transport_mkring.c:252-553 | a request decoded from any bytes, encoded again, is accepted and decodes to itself |
| WireDecoding.RepliedIff | mk-container/pkg/transport/mkringcontrol/uapi.go:391-416 | a caller accepts a message exactly if it is a response to its own request and operation with an error status, or with the right payload size and no overlong chunk |
| WireDecoding.StatusIsError | mk-container/pkg/transport/mkringcontrol/wire.go:550-656 | a non-zero status is an error to the caller whatever the payload, and a zero status never is |
| WireDecoding.ErrorExact | mk-container/pkg/transport/mkringcontrol/wire.go:658-675 | the code and the text of an error for any message: the payload's if it has the error size and they are there, else those of the header's status |
| Allocators.TakeExact | mk-container/pkg/util/int_allocator.go:31-50 | allocation keeps the partition into used, free and never issued, fails exactly when every slot is used, and returns an unused id in range |
| Allocators.GiveExact | mk-container/pkg/util/int_allocator.go:52-65 | release of any value keeps the partition and removes exactly that id from the used ones |
| Allocators.PartitionedAlways | mk-container/pkg/util/int_allocator.go:18-65 | the partition holds after every run of allocations and arbitrary (bogus, repeated) releases |
| Allocators.ReissuesLast | mk-container/pkg/util/int_allocator.go:35-40 | the next allocation after a release returns the released id |
| Allocators.NewIntAllocator | mk-container/pkg/util/int_allocator.go:18-29 | construction fails exactly for a negative or empty range |
| Allocators.IntAllocator.Allocate | mk-container/pkg/util/int_allocator.go:31-50 | the in-place allocation computes the specified one |
| Allocators.IntAllocator.Release | mk-container/pkg/util/int_allocator.go:52-65 | the in-place release computes the specified one |
| Allocators.NetworkFits | mk-container/pkg/util/ip_allocator.go:69-73 | for every mask the network ends within 32 bits, and maxHosts - 1 is right even where 1 << 32 truncates to 0 |
| Allocators.NewIPAllocator | mk-container/pkg/util/ip_allocator.go:28-44 | construction succeeds exactly for a parsed address and a mask of 0 to 32; the network contains the address |
| Allocators.IPAllocator.Allocate | mk-container/pkg/util/ip_allocator.go:57-81 | an issued address lies strictly between gateway and broadcast; exhaustion is exact |
| Allocators.IPAllocator.Release | mk-container/pkg/util/ip_allocator.go:84-114 | releasing an address outside the network or an unparsed string changes nothing; otherwise its offset is given back |
| Allocators.IssuedIsHost | mk-container/pkg/util/ip_allocator.go:57-81 | an issued address is inside its network and none of network, gateway and broadcast address |
| Engine.Locked.RecordPod | mk-container/pkg/runtime/engine.go:464-472 | the section records kernel and READY pod together |
| Engine.Locked.Begin | mk-container/pkg/runtime/engine.go:478-500 | the first section of a cleanup marks the pod exactly if there is something to clean up |
| Engine.Locked.DropPod | mk-container/pkg/runtime/engine.go:518-531 | the section forgets kernel and address together and returns the peer id to release |
| EngineTheorems.EndReopensPod | mk-container/pkg/runtime/engine.go:164-167 | in every run the end of a cleanup leaves its pod unmarked and cleaned by nobody, with every other mark and table as it was |
| EngineProofs.NextKeeps | mk-container/pkg/runtime/engine.go:367-576 | every step of any interleaving of RunPod, StopPod and RemovePod keeps the invariant of pods, addresses and calls, and that of peer ids where they fit |
| EngineTheorems.ResourcesConserved | mk-container/pkg/runtime/engine.go:367-576 | in every run of every configuration used addresses are exactly those of pods plus calls in flight, each held once; likewise peer ids whenever they fit 16 bits |
| EngineTheorems.ReleasesAreOfUsedIds | mk-container/pkg/util/int_allocator.go:52-65 | in every run an address released by the engine is in use at that moment, and so is a peer id whenever they fit 16 bits, so nothing is released twice |
| EngineTheorems.ReadyExactly | mk-container/pkg/runtime/engine.go:464-531 | in every reachable state of every configuration a pod is READY exactly when it has an address and exactly when its kernel is recorded |
| EngineTheorems.OneCleanupPerPod | mk-container/pkg/runtime/engine.go:151-167 | in every reachable state of every configuration the marked pods are exactly those some StopPod or RemovePod is cleaning up, one call each |
| EngineTheorems.NeverStopsDropped | mk-container/pkg/runtime/engine.go:512-576 | no StopPod or RemovePod stops a kernel that a cleanup has dropped |
| EngineTheorems.DroppedStays | mk-container/pkg/runtime/engine.go:522-525 | a dropped kernel stays dropped |
| EngineTheorems.LeaksWideId | mk-container/pkg/runtime/engine.go:378-381 | with a range beyond 16 bits there is a run that records a truncated id and leaks the real one |
| EngineTheorems.ConservedIffFits | mk-container/pkg/runtime/engine.go:367-576 | peer ids are conserved over all runs if and only if the range fits 16 bits or no address can be issued |
| EngineCalls.RunPodStarts | mk-container/pkg/runtime/engine.go:367-375 | in every reachable state RunPod goes on exactly if a peer id is unused, takes one such id and touches nothing else |
| EngineCalls.RunPodOutcome | mk-container/pkg/runtime/engine.go:367-475 | with any calls interleaved, RunPod ends with its pod READY at the address it was given and its kernel recorded if and only if StartKernel succeeded, WaitReady succeeded or was skipped, and an address was free; otherwise with neither and its peer id given back |
| EngineCalls.RunPodInFlight | mk-container/pkg/runtime/engine.go:367-475 | until it returns a RunPod has recorded nothing and given nothing back, and it returns with its fifth step at the latest |
| EngineCleanups.CleanupStarts | mk-container/pkg/runtime/engine.go:478-500 | in every reachable state RemovePod begins on every pod not being cleaned up and StopPod on every such READY pod; beginning marks the pod and nothing else, and otherwise nothing happens |
| EngineCleanups.CleanupEffect | mk-container/pkg/runtime/engine.go:478-576 | with any calls interleaved, StopPod leaves its pod NOT_READY without address and its kernel unrecorded, peer id and address given back, if and only if its container call succeeded and StopKernel succeeded or was not needed; RemovePod removes pod and kernel whatever StopKernel returned; otherwise both are as found and nothing is given back |
| EngineCleanups.CleanupInFlight | mk-container/pkg/runtime/engine.go:478-576 | until its own drop a cleanup has changed neither pod, kernel nor pools, and it returns with its sixth step at the latest |
| Containers.OneStopPerContainer | mk-container/pkg/runtime/engine.go:169-185 | in every run the stop marks are exactly the containers being stopped, each by one call |
| Containers.KeptIffFresh | mk-container/pkg/runtime/engine.go:578-652 | a step keeps one container per pod if and only if its second section is not stale |
| Containers.OneContainerPerPod | mk-container/pkg/runtime/engine.go:578-652 | if calls on one pod never overlap, the container table and the pod table mirror each other in every reachable state |
| Containers.OverlappingCreates | mk-container/pkg/runtime/engine.go:644-646 | two overlapping creates leave a pod with two containers |
| Containers.InFlightIff | mk-container/pkg/runtime/engine.go:578-652 | in every run a create, remove, forget or stop is in flight, with what its first section looked up, exactly if a step entered it and none has finished it since |
| Containers.RecordedIff | mk-container/pkg/runtime/engine.go:644-648 | in every run a container is recorded for a pod exactly if a create recorded it there and no remove or other create displaced it since |
| Containers.Engine.Insert | mk-container/pkg/runtime/engine.go:644-648 | both tables are updated, unconditionally |
| Containers.Engine.Remove | mk-container/pkg/runtime/engine.go:1006-1011 | the container and its pod's entry are removed, whatever the entry now names |
| Containers.Engine.ForgetPod | mk-container/pkg/runtime/engine.go:566-571 | the pod's entry is removed |
| Containers.Engine.BeginContainerStop | mk-container/pkg/runtime/engine.go:912-931 | the mark is set exactly for a known container whose pod and kernel are known |
| Containers.EndStopReopens | mk-container/pkg/runtime/engine.go:182-185 | in every run the end of a stop leaves its container unmarked and stopped by nobody, with every other mark and table as it was |
| LogSync.ReadLogExact | mk-guest-agent/src/runtime_containerd_stub.c:2604-2695 | the reader returns the slice of the log that ends at the next offset: all that is left, cut to what was asked for, to 384 bytes and to what pread returned; eof exactly for an exited container read to the end |
| LogSync.LoopCopies | mk-container/pkg/runtime/engine.go:807-833 | a pass that finishes appended exactly the log between the old and the new offset; a failing one only appended |
| LogSync.FileIsLogIff | mk-container/pkg/runtime/engine.go:760-842 | after any run over an append-only log the file is the log up to the saved offset if and only if no call meets a failed read, or a write failing part-way, after bytes were appended and before its loop stops |
| LogSync.FailureDuplicates | mk-container/pkg/runtime/engine.go:809-820 | a failure after an append makes the next call append the same bytes again |
| LogSync.EofMeansWholeIff | mk-guest-agent/src/runtime_containerd_stub.c:2688-2694 | once the end mark is saved, the whole final log was read if and only if the read that set the mark saw the final log |
| LogSync.EofMeansWhole | mk-guest-agent/src/runtime_containerd_stub.c:2688-2694 | if EXITED is recorded only once the log is final, the end mark means the whole log was read, and the file is the log exactly if no call tore |
| LogSync.EarlyExitLoses | mk-guest-agent/src/runtime_containerd_stub.c:2688-2692 | if EXITED is recorded earlier, the end mark can be saved with bytes missing for good |
| LogSync.CallsNeeded | mk-container/pkg/runtime/engine.go:807-833 | with full reads a final log of n bytes is complete after exactly max(1, ceil(n / 49152)) calls |
| LogSync.Synced.SyncContainerLogs | mk-container/pkg/runtime/engine.go:760-842 | the in-place loop computes the specified call, with the saved offset untouched on failure |
| CriLog.SplitsAtNewlines | mk-guest-agent/src/runtime_containerd_stub.c:1184-1190 | the reference line splitter cuts at newlines and drops empty lines |
| CriLog.RecordsOfLines | mk-guest-agent/src/runtime_containerd_stub.c:1155-1200 | however the bytes are chunked, the records are those of the non-empty lines, each cut into full buffers and a rest |
| CriLog.ChunkingInvisible | mk-guest-agent/src/runtime_containerd_stub.c:1171-1200 | streams of equal bytes give equal records whatever their chunks |
| CriLog.JoinedAreLines | mk-guest-agent/src/runtime_containerd_stub.c:1155-1200 | joining P records to their closing F record gives back exactly the non-empty lines in order |
| CriLog.LineShape | mk-guest-agent/src/runtime_containerd_stub.c:1191-1198 | a line of n > 0 bytes gives ceil(n / 4096) records |
| CriLog.RecordShapes | mk-guest-agent/src/runtime_containerd_stub.c:1155-1200 | every P payload is 4096 bytes and every F payload is 1 to 4096 bytes |
| CriLog.LogStream.FlushPending | mk-guest-agent/src/runtime_containerd_stub.c:1155-1169 | the in-place flush writes one record, or none for an empty buffer |
| CriLog.LogStream.AppendChunk | mk-guest-agent/src/runtime_containerd_stub.c:1171-1200 | the in-place loop over a chunk computes the specified stream and stays in its 4096-byte buffer |
| Metadata.ReadsLine | mk-guest-agent/src/runtime_containerd_stub.c:914-923 | a line that fits with its newline is read whole; one that fills the buffer leaves its newline for the next read |
| Metadata.CountReadsDigits | mk-guest-agent/src/runtime_containerd_stub.c:924-929 | a printed count parses back |
| Metadata.CountExact | mk-guest-agent/src/runtime_containerd_stub.c:924-929 | a count line with blanks, a sign, a number of any size and anything behind it is read as strtoul and the cast to 32 bits read it, saturating at 2^64 - 1 |
| Metadata.RoundTripIff | mk-guest-agent/src/runtime_containerd_stub.c:835-989 | reading back written metadata returns the same values if and only if no value contains a newline, no key is empty, and every value that fills its buffer stands where its spilled line is harmless |
| Metadata.FilledImageMisread | mk-guest-agent/src/runtime_containerd_stub.c:835-989 | behind an image name of 255 bytes a container's only argument is gone and a variable of that name with value 0 is read instead |
| Metadata.ReadFits | mk-guest-agent/src/runtime_containerd_stub.c:888-989 | whatever the file holds, what is read from it fits the structs and no variable has an empty name |
| Metadata.ShortValuesSurvive | mk-guest-agent/src/runtime_containerd_stub.c:835-989 | values at least two bytes shorter than their line buffers read back exactly if they are newline-free and no key is empty |
| Metadata.WriteMetadata | mk-guest-agent/src/runtime_containerd_stub.c:835-886 | the writing loops produce the specified file |
| Metadata.ReadArgv | mk-guest-agent/src/runtime_containerd_stub.c:934-947 | the argument loop computes the specified reader |
| Metadata.ReadVars | mk-guest-agent/src/runtime_containerd_stub.c:954-978 | the environment loop computes the specified reader |
| Metadata.ReadMetadata | mk-guest-agent/src/runtime_containerd_stub.c:888-989 | the reading function computes the specified reader |
| PendingEnv.ConfigureIsInsert | mk-guest-agent/src/runtime_containerd_stub.c:1283-1326 | an accepted entry becomes its key's value at the key's old place or at the end, nothing else changes, and acceptance and the invalid error are exact |
| PendingEnv.ApplyExact | mk-guest-agent/src/runtime_containerd_stub.c:1414-1445 | in a sound table applying never fails, yields exactly the matching entries in order and keeps the others in order |
| PendingEnv.OthersKept | mk-guest-agent/src/runtime_containerd_stub.c:1426-1433 | the entries kept are exactly those of other containers, with their values |
| PendingEnv.LatestWins | mk-guest-agent/src/runtime_containerd_stub.c:1283-1445 | in every run the table is sound and holds for each key its latest accepted value since its container was last created |
| PendingEnv.CreateAlwaysApplies | mk-guest-agent/src/runtime_containerd_stub.c:1434-1440 | in every run the error returns of a create's apply are unreachable |
| PendingEnv.Pending.ConfigureEnv | mk-guest-agent/src/runtime_containerd_stub.c:1283-1326 | the in-place search and update compute the specified insertion |
| PendingEnv.Pending.ApplyPendingEnv | mk-guest-agent/src/runtime_containerd_stub.c:1414-1445 | the in-place compaction computes the specified result, also on the error returns |
| Stack.RequestPassesChannel | mkring/mkring_transport_syscall.c:90-105 | every request the host encodes passes the transport's checks on the container channel |
| Stack.PrefixIsHeader | mkring/mkring_transport_syscall.c:90-105 | on messages of the control size the transport's prefix check is a check of magic, version and channel of the header the guest reads |
| Stack.RequestsArriveInOrder | mk-guest-agent/src/transport_mkring.c:704-729 | in every run in which a source sends only encoded requests, what mkct_recv returns from it decodes to the id and the delivered form of requests that were sent, in order, none twice |
| Stack.AllRequestsArrive | mk-guest-agent/src/transport_mkring.c:704-729 | from every reachable state without failed allocations the receiver alone can make mkct_recv return every accepted request, decoded, in order, none missing |
| Stack.ResponsePassesChannel | mkring/mkring_transport_syscall.c:90-105 | every response the guest encodes does too |
| Stack.LogChunkArrives | mk-guest-agent/src/runtime_containerd_stub.c:2664-2686 | whatever the guest's log reader returns is decoded by the host as it is, never refused |
| Stack.ConfiguredEnvSurvives | mk-guest-agent/src/runtime_containerd_stub.c:2295-2305 | in every run of configure_env and create the environment a container is created with is what its metadata file gives back if and only if no value holds a newline and every value that fills its buffer stands where its spilled line is harmless; other containers' entries do not matter |

## Left out

- Weak memory: the ring is modelled with sequentially consistent steps; barriers are not modelled.
- The initialisation race of the shared area and a restart on a non-empty queue: the queue starts empty with both ends set up.
- The used element's id and length are written in one step, as is each used element read by reclaim.
- Notification is a free result after the enqueue; interrupts are free receive passes.
- `mkring_recv` and `mkct_recv` are modelled once their wait is over; time-outs and shutdown only return errors.
- ChannelSystem: both ends are started before the first message; registration is modelled in the class only, and every sender goes through `mkct_send`.
- ControlTransport: the request id is the caller's, so a hash collision shows up as two callers with one key; contexts and time-outs are free choices.
- WireRequest: JSON envelopes are taken as exact; the READY message's payload is not modelled.
- WireResponse: the members of the guest's union are kept apart, since only the one its operation names is read.
- NewIPAllocator: parsing of addresses from text is a parameter, and only IPv4 networks are modelled.
- Engine: pod id and kernel id are one fresh number; monitors, log polling and container calls inside a cleanup are free results; that a call is ever scheduled to its next step is not claimed.
- Containers: pods come and go freely, so a create may fail its pod check at any time; monitors are not modelled.
- LogSync: a call's reads are given as what they met, with an append-only log; offsets are unbounded instead of 64 bits.
- CriLog: the time stamp and stream name in front of a record, and write errors, are not modelled.
- Metadata: file system errors are not modelled and the reader's error numbers are not told apart; values are the C strings that fit the structs.
- RingLayout: kernel ids and sizes come from parameters; mapping the area is platform glue.
- The HTTP and SPDY streaming, the network proxy, the CRI server, and process and terminal handling of the guest agent.
