# Verified model of the ACQ200 host driver and its streaming client

The driver moves sampled data from a PCI digitiser card to user space. It sends requests to
the card as message frames, finds the handler of each response by a 7-bit id the card echoes,
and recycles handlers and buffers through two small pools. For continuous streaming it
swings between two large buffers, A and B, under the control of a client program that
calls one ioctl in a loop. This project models the state machines at work there and
proves what they guarantee over all runs, and where they do not, exactly when.

| files | subject |
|---|---|
| `SwingBuffer`, `SwingRuns`, `SwingLosses`, `SwingIds`, `SwingEnds`, `SwingExamples`, `SwingReuse`, `SwingStream` | client, driver and card in the swinging A/B buffer protocol |
| `Handlers`, `HandlerBalance`, `HandlerRelease`, `HandlerRuns`, `HandlerLinks`, `HandlerOwners`, `HandlerIds`, `HandlerAnswers`, `HandlerExamples`, `HandlerDevice` | the life of a return-command handler: conservation, ownership, routing of responses, release of a path |
| `Ids` | the 7-bit message ids |
| `MfaPath`, `Ring` | message frames from the card through the ring and the tasklet and back |
| `Pool`, `PoolRuns`, `DmaBuffer` | the round-robin allocator and the partition of the DMA buffer |
| `IrqMask` | from mask text to disabled interrupts |
| `FileRotation` | the client's rotating output files |
| `BridgeRead` | where reads of a bridge file start and how far they move |
| `BusySemaphore` | the semaphore between streaming ioctls and bridge files |
| `Bits`, `Options` | bit masks as arithmetic; an option type |

Each state machine is given twice: as step functions on values, about which the run-level
lemmas are proved, and as a class or method that updates its fields in place as the source
does, each operation of which is proved to perform the corresponding step.

The main results:

- **Exactly once.** As long as no failed ioctl that took buffers back is repeated, the
  blocks delivered are exactly the first ones the card read out, each once, none out of place
  by more than one, and `total` is the sum of their lengths modulo 2^64. They come in order
  until an ioctl first delivers two buffers from B on; from then on they come in swapped pairs.
- **Loss, exactly.** As long as no request uses an id that a handler or a request at the card
  still carries, the client misses a block if and only if it repeats such an ioctl, and what
  it misses it never gets; even then nothing is delivered twice and every block is accounted for.
  That ids are so unused is exactly when every answer goes to its own request throughout, and
  it is enough that the card never has more than 127 requests. Beyond that two runs are given:
  in one the driver reports one request and the client gets the block of another; in the
  other 128 requests are given up and every block is delivered all the same. A request is
  given up if and only if such an ioctl is repeated, and client and driver agree on the next
  buffer, in every run whatever.
- **Conservation, exactly.** The pools agree with the handler list throughout a run if and only if
  every event of the run is safe, a condition on the state before the event: no read or write
  is refused for want of a mapping with a handler that was never built or still names the
  mapping of its last use, no write is empty, and no handler is recycled that is off the list
  and names a reserved mapping. The last can only happen when another request gets a release's
  handler before the releasing process goes on. Likewise exact: the driver follows a null
  pointer if and only if such a refusal meets a handler never built, or a swinging buffer finds
  no handler; a handler is unlinked twice if and only if a read answered with an error is
  finished; and readers and swinging buffers keep the handlers they await if and only if no
  release recycles one of these.
- **Routing, exactly.** Over every run, failed sends included, all responses are routed rightly
  throughout if and only if no request is made with an id that a listed handler or an
  outstanding request still carries. With every send succeeding, routing is right
  whenever nothing is 128 or more sends old, across any number of overflows of the 16-bit
  counter.
- **Answers.** In every run a listed read is waited for by a reader or a swinging buffer, and the
  response to any other handler frees it and its mapping, an interrupted read's being counted as
  discarded. While ids are unused so and no release recycles an awaited handler, each read
  returns exactly what the card answered to its own request. The streaming client stops if and
  only if it is told of the end of the file, that is, of a buffer whose answer was an error or
  brought no sample, or has had its fill of timeouts since its last success.
- **Semaphore, exactly.** The streaming semaphore is accounted for by the flags of the paths
  whenever no ioctl is in progress, unless an ioctl clears its path's flag after a second one
  on the same file has taken the semaphore and failed to copy its argument in; then, and only
  then, it is lost for good.
- **Frames.** Every message frame taken from the card is in exactly one place and goes back
  exactly once; those the ring accepts go back in order, and it accepts exactly while there is
  room.
- **Files.** The output files hold the last of the stream, in rotation order, and a file is closed
  exactly for a block that would bring it to `maxfile`.

Where the code and the comments or the evident intent disagree, the model follows the code:
the comment at `acq200_utils.c:114` says that clear bits disable interrupts, while set bits
do; setting an interrupt's bit in two consecutive masks disables it twice although it is
enabled only once afterwards (`IrqMask.EnabledIffNoRepeat`); and in one-shot mode the client
stops only after opening one file more than `nfiles` asks for
(`FileRotation.StopsShort`).

## Model

| member | source | states |
|---|---|---|
| SwingRuns.TurnInLockstep | htstream.c:224-284 | In any turn, failures included, the client's `next` stays equal to the driver's `ab_next`; a successful ioctl makes the client process one or two buffers, exactly those flagged full |
| SwingRuns.RunInLockstep | acq200_i2o.c:739-783 | The two notions of the next buffer agree at every ioctl boundary of every run, timeouts and signals included |
| SwingRuns.ActionReports | acq200_i2o.c:776-780 | An ioctl that succeeds flags the buffer waited for and perhaps the other, and moves `ab_next` once for each; one that fails flags none |
| SwingRuns.SucceedProcesses | htstream.c:254-278 | The client hands on one or two buffers from `next` on and gives back exactly the buffers flagged |
| SwingRuns.AnswerFindsSlot | acq200_i2o.c:315-326 | While no handler carries the id of another's request at the card, the scan by 7-bit id brings each response to the handler of its own request, or to none if that has been recycled |
| SwingRuns.QueueApartIff | acq200_i2o.c:678-707 | A request leaves that so if and only if no handler and no request at the card carries its id |
| SwingRuns.AnswersInOrder | acq200_i2o.c:256-276 | From such a state, however the card's answers fall, requests are answered in order and full buffers keep their contents |
| SwingRuns.PrepareSettled | acq200_i2o.c:745-752 | After recycling and requeueing, one buffer awaits the next block and the other the one after it: A first if both were given back |
| SwingRuns.FillPrimed | acq200_i2o.c:652-676 | Waiting for the buffer queued second implies the first is full: the pair is then reported swapped, and otherwise in order |
| SwingRuns.CleanTurn | acq200_i2o.c:739-783 | The invariant that delivered blocks, their order and their bytes are as expected survives every turn but the repeat of an ioctl that took buffers back |
| SwingRuns.CleanRunKeeps | htstream.c:224-284 | ... and so every run without such a repeat |
| SwingRuns.FewOutstanding | acq200_i2o.c:745-752 | In such runs the card never has more than two requests to answer, so ids never repeat |
| SwingRuns.DeliveryOrder | acq200_i2o.c:745-780 | Blocks are delivered 0, 1, 2, ... until an ioctl delivers two from B on; every later one then delivers a swapped pair, from B on |
| SwingRuns.ExactlyOnce | htstream.c:224-284 | The delivered blocks are exactly the first ones the card read out, no loss or repeat, each out of place by at most one; `total` is the sum of their lengths |
| SwingRuns.OrderedIsPermutation | acq200_i2o.c:776-780 | A sequence in that order is a permutation of 0..m-1 that moves nothing by more than one |
| SwingLosses.RequestsGivenUpIffRetried | htstream.c:229-254 | In every run a request is given up, its handler recycled before it is reported, if and only if the client repeats, within the driver, a failed ioctl with recycle flags set |
| SwingLosses.BlocksMissingIffRetried | htstream.c:229-254 | While no request uses an id still carried, the client misses a block if and only if it repeats such an ioctl |
| SwingLosses.MissingForever | htstream.c:229-254 | A block missed after such a run is delivered in none of its continuations of the kind |
| SwingLosses.NothingMissingIfClean | htstream.c:224-284 | A client that repeats no such ioctl misses no block, whatever the ids |
| SwingLosses.GivenUpIff | acq200_i2o.c:745-774 | From any state reached without such a repeat, a request is given up if and only if one follows |
| SwingLosses.RetryGivesUp | acq200_i2o.c:630-650 | The repeat recycles a buffer already queued afresh, whose request is then given up |
| SwingLosses.TurnKeeps | acq200_i2o.c:739-783 | Every turn whose requests use no id still carried, whatever fails, keeps each request accounted for: reported once, given up once, or held by a slot |
| SwingLosses.EveryBlockAccountedFor | htstream.c:205-289 | In every run of such turns no block is delivered twice, or delivered though its request was given up, and the client finds in a buffer the block that was reported |
| SwingEnds.AnswerTaken | acq200_i2o.c:315-326 | The answer to the card's oldest request goes, in place of any it had, to the listed handler with the request's id, the older if there are two, and to no other; the buffer holds the next block |
| SwingEnds.IdFollows | acq200_i2o.c:151-181 | However often the 16-bit counter of sends has overflowed, a request gets the id that the sends before it make next |
| SwingEnds.ActionRepliesIff | acq200_i2o.c:760-782 | An ioctl is refused if it does not get the device; otherwise it succeeds if and only if the next buffer is found full, and fails by timeout or by signal as its wait ends |
| SwingEnds.ActionTells | acq200_i2o.c:652-676 | A success flags the buffers whose answers had come by its two looks, with the bytes each brought, and tells of the end of the file if and only if one was an error or brought no sample |
| SwingEnds.StoppedIff | htstream.c:229-284 | In every run the client has stopped if and only if its last reply told of the end of the file, or was a timeout, a success having come before, and the timeouts since reach the limit |
| SwingEnds.TurnHeeds | htstream.c:229-252 | Each reply moves the count of timeouts and the two flags on accordingly |
| SwingIds.RoutesIffApart | acq200_i2o.c:315-326 | The scan brings every answer the card may give to its own request's handler if and only if no other carries that request's id |
| SwingIds.RoutedIffIdsUnused | acq200_i2o.c:315-326 | In every run each answer goes to its own request's handler throughout if and only if no request is made with an id still carried |
| SwingIds.RecentKeepIdsApart | acq200_i2o.c:142-160 | For that it is enough that nothing is ever 128 or more sends old |
| SwingIds.TurnTimely | acq200_i2o.c:739-783 | If a turn leaves at most 127 requests at the card, nothing is 128 or more sends old then |
| SwingIds.FewKeepIdsApart | acq200_i2o.c:739-783 | ... so that no run with never more than 127 requests at the card uses an id still carried |
| SwingIds.OneMoreIsTooMany | acq200_i2o.c:315-326 | With 128 requests at the card the answer to the last may go to the handler of a request answered before |
| SwingExamples.PairsSwapAfterB | acq200_i2o.c:747-752 | A run: one block from A, two from B on, then a pair delivered as blocks 4, 3 |
| SwingExamples.RepeatedIoctlLosesBlocks | htstream.c:235-254 | A run: two blocks, a timeout, the same call again; blocks 2 and 3 are never delivered |
| SwingReuse.ReusedIdDeliversGivenUpBlock | acq200_i2o.c:315-326 | A run: two blocks, 64 timeouts, the same call again; the first answer reaches a handler with the same id 128 requests younger, and the client gets block 2, given up before, as the block of request 130 |
| SwingReuse.ReusedIdsDeliverAllGivenUp | acq200_i2o.c:315-326 | A run: the same and 127 calls more; requests 2 to 129 have been given up, yet blocks 0 to 129, all the card has read out, are delivered in order |
| SwingStream.Path.Recycle | acq200_i2o.c:630-638 | Empties the slot; the request is given up if it was not reported |
| SwingStream.Path.BufferAbRecycle | acq200_i2o.c:640-650 | Takes back the buffers flagged, A first |
| SwingStream.Path.BufferAbQueue | acq200_i2o.c:678-707 | Puts the buffer's next request behind those the card has |
| SwingStream.Path.FillDeviceStatus | acq200_i2o.c:652-676 | Flags a full buffer with its length, zero length meaning end of file, and turns to the other; else changes nothing; `SwingEnds.ActionTells` says what that tells the client |
| SwingStream.Path.PrepareBuffers | acq200_i2o.c:745-752 | Recycles, then queues each buffer not queued, A first |
| SwingStream.Path.BufferAbAction | acq200_i2o.c:739-783 | The whole ioctl is the protocol's step: timeout, even with the buffer filled at the last moment, and signal leave buffers queued and flag nothing |
| SwingStream.Work | htstream.c:254-283 | The client's loop body after a success is the protocol's step |
| SwingStream.Retry | htstream.c:235-252 | After a failure the client keeps its recycle flags, counts timeouts once started and gives up at the limit |
| SwingStream.TurnOnce | htstream.c:224-284 | One turn of the client's loop over the driver is the protocol's turn |
| SwingStream.Stream | htstream.c:205-289 | The client's loop over the driver is a run of the protocol: in lockstep, stopped by the replies that end it, a request given up if and only if there is an unsafe repeat; nothing delivered twice, and a block missed exactly then, while no request uses an id still carried |
| Handlers.RecycleShaped | acq200_i2o.c:232-246 | Recycling a listed handler shortens the list, so the cleanup loop ends |
| HandlerBalance.RecycleConserves | acq200_i2o.c:232-246 | Recycling a listed handler keeps pools and list in agreement and unlists just it |
| HandlerBalance.RecycleConservesIff | acq200_i2o.c:232-246 | Recycling any handler keeps the agreement if and only if it is listed or names no reserved mapping; one that has been built is off the list left unchanged then |
| HandlerBalance.SubmitConserves | acq200_i2o.c:142-160 | Building, listing and sending with a handler and mapping just reserved keeps the agreement |
| HandlerBalance.ReadConservesIff | acq200_i2o.c:458-505 | A read keeps the agreement if and only if it is not refused for want of a mapping while its handler was never built or still names one |
| HandlerBalance.RefusedConservesIff | acq200_i2o.c:473-479 | Recycling the unused handler of a refused request frees the mapping of a listed handler if its own last mapping is still recorded in it, follows a null pointer and leaves it reserved if it was never built, and otherwise does no harm |
| HandlerBalance.WriteConservesIff | acq200_i2o.c:542-592 | A write keeps the agreement if and only if it is not refused in that way and has something to write |
| HandlerBalance.ReadFinishConservesIff | acq200_i2o.c:507-540 | Finishing a read keeps the agreement if and only if the read was interrupted or recycling its handler does; whether the card reported an error makes no difference to the pools |
| HandlerBalance.ErrorFinishRecycles | rch.h:39-56 | Finishing a read answered with an error recycles its handler once for the pools and the list, but unlinks it twice |
| HandlerBalance.HandleConserves | acq200_i2o.c:305-344 | Running the handler of a response keeps the agreement, whatever the response, and unlists all but waiting readers |
| HandlerRelease.CleanupKeeps | acq200_i2o.c:786-804 | From any list of built handlers the cleanup loop ends and leaves those of other paths listed in their order, unchanged, none naming the path |
| HandlerRelease.CleanupFreesExactly | acq200_i2o.c:786-804 | Whatever is reserved before, exactly the path's handlers are unlisted, and exactly they and the pool mappings they name are freed |
| HandlerRelease.CleanupConserves | acq200_i2o.c:786-804 | The cleanup keeps pools and list in agreement |
| HandlerRuns.NextConservesIff | acq200_i2o.c:458-838 | Each kind of event keeps pools and list in agreement if and only if it meets a condition visible beforehand |
| HandlerRuns.PoolsConserved | acq200_i2o.c:458-838 | In every run the reserved handlers are those listed and each reserved mapping but `MSG_MAPPING` belongs to exactly one, throughout, if and only if every event is safe |
| HandlerOwners.PoolsConservedUntaken | acq200_i2o.c:826-833 | If no request gets a release's handler before the releasing process goes on, that is so if and only if no write is empty and no request is refused with a handler never built or stale |
| HandlerLinks.FaultedIff | acq200_i2o.c:244 | In every run the driver has followed a null pointer if and only if a read or write was refused with a handler never built, or a swinging buffer found no handler |
| HandlerLinks.NextFaultsIff | acq200_bigbuf_alloc.c:253-258 | Each event follows one exactly then, and refers to none but built handlers |
| HandlerLinks.UnlinkedTwiceIff | rch.h:39-56 | In every run, safe or not, a handler has been unlinked twice if and only if a read answered with an error has been finished |
| HandlerLinks.NextLinks | rch.h:18-56 | Every event keeps handlers listed once, just while they have a path, and reserved and built while listed |
| HandlerOwners.OwnedNextIff | acq200_i2o.c:458-838 | Each event leaves readers and swinging buffers the handlers they await if and only if it is no release recycling one of them |
| HandlerOwners.OwnedEndWaitIff | acq200_i2o.c:826-833 | The second recycle of a release's handler takes it from somebody if and only if a reader or a swinging buffer has got it meanwhile |
| HandlerOwners.AwaitedHandlersKept | acq200_i2o.c:458-838 | The same over every run |
| Ids.SameIdIff | acq32busprot.h:1429-1431 | Two sends get the same id if and only if they are a multiple of 128 apart |
| Ids.MakeIdMasks | acq32busprot.h:1429-1431 | For any counter value, negative ones included, an id is the low seven bits above the tag 0xDC and gives both back |
| Ids.ShortKeepsId | acq200.h:196 | Overflow of the `short` counter leaves ids and their succession undisturbed |
| Ids.ShortWraps | acq200.h:196 | The counter keeps values in range and takes any other modulo 2^16 |
| HandlerIds.SubmitUnambiguousIff | acq200_i2o.c:142-208 | A request, sent or not, leaves ids telling handlers and requests apart if and only if nothing carries its id |
| HandlerIds.RoutedIffIdsUnused | acq200_i2o.c:305-344 | Over every run, failed sends included, ids are pairwise distinct and every response is routed rightly throughout if and only if no request reuses an id still carried |
| HandlerIds.RoutesIffUnambiguous | acq200_i2o.c:315-326 | The list scan routes every response rightly if and only if no two handlers share an id and no handler has that of another's request |
| HandlerIds.LiveIdsDistinct | acq200_i2o.c:142-160 | Listed handlers less than 128 sends old have distinct ids |
| HandlerIds.StampedRun | acq200_i2o.c:142-208 | Every run without a failed send keeps handlers and requests stamped in the order of sending |
| HandlerIds.ResponsesRouted | acq200_i2o.c:305-344 | After every such run, of any length, ids are pairwise distinct and every response is routed rightly while nothing is 128 or more sends old |
| HandlerIds.FailedSendMisroutes | acq200_i2o.c:167-172 | After a failed send the next request reuses the id, and its response goes to the handler whose request was never sent: buffer A's handler takes the answer to buffer B's request |
| HandlerAnswers.ReadsExpected | rch.h:39-56 | In every run each listed handler that takes data is a reader's or a swinging buffer's |
| HandlerAnswers.NextExpected | acq200_i2o.c:458-838 | Each event keeps that so |
| HandlerAnswers.UnreadResponseFrees | acq200_i2o.c:305-337 | After every run the response to a handler that neither a reader nor a swinging buffer waits for unlists it and frees it and its mapping; a release's lets its waiter go on |
| HandlerAnswers.InterruptedReadDiscards | rch.h:48-54 | A read interrupted before its answer returns so, leaving its handler listed; the answer then frees handler and mapping and counts as discarded |
| HandlerAnswers.AnswerReaches | acq200_i2o.c:256-276 | A read's handler takes its answer and stays listed; any other is recycled on its response |
| HandlerAnswers.ReadsReturnAnswers | rch.h:65-83 | In every run that uses no id still carried, with no awaited handler recycled by a release, a read returns what the card answered to its own request: two bytes a sample, a fault for an error, an interruption for no answer |
| HandlerExamples.ErrorReadUnlinksTwice | rch.h:39-56 | A run: a read answered with an error is finished, and its handler unlinked twice |
| HandlerExamples.EmptyWriteLeaks | acq200_i2o.c:564 | A run: a write of nothing keeps its handler and mapping reserved with neither listed |
| HandlerExamples.SecondRecycleSteals | acq200_i2o.c:826-833 | A run: fifteen writes after a release's response a read gets its handler, and the release, going on, unlists and frees it under the reader |
| HandlerExamples.RefusedReadFreesMappingInUse | acq200_i2o.c:473-479 | A run of 16 answered writes and three pending ones after which a refused read frees the mapping of a listed handler whose request is still at the card |
| HandlerExamples.RefusedFirstUseFaults | acq200_i2o.c:473-479 | A run of three writes the card has not answered after which a refused read follows a null pointer, its handler staying reserved |
| HandlerDevice.I2oDevice.RchRemove | rch.h:27-36 | Unlinks the handler and clears its path and function |
| HandlerDevice.I2oDevice.RecycleRch | acq200_i2o.c:232-246 | Performs the recycling step: unlinks only with a path, frees a pool mapping and the handler, or faults if it was never built |
| HandlerDevice.I2oDevice.BuildRch | acq200_i2o.c:142-160 | Stamps the handler with the id of the next send and appends it |
| HandlerDevice.I2oDevice.SendI2o | acq200_i2o.c:164-208 | Advances the id only if a frame is free; else changes nothing |
| HandlerDevice.I2oDevice.BridgeReadSubmit | acq200_i2o.c:458-505 | A read up to its wait, with both refusals |
| HandlerDevice.I2oDevice.BridgeReadFinish | acq200_i2o.c:507-540 | A read after its wait: bytes returned, interruption or fault, and what each leaves behind, an interrupted read's handler without its function |
| HandlerDevice.I2oDevice.BridgeWrite | acq200_i2o.c:542-592 | A write, cut to its mapping's length, with refusals and the empty write's early return |
| HandlerDevice.I2oDevice.QueuePlain | acq200_i2o.c:678-707 | Requests without a pool mapping; without a free handler a swinging buffer's faults, and a release's (lines 814 to 824) comes to nothing |
| HandlerDevice.I2oDevice.RunHandler | acq200_i2o.c:320-335 | Runs the function of the handler found, or recycles it and counts a discard if that was cleared |
| HandlerDevice.I2oDevice.FinishWait | acq200_i2o.c:826-833 | A release after its wait recycles its handler again if that has had its response |
| HandlerDevice.I2oDevice.FindOfId | acq200_i2o.c:315-320 | The scan finds the first listed handler carrying the id, or none |
| HandlerDevice.I2oDevice.ProcessCommandMessageReturn | acq200_i2o.c:305-344 | Runs the first listed handler carrying the id, or none |
| HandlerDevice.I2oDevice.CleanupOnBridgeRelease | acq200_i2o.c:786-804 | The restarting loop performs the cleanup step |
| MfaPath.StepConserves | acq200_i2o.c:348-445 | Each interrupt, poll and tasklet step keeps every frame in exactly one place and the counters in agreement |
| MfaPath.FramesConserved | acq200_i2o.c:348-445 | ... and so every interleaving from the start, at any debug levels: incoming equals returned plus pending, accepted frames return in order, discards never exceed incoming |
| MfaPath.EveryFrameSomewhere | acq200_i2o.c:293-298 | The multiset of frames taken in is that of frames returned plus those pending |
| MfaPath.FramesTakenIn | acq200.c:833-872 | Over every run the frames taken in are exactly the words read that are neither 0 nor all ones, in order |
| MfaPath.QueuedIff | acq200_i2o.c:413-445 | A frame read is queued if and only if the ring has room and the debug level is not 8; any other goes straight back |
| MfaPath.MaskedIff | acq200.c:857-864 | The message interrupt is masked if and only if more than 100 interrupts in a row have brought 0 or all ones at some time, words read in between by polling not counting unless they are frames |
| MfaPath.DiscardsCounted | acq200_i2o.c:368-424 | The frames counted as discarded are exactly those that found the ring full, and those on which the tasklet, but at debug level 7, found no command packet or a handler without its function |
| MfaPath.Device.HandleIncomingMessage | acq200.c:833-847 | Thread-level intake: a good address resets the bad count and is consumed; 0 and all ones are ignored |
| MfaPath.Device.IncomingMessageIsr | acq200.c:850-872 | Interrupt-level intake: more than 100 bad addresses in a row mask the interrupt |
| MfaPath.Device.ConsumeI2o | acq200_i2o.c:413-445 | Queues the frame, or counts it discarded and returns it if the ring is full |
| MfaPath.Device.TakeFrame | acq200_i2o.c:359-361 | The loop's head takes the oldest queued frame, or ends with the queue empty |
| MfaPath.Device.FinishFrame | acq200_i2o.c:368-406 | The loop's body counts a discard as the message type says and returns the frame |
| MfaPath.Device.StreamingIsrBh | acq200_i2o.c:348-408 | With interrupts feeding it meanwhile, the tasklet ends with the ring empty and every frame ever taken in returned exactly once, accepted ones in order |
| Ring.StepLawful | streambuf.h:65-107 | No operation of the abstract ring loses, repeats or overtakes an item; the held item is the last one taken |
| Ring.FifoLaw | streambuf.h:65-107 | ... and so for every sequence of put, get and put-back |
| Ring.RunAnswers | streambuf.h:58-107 | In every run a put is accepted if and only if the items not given out, and the one that may go back, leave room, and a get brings the oldest item not given out, if there is one |
| Ring.GenericIntBuf.constructor | streambuf.h:50-54 | A zeroed ring is the empty queue |
| Ring.GenericIntBuf.Inc | streambuf.h:55-57 | Masking moves an index round the power-of-two storage |
| Ring.GenericIntBuf.IsFull | streambuf.h:58-60 | Full exactly when held plus queued items are one below the size |
| Ring.GenericIntBuf.AdvancePut | streambuf.h:71-76 | Moves the put index on and counts a wrap, so that puts stay accounted for |
| Ring.GenericIntBuf.Put | streambuf.h:65-82 | Appends if and only if held and queued items are below the size less one, never touching the held item, and counts wraps |
| Ring.GenericIntBuf.Get | streambuf.h:83-102 | Takes the oldest item and holds it, or reports the ring empty |
| Ring.GenericIntBuf.PutBack | streambuf.h:103-107 | Restores the held item, if any, at the head |
| Ring.GenericIntBuf.NumEntries | streambuf.h:108-120 | The counting loop ends with the length of the queue |
| Ring.GenericIntBuf.PutAccounting | streambuf.h:65-82 | From zeroed state, successful puts divided by the size give `nwrapped`, with remainder `iput` |
| Ring.GenericIntBuf.Perform | streambuf.h:50-107 | Every sequence of operations answers exactly as the bounded queue does |
| Pool.AllocNearest | acq200_bigbuf_alloc.c:179-201 | Fails exactly when all is reserved, changing nothing; else takes the first free entry cyclically after the cursor |
| Pool.ScanFinds | acq200_bigbuf_alloc.c:187-196 | A scan finds the first free entry within its steps, if there is one |
| Pool.TimesOutIff | acq200_bigbuf_alloc.c:187-196 | However often it slept, an allocation times out if and only if all entries of its last scan are reserved, and otherwise gets the first free one after where that began |
| Pool.TimeoutMeansExhaustedIff | acq200_bigbuf_alloc.c:187-196 | A time-out guarantees an exhausted pool if and only if no other caller has moved the cursor from where the allocation slept |
| Pool.AllocDoesNotSleep | acq200_bigbuf_alloc.c:187-196 | With an entry free an allocation takes the nearest without sleeping |
| Pool.TimeoutWithEntryFree | acq200_bigbuf_alloc.c:187-196 | A woken allocation that times out with an entry free |
| PoolRuns.PoolExclusive | acq200_bigbuf_alloc.c:148-221 | If callers free only what they hold, no item is held twice in any run and entries reserved at creation are never handed out |
| PoolRuns.RoundRobinFair | acq200_bigbuf_alloc.c:179-221 | Across any interleaving of frees, a free entry is handed out within as many allocations as it lies beyond the cursor, so within `max_entries` |
| PoolRuns.StrayFreeSharesItem | acq200_bigbuf_alloc.c:204-221 | If an item is freed while held, `max_entries` allocations later it has two holders, unless given back before |
| Pool.Allocator.ScanToCursor | acq200_bigbuf_alloc.c:187-189 | The loop up to the cursor finds what the scan finds |
| Pool.Allocator.Allocate | acq200_bigbuf_alloc.c:179-201 | Through any sleeps it ends as the sleeping allocation does, reserving what it hands out; a time-out leaves the pool as last found |
| Pool.Allocator.Release | acq200_bigbuf_alloc.c:204-221 | Frees the entry of the item; an unknown item changes nothing |
| DmaBuffer.CreateMappings | acq200_bigbuf_alloc.c:71-105 | Mapping i starts i quarters into the buffer, in both address spaces |
| DmaBuffer.MappingsTileBuffer | acq200_bigbuf_alloc.c:94-105 | For every order the mappings are equally long, pairwise disjoint, cover exactly the buffer and agree in va and pa offsets |
| DmaBuffer.MaskedOffsetTrueIffAligned | acq200.h:118-119 | The masked offsets sent to the card are the true ones if and only if the buffer is aligned to its length |
| DmaBuffer.LenIsPow2 | acq200.h:309-316 | An allocated buffer's length is a power of two divisible by four, so `PCI_WINDOW_MASK` is a mask |
| IrqMask.HexPrefix | acq200_if.c:356-362 | The longest hex prefix within the limit |
| IrqMask.DigitValues | acq200_utils.c:105-111 | Each hex digit, small or capital, has its value |
| IrqMask.DigitsOnly | acq200_if.c:359-361 | These are the hex digits, and no other character has a value |
| IrqMask.MasksIsBit | acq200_utils.c:105-151 | The nibble-wise reading of a mask text sets exactly the bits of the hex number it denotes |
| IrqMask.DepthNonNegative | acq200_utils.c:137-145 | No interrupt is ever enabled more often than disabled; one in the last mask is disabled at least once |
| IrqMask.EnabledIffNoRepeat | acq200_utils.c:137-145 | An interrupt's depth is just its bit in the last mask if and only if no two consecutive masks set it |
| IrqMask.ActiveIsLastNumber | acq200_utils.c:113-151 | The active set is the last mask's number, bit by bit |
| IrqMask.Device.StoreText | acq200_if.c:356-362 | Copying and truncating backwards leaves the longest hex prefix of the first NR_IRQS/4 characters |
| IrqMask.Device.ApplyNibble | acq200_utils.c:127-146 | The four-bit loop ends with the new nibble active, each interrupt disabled, enabled or left as its two bits say; above debug level 2 with nothing changed |
| IrqMask.Device.ApplyDigit | acq200_utils.c:122-148 | The digit at its place from the back is applied to its nibble and four interrupts, to no others |
| IrqMask.Device.ApplyMask | acq200_utils.c:113-151 | The nibbles become the text's digits from the back and each depth changes accordingly, or nothing changes above debug level 2 |
| IrqMask.Device.IntsMask | acq200_utils.c:113-151 | The active set and all depths are those of the history of masks with the new one added, unless the debug level is above 2 |
| IrqMask.Device.StoreImask | acq200_if.c:338-369 | Which texts act on the local APIC or the lock, and that any other becomes the mask of its hex prefix, unless the debug level is above 2 |
| FileRotation.IndexIsRemainder | htstream.c:176-181 | The k-th file opened has index k modulo `nfiles`+1 |
| FileRotation.RunConsistent | htstream.c:154-189 | Index, open file, files on disk and stop are all determined by the files opened so far |
| FileRotation.RunWrites | htstream.c:184-189 | What is written is the whole stream, or, one-shot, the part before the block in hand when the client stops |
| FileRotation.StopsShort | htstream.c:176-181 | A one-shot client stops exactly on opening file `nfiles`, which it leaves empty |
| FileRotation.RotationKeepsSuffix | htstream.c:154-189 | In rotation order the files hold what was written to the last `nfiles`+1 files opened, a suffix of what was written; all of it, one-shot or before wrapping |
| FileRotation.FilesBounded | htstream.c:157-164 | A file of several blocks is smaller than `maxfile`; no index exceeds `nfiles` |
| FileRotation.FilesFilled | htstream.c:157-164 | Over every run a new file is opened, and a one-shot client stops, only for a block that would bring the current file to `maxfile` |
| FileRotation.SizeIsBytes | htstream.c:158-159 | The position compared with `maxfile` is the number of bytes written to the file |
| FileRotation.FileInfo.Open | htstream.c:154-182 | Keeps the file if and only if the block leaves it below `maxfile`, else opens the next, truncated, wrapping or stopping |
| FileRotation.FileInfo.Work | htstream.c:184-189 | Opens as needed and appends the block to the open file |
| BridgeRead.ReadWithinBoundsIff | acq200_i2o.c:486-540 | A completed read returns no more than it asked for and its buffer holds if and only if the card answers with no more samples than requested |
| BridgeRead.FailuresLeaveNoTrace | acq200_i2o.c:512-524 | Interrupted and failed reads may be struck from any sequence without changing the data or the position the others reach |
| BridgeRead.ResultIsHandlers | acq200_i2o.c:512-524 | A read that gets a mapping returns what its handler's answer says: bytes, a fault or an interruption |
| BridgeRead.RefusedIff | acq200_i2o.c:458-490 | A read makes no request if and only if it gets no handler or mapping, or a mapping of no length, each with its own error |
| BridgeRead.StartsAtPositionIff | acq200_i2o.c:129-139 | A request starts at the position's sample if and only if the position is below 4 GB |
| BridgeRead.ReadsTile | acq200_i2o.c:486-540 | Any sequence of reads, failures among them, returns the file's samples without gap or overlap up to the position reached |
| BridgeRead.OpenFile.BridgeRead | acq200_i2o.c:458-540 | Request, result and new position of one read |
| BridgeRead.OpenFile.ReadFile | acq200_i2o.c:604-609 | Reading from the start piece by piece yields exactly the file up to the position |
| BusySemaphore.NextCounted | acq200.c:1028-1037 | Each step of opens, ioctls and releases keeps the semaphore plus its holder at 1, flags being the holder's or about to be cleared |
| BusySemaphore.AlwaysCounted | acq200.c:1130-1153 | ... over all interleavings on any number of paths, two ioctls on one file and the failed copy-in included |
| BusySemaphore.NextSoundIff | acq200.c:1036-1037 | A step leaves the holder with its flag or at work if and only if it clears no flag of a path that holds the semaphore with no ioctl at work |
| BusySemaphore.SoundIff | acq200.c:1036-1037 | The same over every run |
| BusySemaphore.RestBalancedIff | acq200.c:1146-1153 | With no ioctl in progress, value plus flagged paths is 1 if and only if the holder has its flag |
| BusySemaphore.AlwaysBalanced | acq200.c:1130-1153 | Over all interleavings without such a step, value plus flagged paths is 1 whenever no ioctl is in progress |
| BusySemaphore.HolderIff | acq200.c:1023-1037 | ... and a path holds the semaphore if and only if it has taken it, by an open or an ioctl, since it last gave it up or was released |
| BusySemaphore.LostForever | acq200.c:1146-1153 | After such a step no release ever gives the semaphore back |
| BusySemaphore.OneAtATimeStripsNone | acq200.c:1028-1037 | With one ioctl at a time on each file there is no such step |
| BusySemaphore.SecondIoctlLosesSemaphore | acq200.c:1033-1037 | A run: two ioctls on one file, the second failing to copy in; after the file's release the semaphore is still taken |
| BusySemaphore.MutualExclusion | acq200.c:1023-1043 | At most one ioctl is at work, and never while another path holds the semaphore |
| BusySemaphore.StuckUntilReleased | acq200.c:1033 | After a failed copy-in no ioctl enters and no file that takes the semaphore opens until that path is released |
| BusySemaphore.Device.Open | acq200.c:1130-1144 | Takes the semaphore where asked and flags the path; a signal leaves all unchanged |
| BusySemaphore.Device.EnterIoctl | acq200.c:1028-1033 | Takes the semaphore, and keeps it if the copy-in fails |
| BusySemaphore.Device.GiveUp | acq200.c:1036 | Gives the semaphore up, the flag being still set |
| BusySemaphore.Device.ClearFlag | acq200.c:1037 | Clears the flag, whoever holds the semaphore by then |
| BusySemaphore.Device.ReleasePath | acq200.c:1146-1153 | Gives the semaphore back exactly if the path's flag is set |

## Left out

Assumed of the surroundings:

- Copies to user space and DMA synchronisation always succeed (but for the copy-in of the streaming ioctl); the card echoes the request's id, and in the swinging-buffer protocol answers requests in the order they were sent.
- Time, signals, wake-ups, free inbound frames and the card's data are inputs of each step, free to vary.
- The kernel releases a file only when no call on it is in progress, and starts none on it afterwards.
- Each locked section, each "build, append, send" and each ring or pool operation is one atomic step; the code takes no lock around the pools and ring puts. In `HandlerRuns` a read or write, up to its wait, is one step: what others do while its mapping allocation sleeps, its handler being reserved and not yet listed, is left out.
- While the swinging buffers are used, no other path sends requests.
- No output files of an earlier run of the client exist.
- Packet counters, wrap counts, file positions and the file size are unbounded; the id counter, the client's 64-bit total and the 32-bit start position of a request are modelled at their width.

Modelled with less than the code does:

- SwingStream.Path.BufferAbQueue: sends always succeed and a handler is always free; what happens otherwise is `HandlerIds.FailedSendMisroutes` and `HandlerLinks.FaultedIff`.
- SwingStream.Path.FillDeviceStatus: the request serial numbers passed to the client in `sid` are left out.
- HandlerDevice.I2oDevice.BridgeWrite: file positions of writes are left out.
- HandlerDevice.I2oDevice.BridgeReadSubmit: the branch for a mapping of length zero, and reads into buffer A through a mapping on the caller's stack (`acq200_bridge_readAB`), are left out.
- HandlerDevice.I2oDevice.FinishWait: a release without a message, on a path that made no request, has no handlers to clean up and is left out.
- HandlerDevice.I2oDevice.QueuePlain: a release that finds no free handler tries again without end, which is no step of the model.
- HandlerLinks.FaultedIff: a fault ends only the call at hand, its handler staying reserved; what else the kernel does then is left out.
- HandlerLinks.UnlinkedTwiceIff: the handler list is a sequence, so a second unlinking of the same handler only raises a flag, where the kernel's list would be corrupted.
- MfaPath.Device.FinishFrame: what a response does to its handler is in `Handlers`; here it only decides whether the frame counts as discarded. The auxiliary-task branch (`acq200_i2o.c:395-400`) is left out: nothing sets its flag.
- IrqMask.Device.StoreImask: disabling the local APIC and taking the kernel lock are flags.
- FileRotation.FileInfo.Work: opens succeed and writes are complete.
- BusySemaphore.Device.Open: the second stage of opening a streaming file, which takes no semaphore and always succeeds, is left out.
- Pool.Allocator.Allocate: what other callers do to the pool during a sleep is an arbitrary new pool state.

Not modelled:

- The heartbeat, slot and minor-number decoding, and the mailbox commands with their waits: small case analyses or fixed register loops.
- The iterator over a 32-bit mask (`acq200_utils.c:29-103`): a fixed finite domain, apart from the nibble scheme that `store_imask` uses.
- Probing, sysfs, module parameters, mapping to user space and character-device registration: kernel plumbing.
- The client's option parsing, status line, and workers other than the file writer.
