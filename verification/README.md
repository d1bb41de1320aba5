# Verified models of the functional test drivers

This project models the hard parts of a set of Windows network test drivers in Dafny and proves what
they promise: the fake miniport (fnmp), the lightweight filter (fnlwf), the Invoke System Relay driver
with its service (isr), and the packet helper header that the tests use.

Kernel and NDIS primitives are abstract. A section under a spin lock is one atomic step; rundown
protection is a counter with a closed flag; a counted NBL queue is a sequence; an MDL chain is a sequence
of byte sequences; `IoSetCancelRoutine` is an atomic exchange. Allocation failures, unreadable caller
memory, clocks, NDIS results and the daemon's commands are parameters or events, and every statement holds
for all of them. Concurrent components are state machines whose steps interleave freely, and their theorems
hold in every reachable state. Handlers that change state in place are classes and array methods proved
equal to the functions that the theorems are about.

- Packets (`bytes`, `checksum`, `frames`, `builders`, `receiver`): RFC 1071 sums in 32-bit arithmetic, the UDP, TCP,
  ICMPv4 and ICMPv6 builders writing into a caller's buffer, and the TCP parser. The reference is a receiver
  defined from the bytes of a frame alone.
- Relay (`relay`, `relay_daemon`, `relay_driver`): the two-lock protocol between clients, the driver and
  the service process, with cancellation racing notification, and the daemon loop on top.
- Capture and ownership (`tally`, `data_filter`, `capture`, `filter_list`, `ledger`, `handlers`): the data
  filter, the list of filters, and the ledger of every NBL and injected frame over whole runs of both drivers.
- Injection and read-back (`bounce`, `net_buffer`, `read_back`, `injection`): pool ownership on every exit,
  frames built from client buffers, and the round trip back to the client.
- OIDs (`ring`, `oid`, `oid_protocol`, `oid_handlers`): the doubly linked splice on a heap, key parsing for both
  API versions, the pend/complete protocol, and the handlers up to what NDIS is told.
- Ports, RSS and time (`ports`, `exclusive`, `rss`, `clock`, `arithmetic`): port transitions that drop their lock,
  under one exclusive owner. Runs of the ports end where a cleanup's assertion fails.

## Where the code falls short of its own claims

For each of these a lemma gives a reachable state or an input on which the claim fails, and another the exact
condition, over all reachable states or all inputs, under which the code does meet it.

- A watchdog pass that finds two expired filters passes NULL contexts to the pool, because the context walk
  covers the whole shared flush queue (`Ledger.WatchdogFreesTwice`, `Ledger.WatchdogIsCleanIff`).
- The notifier's assertion that its pop succeeds can fail, harmlessly (`Relay.StaleNotification`,
  `Relay.PopSucceedsIff`), and so can the cancel routine's assertion about the pended IRP
  (`Relay.CancelFindsOtherIrp`, `Relay.CancelAssertionIff`).
- A request can be left outstanding for ever, with every later GET refused (`RelayDaemon.StrandedForever`):
  when its GET is cancelled while the notifier hands the request over (`RelayDaemon.CancelStrands`), or when the
  service goes away while it runs the command (`RelayDaemon.RestartStrands`). These are the only steps that do
  it (`RelayDaemon.StrandedIff`, `RelayDaemon.StrandedInRunIff`).
- A refused second exclusive open runs port cleanup against the owner's ports
  (`Exclusive.RefusedOpenMeetsTransition`); it leaves them alone if and only if there are none
  (`Exclusive.RefusedOpenSparesIff`), it meets one in transition exactly as `Ports.CleanupBreaksIff` says, and
  without refused opens no cleanup ever does (`Exclusive.BreaksOnlyIfRefused`).
- Pause can return while NBLs are still on their way to NDIS: uncaptured receives in the lightweight filter
  (`Ledger.PauseOvertakesIndication`) and sends that arrive while the miniport pauses
  (`Ledger.PauseOvertakesLateSend`). Everything is back if and only if no operation is passing NBLs on without
  protection (`Ledger.PauseIsCompleteIff`), and on the miniport that holds whenever nothing was sent after the
  pause began (`Ledger.MiniportPauseIsComplete`).
- The 16-bit length guards of the UDP and TCP builders never fire (`Frames.LengthFieldWraps`,
  `Frames.UdpLengthIsRightIff`, `Frames.TcpLengthIsRightIff`); UDP over IPv4 may carry a zero checksum, which
  RFC 768 reserves (`Frames.Udp4ZeroChecksumExample`, `Frames.Udp4ZeroChecksum`); TCP options that are not whole
  32-bit words are not parsed back (`Frames.UnalignedOptionsLost`, `Frames.ParseUndoesBuild`); the parser does
  not compare the TCP header length with the IP payload (`Frames.ParsedPayloadEscapes`,
  `Frames.ParsedPayloadInFrame`).
- The size that frame read-back computes and checks has 32 bits (`ReadBack.SizeWraps`,
  `ReadBack.SizeIsExactIff`).

## Model

| member | source | states |
|---|---|---|
| Checksum.FoldIsRep | inc/pkthlp.h:57-67 | two folds of any 32-bit sum reach 16 bits, so the truncation drops nothing, and give its ones' complement value (zero only for zero) |
| Checksum.PartialChecksum | inc/pkthlp.h:69-89 | for every buffer whose length fits 16 bits, even or odd, the 32-bit accumulator never wraps and the result is the RFC 1071 sum |
| Checksum.FullChecksum | inc/pkthlp.h:112-125 | the result is the complement of the ones' complement sum of the initial value and the buffer |
| Checksum.SumSplits | inc/pkthlp.h:69-89 | the sum of a concatenation cut at an even offset is the ones' complement sum of the parts |
| Checksum.SumIsByteSwapped | inc/pkthlp.h:69-89 | the sum over machine-order words is the byte swap of the sum over network-order words |
| Checksum.SealVerifies | inc/pkthlp.h:196-209 | storing the complement, computed while the field holds the pseudo-header sum, makes pseudo-header and segment sum to all ones, also when a zero is replaced by all ones |
| Frames.Ip4HeaderVerifies | inc/pkthlp.h:166-175 | every IPv4 header that the builders write sums to all ones |
| Frames.UdpLengthIsRightIff | inc/pkthlp.h:144-190 | with the segment length cut to 16 bits, the guard never fires and the IP length field of a UDP frame describes the datagram if and only if its length fits |
| Frames.TcpLengthIsRightIff | inc/pkthlp.h:239-285 | the same for TCP |
| Frames.LengthFieldWraps | inc/pkthlp.h:158-190 | the longest payload gets a wrong length field in both families |
| Frames.UdpFrameAccepted | inc/pkthlp.h:144-209 | every UDP frame whose length fits passes the receiver: header sum, length, transport sum, and over IPv6 a non-zero checksum field |
| Frames.Udp4ZeroChecksum | inc/pkthlp.h:196-209 | over IPv4 the stored checksum is zero if and only if the datagram with a zero field already sums to all ones |
| Frames.Udp4ZeroChecksumExample | inc/pkthlp.h:196-209 | a datagram for which that happens |
| Frames.TcpFrameAccepted | inc/pkthlp.h:239-310 | every TCP frame, with any options up to 40 bytes, whose length fits passes the receiver |
| Frames.Icmp4FrameAccepted | inc/pkthlp.h:330-363 | every ICMPv4 echo reply whose length fits passes the receiver |
| Frames.Icmp6PiecesAreContiguous | inc/pkthlp.h:421-436 | the sum of the six pieces, folded once, is the sum over the contiguous pseudo-header and message |
| Frames.Icmp6FrameAccepted | inc/pkthlp.h:383-436 | every ICMPv6 echo reply whose length fits passes the receiver |
| Frames.ParsedPayloadInFrame | inc/pkthlp.h:577-643 | on any frame a successful parse has its TCP header inside the frame, and its payload range is inside if and only if the header length does not exceed the IP payload |
| Frames.ParsedPayloadEscapes | inc/pkthlp.h:625-634 | a frame on which the reported payload length wraps |
| Frames.ParseUndoesBuild | inc/pkthlp.h:288-309 | for both families the parser finds the built header and recovers exactly the payload if and only if the options are whole 32-bit words |
| Frames.UnalignedOptionsLost | inc/pkthlp.h:288-309 | a frame with one option byte whose empty payload is not recovered |
| Receiver.RouteRead | inc/pkthlp.h:152-190 | from every frame a receiver reads the stations, the hosts and the protocol that the builder was given, in headers without options or fragments and with one hop to live |
| Receiver.UdpFrameRead | inc/pkthlp.h:192-200 | and from a UDP frame the ports, the length and the payload |
| Receiver.TcpFrameRead | inc/pkthlp.h:288-309 | and from a TCP frame the ports, sequence and acknowledgement numbers, flags, window, header length, options and payload |
| Receiver.Icmp4FrameRead | inc/pkthlp.h:336-360 | and from an ICMPv4 frame an echo reply with the payload |
| Receiver.Icmp6FrameRead | inc/pkthlp.h:389-436 | the same for ICMPv6 |
| Builders.PseudoHeaderChecksum | inc/pkthlp.h:91-110 | the four folded pieces are the sum over the pseudo-header of either family |
| Builders.WriteHeaders | inc/pkthlp.h:152-190 | the buffer starts with the link and IP headers and is otherwise unchanged |
| Builders.BuildUdp | inc/pkthlp.h:127-214 | succeeds exactly when the buffer is large enough, then holds the UDP frame and reports its size; bytes behind it, and on failure all bytes, are unchanged |
| Builders.BuildTcp | inc/pkthlp.h:216-314 | the same for TCP, with NULL options or payload framing the bytes already in the buffer |
| Builders.BuildIcmp4 | inc/pkthlp.h:316-367 | the same for ICMPv4, including zeroing |
| Builders.BuildIcmp6 | inc/pkthlp.h:369-441 | the same for ICMPv6, with the checksum accumulated in pieces |
| Builders.ParseTcpFrame | inc/pkthlp.h:577-643 | the walk with a running offset computes the parse that the theorems are about |
| Relay.NoLostWakeup | src/isr/sys/requestqueue.c:51-70 | in every interleaving, if a GET is pended and the queue is not empty, some push has inserted into an empty queue and not yet notified |
| Relay.CompletedExactlyOnce | src/isr/sys/service.c:36-47 | a GET is never completed twice, and until it is completed exactly one of dispatch thread, notifier and cancel routine is bound to complete it |
| Relay.NeverBothPending | src/isr/sys/service.c:138-155 | an IRP and an outstanding request are never pending together, so a request is never overwritten |
| Relay.RequestsConserved | src/isr/sys/requestqueue.c:96-106 | accepted requests are, in push order, the posted ones, the outstanding one and the queue; ids are distinct and none is posted twice |
| Relay.QuietAfterDeregister | src/isr/sys/requestqueue.c:158-210 | after the service deregisters every push is before its insertion or done, and after the client does no result is being delivered |
| Relay.PopSucceedsIff | src/isr/sys/service.c:79-82 | the notifier's pop succeeds if and only if the push accepted last has not had its request posted; when it fails the notifier's own request was already taken and posted |
| Relay.StaleNotification | src/isr/sys/service.c:79-82 | a run in which the notifier finds an IRP but no request |
| Relay.CancelAssertionIff | src/isr/sys/service.c:36-41 | the cancel routine finds its IRP pended if and only if no notifier gave the IRP a request |
| Relay.CancelMeetsNotify | src/isr/sys/service.c:83-92 | a run in which the notifier holds an IRP whose cancel routine was already called |
| Relay.CancelFindsOtherIrp | src/isr/sys/service.c:36-41 | a run in which the cancel routine's assertion fails |
| Relay.StepKeepsInv | src/isr/sys/service.c:16-261 | every step of push, notify, get, cancel, post and registration keeps the invariant behind these results |
| Relay.CompletionSays | src/isr/sys/service.c:105-201 | a GET completed with success carries a request, a refused one carries none, and only a cancelled one is completed as cancelled |
| Relay.DroppedIff | src/isr/sys/requestqueue.c:111-140 | a step drops a posted result if and only if it is that result's acquire and finds the client unregistered or closing; request and result never change and a fate is final |
| Relay.DroppedInRunIff | src/isr/sys/requestqueue.c:123-128 | a result that was not dropped before a run is dropped at its end if and only if such a step occurred in it |
| Relay.NoneDroppedWhileLive | src/isr/sys/requestqueue.c:123-135 | in every run in which a live client does not begin to close no result is dropped |
| Relay.ResultDelivered | src/isr/sys/requestqueue.c:130-135 | from every reachable state a taken result whose client is live can be delivered, with the request and result that were posted and nothing else changed |
| RelayDaemon.PostFindsItsRequest | src/isr/svc/main.cpp:100-140 | whenever the loop posts, the driver has an outstanding request, it is the one whose command was run, and the post takes it |
| RelayDaemon.PostDelivers | src/isr/svc/main.cpp:118-140 | from every reachable state in which a command has run and the client is live, posting leads to the delivery of that command's request with its result |
| RelayDaemon.StrandedIffCancelled | src/isr/sys/service.c:87-92 | the notifier's exchange strands the request if and only if the cancel routine was already called; otherwise the GET delivers it |
| RelayDaemon.StrandedForever | src/isr/sys/service.c:144-149 | in every continuation a stranded request stays outstanding and is never posted |
| RelayDaemon.StrandedIff | src/isr/sys/service.c:76-95 | over every step of driver and service, a request becomes stranded exactly when the notifier pops it for an IRP whose cancel routine was taken, when that routine is taken between the notifier's pop and exchange, or when the service restarts while it runs the command |
| RelayDaemon.StrandedInRunIff | src/isr/svc/main.cpp:88-142 | a request is stranded at the end of a run if and only if such a step occurred in it |
| RelayDaemon.CancelStrands | src/isr/sys/service.c:83-92 | a run of the whole system in which stopping the service strands a request |
| RelayDaemon.RestartStrands | src/isr/svc/main.cpp:118-122 | a run in which a restart during a command strands its request |
| RelayDriver.Driver.IrpGet | src/isr/sys/service.c:105-201 | invalid for a short output, refused while an IRP or a request is out, else takes the oldest request, else pends unless it was cancelled before; and is a run of the protocol |
| RelayDriver.Driver.IrpPost | src/isr/sys/service.c:203-261 | invalid for a short input, else takes the outstanding request exactly when the id is its own, and then the client gets the result unless it is gone or going; and is a run of the protocol |
| RelayDriver.Driver.CompleteRequest | src/isr/sys/requestqueue.c:111-140 | the result is delivered exactly if the client is registered and not closing, the client's reference is given back, and it is a run of the protocol |
| RelayDriver.Driver.CancelGet | src/isr/sys/service.c:16-47 | the IRP is completed as cancelled and is no longer pended, another pended IRP stays; and is a run of the protocol |
| RelayDriver.Driver.Register | src/isr/sys/requestqueue.c:140-196 | the side is registered with a fresh rundown, the other side is as it was; and is a run of the protocol |
| RelayDriver.Driver.Deregister | src/isr/sys/requestqueue.c:158-210 | with no callback running the side ends unregistered and the other side is as it was; and is a run of the protocol |
| RelayDriver.Driver.PushRequest | src/isr/sys/requestqueue.c:27-83 | accepted exactly when a service is registered; joins the tail, or goes to the pended GET when the queue was empty, which is completed unless its cancel routine was taken; and is a run of the protocol |
| RelayDriver.Driver.RequestAvailable | src/isr/sys/service.c:65-103 | with an IRP pended and a request queued, hands over the oldest request and completes the IRP unless its cancel routine was taken; otherwise changes nothing |
| RelayDriver.Driver.PopRequest | src/isr/sys/requestqueue.c:85-109 | removes and returns the oldest request, if any |
| DataFilters.DataFilter.FilterNb | src/common/lib/fnio/filter.c:120-140 | a frame matches exactly when every masked bit that it has equals the pattern's |
| DataFilters.DataFilter.FilterNbl | src/common/lib/fnio/filter.c:142-182 | an NBL joins the tail of the queue exactly when some buffer matches and its context was allocated; the status says which failed |
| DataFilters.DataFilter.GetFilteredFrameNb | src/common/lib/fnio/filter.c:184-240 | returns the sub-index-th matching buffer of the index-th captured NBL, NOT_FOUND exactly when there is none |
| DataFilters.SubthIsUnique | src/common/lib/fnio/filter.c:216-233 | at most one buffer is the sub-index-th matching one |
| DataFilters.FirstSubIndexFound | src/common/lib/fnio/filter.c:155-177 | sub-index 0 is found for exactly the indices of captured NBLs |
| DataFilters.DataFilter.DequeueFilteredFrame | src/common/lib/fnio/filter.c:417-446 | moves what the 32-bit counter picks to the return queue and keeps the rest; NOT_FOUND exactly when nothing was picked |
| DataFilters.DequeueRemovesOne | src/common/lib/fnio/filter.c:417-446 | for every queue that the counter can index, exactly the NBL at the index moves, the others keep their order, and an index past the end changes neither queue |
| DataFilters.DataFilter.FlushDequeuedFrames | src/common/lib/fnio/filter.c:462-472 | the return queue is appended to the flush queue, and the context of every NBL on that whole queue is freed |
| DataFilters.DataFilter.FlushAllFrames | src/common/lib/fnio/filter.c:474-485 | the same for both queues |
| DataFilters.FreeFlushedFrameContexts | src/common/lib/fnio/filter.c:448-460 | every NBL of the chain loses its context and each pointer goes to the pool once |
| DataFilters.DataFilter.IsWatchdogExpired | src/common/lib/fnio/filter.c:487-517 | true exactly when some NBL of either queue is older than five seconds by the clock read for that queue |
| Capture.Choice | src/mp/sys/tx.c:102-130 | the first listed filter that matches the NBL and gets a context for it |
| Capture.AfterAt | src/lwf/sys/rx.c:355-361 | after any chain each filter's queue has grown at its tail by exactly the arrivals whose first accepting filter it is, in order, and nothing else changed |
| Capture.ChoiceAfter | src/lwf/sys/rx.c:60-74 | earlier NBLs of a chain do not change which filter takes a later one |
| Capture.ChainConserved | src/lwf/sys/rx.c:355-361 | for every identity, what the filters gained plus what is passed on is what the chain had |
| Capture.ClearedConserves | src/mp/sys/tx.c:15-33 | clearing a handle's filter hands back exactly what that filter held |
| Capture.SweepCleanIff | src/mp/sys/tx.c:193-207 | a watchdog pass frees only contexts if and only if at most one filter has expired |
| Capture.SweepConserves | src/mp/sys/tx.c:193-214 | however many filters expire, every NBL is afterwards in a filter that stays or, once, in the flush queue |
| Capture.SweepKeeps | src/lwf/sys/rx.c:395-405 | the filters that stay are exactly the unexpired ones |
| FilterLists.FilterList.FilterNbl | src/mp/sys/tx.c:102-130 | the filter objects are offered the NBL in order until one captures it |
| FilterLists.FilterList.FilterChain | src/mp/sys/tx.c:163-169 | the loop leaves the filters as the partition says and returns the uncaptured NBLs in order |
| FilterLists.FilterList.SetFilter | src/mp/sys/tx.c:217-280 | replaces or clears the handle's filter, hands back what it held, and links a new filter at the tail |
| FilterLists.FilterList.Dequeue | src/mp/sys/tx.c:349-382 | the handle's own filter dequeues at the index, every other filter is as it was; NOT_FOUND exactly when there is none or nothing was picked |
| FilterLists.FilterList.FlushDequeued | src/mp/sys/tx.c:384-425 | the handle's own filter hands back what was dequeued from it, with one context each, and every other filter is as it was |
| FilterLists.FilterList.Watchdog | src/mp/sys/tx.c:182-215 | detaches exactly the expired filters into one flush queue |
| Ledger.OwnedOnce | src/mp/sys/tx.c:135-180 | in every run an NBL goes back to NDIS at most once each time it is given, and until then it is in exactly one queue or operation |
| Ledger.FramesFreedOnce | src/mp/sys/rx.c:14-29 | in every run an injected frame is freed at most once each time it is allocated, and until then it is in exactly one queue, operation, or with NDIS |
| Ledger.CountIsExact | src/lwf/sys/rx.c:352-366 | the rundown counts captured NBLs, frames with NDIS and protection still owed, if and only if the declared counts added up; for the miniport always |
| Ledger.HonestCounts | src/lwf/sys/rx.c:346-352 | when every declared count is the chain's length the counts add up |
| Ledger.PauseWaits | src/mp/sys/shared.c:37-55 | when pause can return no filter holds an NBL, NDIS has no injected frame and no operation owes protection |
| Ledger.ReleaseCovered | src/mp/sys/tx.c:35-45 | no release takes more than the count has |
| Ledger.PausedStaysEmpty | src/lwf/sys/filter.c:288-328 | from the end of a pause to the restart the rundown stays closed at zero and nothing is protected |
| Ledger.PauseOvertakesIndication | src/lwf/sys/rx.c:363-376 | a run in which pause returns before uncaptured NBLs are indicated |
| Ledger.PauseOvertakesLateSend | src/mp/sys/tx.c:156-159 | a run in which the miniport's pause returns before a send that came after its beginning is completed |
| Ledger.PauseIsCompleteIff | src/mp/sys/shared.c:37-55 | for both drivers, when pause can return NDIS has every NBL back if and only if no operation is passing NBLs on without protection |
| Ledger.MiniportPauseIsComplete | src/mp/sys/tx.c:156-159 | in every run without sends after a pause began, the miniport's pause returns with every NBL back |
| Ledger.FlushIsClean | src/mp/sys/tx.c:384-425 | in every run clearing, replacing and flushing free a context for each NBL and never a NULL one |
| Ledger.WatchdogIsCleanIff | src/mp/sys/tx.c:182-215 | in every reachable state a watchdog pass does so if and only if at most one filter has expired |
| Ledger.WatchdogFreesTwice | src/lwf/sys/rx.c:381-412 | a reachable state in which it does not |
| Ledger.CapturedReadable | src/common/lib/fnio/filter.c:184-240 | in every run sub-index 0 of every captured NBL can be read |
| Ledger.Captures | src/mp/sys/tx.c:135-180 | an NBL that NDIS owns, sent to a running miniport, ends in the first filter that accepts it |
| Ledger.StepKeepsInv | src/mp/sys/rx.c:142-276 | every step of send, receive, filter, dequeue, flush, watchdog, close, injection, return, pause and restart keeps the ledger |
| Handlers.Datapath.SendNetBufferLists | src/mp/sys/tx.c:132-180 | captured NBLs stay protected, the others are completed in order, and with the rundown closed the whole chain is completed; filters, log and count are those of the run in `ChainIsRun` |
| Handlers.Datapath.ReceiveNetBufferLists | src/lwf/sys/rx.c:329-379 | the same for receive, with protection taken for the declared count |
| Handlers.ChainIsRun | src/lwf/sys/rx.c:329-379 | and what these handlers leave is what a run of the ledger leaves |
| Handlers.Datapath.SendNetBufferListsComplete | src/lwf/sys/tx.c:209-243 | own frames are freed and release one unit each; other drivers' NBLs are passed on in order |
| Ledger.HandlerIsRun | src/mp/sys/tx.c:132-180 | a send or receive that nothing interrupts, from any state in which NDIS owns the chain, is a run of the ledger with exactly the held NBLs, completions and count that the handlers compute |
| Ledger.FilterIsRun | src/mp/sys/tx.c:182-280 | the filter, dequeue and flush IOCTLs and a watchdog pass, uninterrupted from any state, are runs in which what left the filters is completed and its protection given back |
| Ledger.InjectIsRun | src/mp/sys/rx.c:217-276 | a flush of injected frames, uninterrupted from any state: on a running adapter NDIS has them all under protection and none is freed; in the low-resources form, or with the rundown closed, they are freed and the count is as it was |
| Ledger.ReturnIsRun | src/mp/sys/rx.c:142-162 | frames that NDIS returns are freed and their protection given back, in the lightweight filter frame by frame |
| Ledger.OpenIsRun | src/mp/sys/rx.c:41-69 | an injecting handle starts with an empty queue |
| Ledger.EnqueueIsRun | src/mp/sys/rx.c:118-128 | an accepted frame joins the tail of its queue |
| Ledger.CloseIsRun | src/mp/sys/rx.c:31-39 | closing a handle frees what is on its queue |
| Ledger.PauseIsRun | src/mp/sys/shared.c:37-55 | pause closes the rundown and returns once it has run down |
| Handlers.SentPartition | src/lwf/sys/tx.c:227-236 | the two sides together are the completed NBLs, each once, and an NBL is on the side that its origin says |
| Handlers.Datapath.IrpFilter | src/lwf/sys/rx.c:133-194 | what the old filter held is handed on and its protection given back |
| Handlers.Datapath.WatchdogTimeout | src/lwf/sys/rx.c:381-412 | what the expired filters held is handed on and its protection given back |
| Handlers.Datapath.IrpDequeue | src/mp/sys/tx.c:349-382 | the handle's filter dequeues at the index; NOT_FOUND exactly when there is none or nothing was picked |
| Handlers.Datapath.IrpFlushDequeued | src/mp/sys/tx.c:384-425 | what the handle had dequeued is completed and its protection given back; NOT_FOUND exactly when there was nothing |
| Handlers.FlushIsRun | src/mp/sys/tx.c:384-425 | and that is a run of the ledger |
| Handlers.Datapath.IrpFlush | src/mp/sys/rx.c:165-276 | the status in every case; the queue is emptied and its frames are with NDIS under protection, or freed in the low-resources form or with the rundown closed, exactly if the options are supported |
| Handlers.InjectIsRun | src/lwf/sys/tx.c:130-190 | and that is a run of the ledger |
| Handlers.Datapath.ReturnNetBufferLists | src/mp/sys/rx.c:142-162 | frames that NDIS returns are freed and their protection given back |
| Handlers.ReturnIsRun | src/lwf/sys/tx.c:209-243 | and that is a run of the ledger |
| Handlers.Datapath.CloseQueue | src/mp/sys/rx.c:31-39 | the close frees what the handle still has queued |
| Bouncing.Bounce.Copy | src/common/lib/bounce/bounce.c:48-100 | a block is owned afterwards exactly on success with a positive size, and holds what the caller's memory held; every failure leaves the pool as it was |
| Bouncing.Bounce.Release | src/common/lib/bounce/bounce.c:38-46 | ownership moves to the caller |
| Bouncing.EnqueueIn.CleanupEnqueue | src/common/lib/fnio/ioctlbounce.c:8-22 | frees each bounced buffer and the array once, and nothing else |
| Bouncing.EnqueueIn.BounceEnqueue | src/common/lib/fnio/ioctlbounce.c:24-125 | the status is that of the first check or copy to fail; on success one block per buffer and one for the array were taken and hold the caller's bytes, on failure none is left; a caller's pointer is never freed |
| Bouncing.CheckBuffer | src/common/lib/fnio/ioctlbounce.c:83-96 | the 32-bit checks on one buffer give the status that `BufferStatusIs` describes |
| Bouncing.BufferStatusIs | src/common/lib/fnio/ioctlbounce.c:83-96 | a buffer is accepted if and only if it is not empty and holds its data range; it overflows exactly if the range ends beyond 32 bits, and is invalid exactly if it is empty or the range ends outside it |
| Bouncing.EnqueueSucceedsIff | src/common/lib/fnio/ioctlbounce.c:44-108 | a frame is bounced if and only if its parameters are all there, it has a buffer, every buffer is accepted, and every copy can be made |
| Bouncing.FirstRefusalDecides | src/common/lib/fnio/ioctlbounce.c:76-108 | otherwise the first buffer that is not bounced decides the status, by its lengths before its memory |
| Bouncing.FilterIn.BounceFilter | src/common/lib/fnio/ioctlbounce.c:143-201 | the status is that of the first failure; pattern and mask are both bounced, with the caller's bytes, or neither is left |
| Bouncing.FilterSucceedsIff | src/common/lib/fnio/ioctlbounce.c:158-186 | a filter is bounced if and only if its parameters are all there and both copies, if any, can be made |
| NetBuffers.AddBuffer | src/common/lib/fnio/enqueue.c:50-107 | one round adds one MDL with the buffer's bytes; at every exit length, trailing bytes and offset add up to the bytes of all MDLs |
| NetBuffers.FrameBegin | src/common/lib/fnio/enqueue.c:17-120 | the status is that of the first buffer, from the last, that is out of place or gets no MDL; a frame is built exactly for contiguous buffer lists, its data is the concatenated data ranges, and every other exit leaves the pools as they were |
| NetBuffers.FrameSucceedsIff | src/common/lib/fnio/enqueue.c:50-107 | a frame is built if and only if its buffers are contiguous and each gets an MDL with an address |
| NetBuffers.LastRefusalDecides | src/common/lib/fnio/enqueue.c:50-84 | otherwise the last buffer that is out of place or gets none decides the status |
| NetBuffers.NetBuffer.FrameReturn | src/common/lib/fnio/enqueue.c:131-144 | frees every MDL that was built and the list |
| NetBuffers.AllReleasedIff | src/common/lib/fnio/enqueue.c:140-142 | advancing frees all MDLs if and only if it passes every byte |
| ReadBack.Measure | src/common/lib/fnio/filter.c:274-285 | fails exactly for more than 255 MDLs, reports the true size modulo 2 to the 32, and so the true size if and only if it fits 32 bits |
| ReadBack.SizeIsExactIff | src/common/lib/fnio/filter.c:287-296 | every output that passes the size check has room for the copy if and only if the copy ends within the size modulo 2 to the 32 |
| ReadBack.SizeWraps | src/common/lib/fnio/filter.c:277-296 | a chain of one MDL with a computed size of zero, whose copy an accepted output has no room for |
| ReadBack.GetFilteredFrame | src/common/lib/fnio/filter.c:242-356 | the status in every case, including when the copy would leave the output; on success the buffers lie in order, disjoint, behind the descriptors and inside the output, and together hold the frame's data |
| ReadBack.LayoutOrdered | src/common/lib/fnio/filter.c:313-348 | the descriptors' buffers do not overlap and end after exactly the leading and data bytes |
| ReadBack.Relocate | inc/fnmpapi.h:237-249 | after adding the address of its buffer the client reads what the driver laid out |
| ReadBack.RoundTrip | src/common/lib/fnio/filter.c:298-351 | building, reading and relocating any accepted segmentation yields the concatenation of the original data ranges, for every output of the true size |
| Injection.Injector.IrpEnqueue | src/mp/sys/rx.c:71-140 | the status is that of the first of bouncing, building, RSS queue, coalescing and queue length checks to fail; every path frees all bounce buffers, a refused frame leaves the pools and the queue alone, an accepted one is at the tail with the client's data |
| Injection.InjectSucceedsIff | src/mp/sys/rx.c:82-128 | a frame is queued if and only if nothing runs out, each of its buffers holds its data, they join up, its RSS queue exists, a coalesced frame has a segment, and the queue is not full |
| Injection.RefusalSays | src/mp/sys/rx.c:95-128 | when nothing runs out, the status in every case: too small, overflow by the first refused buffer, invalid, overflow of the queue, success |
| Rings.AppendTailList | src/mp/sys/oid.c:807 | appends one ring, head included, to the tail of another |
| Rings.RemoveEntryList | src/mp/sys/oid.c:808 | unlinks an entry and leaves the rest a ring in order |
| Rings.Splice | src/mp/sys/oid.c:805-810 | moves exactly the source's entries, in order, to the local ring and leaves the source an empty ring, also when it was empty |
| Rings.Drain | src/mp/sys/oid.c:814-823 | removing from the head visits exactly the entries in order |
| Oids.ParseKeys | src/mp/sys/oid.c:874-927 | for both API versions the keys are accepted exactly when the input is a positive whole number of keys and each has a valid type and interface; old keys mean port 0 |
| Oids.KeysDecoded | src/mp/sys/oid.c:903-918 | decoding undoes the client's layout of any keys; a key of the old version keeps all but its port |
| Oids.OidAdapter.FilterOid | src/mp/sys/oid.c:104-146 | a request is pended, at the tail of its interface's list, exactly when it matches a key and an entry could be allocated |
| Oids.OidAdapter.InstallKeys | src/mp/sys/oid.c:929-944 | a filter can be set only when none is |
| Oids.OidAdapter.GetRequest | src/mp/sys/oid.c:986-1083 | finds the oldest request of the interface exactly when the key names it, and copies out its buffer, or reports its length for an empty output, or finds the output too small; the unsupported-type branch is unreachable |
| Oids.OidAdapter.TakeRequest | src/mp/sys/oid.c:1145-1208 | removes that request exactly when the key names it, its buffer has room, by the output length for a method, the information could be read and PENDING carries none; the unsupported-type branch is unreachable |
| Oids.OidAdapter.CompleteRequest | src/mp/sys/oid.c:1208-1235 | the removed request carries the caller's bytes and count, a set request the count alone, and the rest of its buffer is unchanged |
| Oids.OidAdapter.ClearFilter | src/mp/sys/oid.c:801-812 | keys and lists become empty and the lists are returned in order |
| Oids.OidAdapter.WatchdogIsExpired | src/mp/sys/oid.c:826-855 | true exactly when a pended request is older than five seconds |
| OidProtocol.CompletedOnce | src/mp/sys/oid.c:1206-1235 | in every run a request whose handler returned PENDING is on one list, with one operation, or completed, and is completed at most once per arrival |
| OidProtocol.CompletionsAreFinal | src/mp/sys/oid.c:715-771 | no completion carries PENDING, since processing on completion leaves the filter out |
| OidProtocol.CompletionSays | src/mp/sys/oid.c:728-753 | in every run each completion made by the complete IOCTL is of the request that it took, with the status that it named if that was final; one that named PENDING, the watchdog and the close complete with what processing without the filter returned |
| OidProtocol.TakeAnsweredOnce | src/mp/sys/oid.c:1206-1235 | in every run each request that a complete IOCTL took is with that IOCTL or has been completed by it, once |
| OidProtocol.FirstInFirstOut | src/mp/sys/oid.c:135-138 | per interface requests leave the list in arrival order |
| OidProtocol.PendedMatches | src/mp/sys/oid.c:121-139 | requests are pended only while the live handle's filter is set, each matches a key, and only query, set and method requests are ever pended |
| OidProtocol.NothingPendedWhenClosed | src/mp/sys/exclusive.c:72-97 | once the handle closes no key is left and no request is pended |
| OidProtocol.ClosedMeansFlushed | src/mp/sys/exclusive.c:83-91 | once the adapter is free for another handle the flush of the last one is over |
| OidProtocol.PendingMeansListed | src/mp/sys/oid.c:104-146 | over the log of answers, each arrival of a request is finished by its handler or by one completion and never by both; those answered PENDING and not completed are on a list or with an operation, and at most one arrival is unfinished |
| OidProtocol.AnswerPends | src/mp/sys/oid.c:131-138 | a handler answers PENDING exactly when it links the request, and then the kind is query, set or method |
| OidProtocol.StepKeepsInv | src/mp/sys/oid.c:788-824 | every step of arrival, IOCTL, completion, watchdog, open and close keeps the protocol's invariant |
| OidProtocol.ArriveIsRun | src/mp/sys/oid.c:622-660 | a request handler that nothing interrupts is a run with the answer and the lists that the handler computes |
| OidProtocol.SetFilterIsRun | src/mp/sys/oid.c:858-957 | and so is the filter IOCTL, which sets exactly admissible keys and only when none are set |
| OidProtocol.CompleteIsRun | src/mp/sys/oid.c:1086-1241 | and the complete IOCTL, which takes the request and completes it with the status that it named unless that is PENDING |
| OidProtocol.WatchdogIsRun | src/mp/sys/exclusive.c:8-18 | and the watchdog, which clears the keys and completes every pended request, regular ones first and in order, exactly if one is past its time |
| OidProtocol.CloseIsRun | src/mp/sys/exclusive.c:72-97 | and the close, which does the same exactly if the handle set the filter, and frees the adapter for another |
| OidHandlers.Miniport.RequestHandler | src/mp/sys/oid.c:622-660 | the handler's answer by kind, filter and memory, and the lists afterwards |
| OidHandlers.Miniport.IrpSetFilter | src/mp/sys/oid.c:858-957 | succeeds exactly if the keys decode and are admissible, there is memory, and none are set; then they are set and the handle owns the filter |
| OidHandlers.Miniport.CompleteOid | src/mp/sys/oid.c:714-771 | completes towards NDIS with the given status, or for PENDING with what processing returns, NOT_SUPPORTED for other kinds |
| OidHandlers.Miniport.IrpCompleteRequest | src/mp/sys/oid.c:1086-1241 | takes and completes as in `CompleteIsRun` |
| OidHandlers.Miniport.ClearFilterAndFlush | src/mp/sys/oid.c:788-824 | no key and no request is left, and every request is completed once, regular ones first and in order |
| OidHandlers.Miniport.WatchdogTimeout | src/mp/sys/exclusive.c:8-18 | that happens exactly if a request is past its time |
| OidHandlers.Miniport.Cleanup | src/mp/sys/exclusive.c:72-97 | and at the close exactly if the handle set the filter |
| Ports.NumbersDistinct | src/mp/sys/port.c:137-140 | in every interleaving, up to the first failed assertion, port numbers are distinct |
| Ports.AllocatedNumberIsNew | src/mp/sys/port.c:128-139 | the number that an allocation is about to link is not linked |
| Ports.TransitionIsOwned | src/mp/sys/port.c:247-277 | while the lock is dropped the port stays linked in the state its owner gave it, and no other transition is in flight for it |
| Ports.TransitionEnds | src/mp/sys/port.c:265-283 | in every reachable state, when the owner takes the lock again its port is Activated exactly if it was being activated and NDIS agreed or was being deactivated and NDIS refused, else Allocated, and no other port changes |
| Ports.ActivateIsRun | src/mp/sys/port.c:210-288 | an uninterrupted activation is a run with exactly the outcome of `PortTable.Move` |
| Ports.DeactivateIsRun | src/mp/sys/port.c:290-342 | and so is a deactivation |
| Ports.AllocateIsRun | src/mp/sys/port.c:101-157 | an uninterrupted allocation links the new number at the tail |
| Ports.FreeIsRun | src/mp/sys/port.c:159-208 | a free unlinks and releases the port exactly when it is linked, allocated and NDIS agrees |
| Ports.CleanupIsRun | src/mp/sys/port.c:395-423 | a cleanup that starts with no transition in flight ends with no port linked and exactly the linked numbers released |
| Ports.PortIsActivated | src/mp/sys/port.c:270-277 | a run in which a port is activated |
| Ports.CleanupBreaksIff | src/mp/sys/port.c:405-415 | in every reachable state a cleanup step, first or after a deactivation, meets a port in transition if and only if, leaving out the port it is itself deactivating, the first port that is more than allocated is in transition |
| Exclusive.RefusedOpenMeetsTransition | src/mp/sys/exclusive.c:165-183 | a run in which the cleanup of a refused open finds the owner's port being activated |
| Exclusive.RefusedOpenSparesIff | src/mp/sys/exclusive.c:178-183 | the first step of that cleanup leaves the owner's ports as they are if and only if none is linked |
| Exclusive.BreaksOnlyIfRefused | src/mp/sys/exclusive.c:72-115 | in every run a cleanup finds a port in transition only if an open was refused |
| Exclusive.OwnerStartsEmpty | src/mp/sys/exclusive.c:159-175 | without refused opens every owner starts with no port and no request in flight |
| Exclusive.CloseEnds | src/mp/sys/exclusive.c:99-115 | without refused opens the owner's cleanup ends with no port linked and exactly the linked numbers given back |
| Exclusive.CloseIsRun | src/mp/sys/exclusive.c:72-115 | without refused opens an owner with no request outstanding can close: its ports are freed, exactly their numbers are given back, and the adapter can be opened again |
| Exclusive.RunOfPorts | src/mp/sys/exclusive.c:45-59 | the ports of a run under exclusive handles are those of a run of the ports, so the results about those hold |
| Ports.CleanupEnds | src/mp/sys/port.c:395-423 | with no other transition in flight cleanup reaches its end, leaves no port and has given exactly the linked numbers back to NDIS |
| Ports.StepKeepsInv | src/mp/sys/port.c:51-342 | every step of allocate, free, activate, deactivate and cleanup keeps the invariant |
| Ports.PortTable.FindPortEntry | src/mp/sys/port.c:22-41 | the first port with the number, if any |
| Ports.PortTable.Move | src/mp/sys/port.c:290-342 | a port moves between two states exactly when it is linked, in the first state, and NDIS agrees; otherwise nothing changes |
| Ports.PortTable.ActivatePort | src/mp/sys/port.c:210-288 | activates exactly when the port is linked, allocated and NDIS agrees, and is a run of the ports |
| Ports.PortTable.DeactivatePort | src/mp/sys/port.c:290-342 | the same for deactivation |
| Ports.PortTable.AllocatePort | src/mp/sys/port.c:101-157 | links the number that NDIS gave, if it gave one, and is a run of the ports |
| Ports.PortTable.FreePort | src/mp/sys/port.c:159-208 | unlinks and releases the port exactly when it is linked, allocated and NDIS agrees, and is a run of the ports |
| Ports.PortTable.PortCleanup | src/mp/sys/port.c:395-423 | ends with no port linked and exactly the linked numbers released, and is a run of the ports |
| Rss.FirstsAreFirst | src/mp/sys/rss.c:108-130 | every assigned position is the first appearance of its processor |
| Rss.FirstsCover | src/mp/sys/rss.c:108-130 | every processor of the table has a position |
| Rss.ProcessorsDistinct | src/mp/sys/rss.c:108-130 | different queues get different processors |
| Rss.FirstAppearance | src/mp/sys/rss.c:128-143 | the queue written at an index stands for the processor that appears at that rank: its hash is made from the first place of that processor, and earlier queues have earlier places and other processors |
| Rss.ProcessorHasQueue | src/mp/sys/rss.c:128-143 | every processor of the table has a queue |
| Rss.QueuesAssigned | src/mp/sys/rss.c:132-143 | as many queues are assigned as there are different processors, and the others are cleared |
| Rss.MaskGivesPosition | src/mp/sys/rss.c:127 | masking the stamped 32-bit hash to any power-of-two table size gives the position back |
| Rss.HashLeadsToProcessor | src/mp/sys/rx.c:95-104 | the hash stamped on a queue selects a table entry that names the processor on which a flush on that queue runs |
| Rss.RssAdapter.SetRss | src/mp/sys/rss.c:70-145 | with at most 64 processors every queue is assigned in first-appearance order and the rest are zeroed; with more, or when RSS is being disabled, no queue changes |
| Clock.ConversionIsExact | test/cxplat/inc/cxplat.h:98-102 | the split 64-bit computation is the true quotient, rounded down, for every frequency up to 2^32 - 10^6 whenever the quotient fits 64 bits |

## Left out

- ReadBack.GetFilteredFrame: where the copy would leave the output the model stops with Overrun; what the code does there is not modelled, and `SizeIsExactIff` states when that can be.
- ReadBack.RoundTrip: read-back counts MDLs in 8 bits, so frames of more than 255 MDLs are refused rather than read.
- Frames.Icmp4FrameAccepted: the size of the ICMP header structure is a parameter, because its definition is not part of this repository.
- Ledger.CountIsExact: casts of NBL counts to 32 bits are not modelled; counts are unbounded.
- NetBuffers.AddBuffer: the 32-bit data length of a NET_BUFFER is unbounded here; NDIS is taken not to grow one beyond its length field.
- NetBuffers.FrameBegin: the same 32-bit data length is unbounded.
- DataFilters.DataFilter.IsWatchdogExpired: timestamps do not wrap at 64 bits.
- Relay.RequestsConserved: the 64-bit unique id does not wrap.
- NetBuffers.NetBuffer.Retreat: NDIS is modelled for the two ways in which the driver moves a data start, with a new MDL in front or back to the start of the chain.
- Ports.StepKeepsInv: a run ends at the first cleanup that finds a port in transition; what the code does after that assertion is not modelled.
- Ports.PortTable.Move: activation and deactivation as one uninterrupted call; interleavings are the subject of the state machine.
- Reading the NBL's out-of-band fields (hash, checksum, segmentation, timestamp) and rewriting them would only add field copies.
- The check that a low-resources flush returns the same NBL chain is a comparison of what NDIS hands back.
- The bodies of the OID query, set and method handlers are large switches; here they end with some final status, which in the code is never PENDING.
- The client request that is completed before it is marked pending is an ordering that the source itself marks as to be fixed.
- QUIC header builders are straight-line copies with no parser to match.
- Offload configuration, registry reading and miniport attributes are field copies.
- Status indication and OID cloning in the lightweight filter are simpler than what is modelled.
- Socket wrappers, WSK client, dispatch tables, extended-attribute parsing, tracing and the functional tests are outside the model.
- NDIS, IO manager, pool, MDL mapping and lock internals appear only through small abstract contracts.
