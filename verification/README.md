# Verification of the capture worker and its daemon

This project models the parts of cloud-probe whose correctness depends on whole runs or on every
input, and proves what they promise:

- **Hot reload** (`TaskLists`, `TaskManager` and the `Reload` modules). The main thread, the reload thread
  and the output thread of the worker, stepping one atomic access or one loop iteration at a time, with
  failing allocations and failing capture tasks. An inductive invariant gives, over every run: no freed
  object is used, nothing is destroyed twice or leaked, one message is under way at most, drains are
  complete, and a reload happens entirely or not at all. It takes over exactly when none of its steps reports a
  bad outcome. Every captured packet is handed out once and in order, also across reloads, no signal is lost,
  and from every reachable state a reload can finish.
- **Lock-free buffers** (`SpscRing`, `BoundedQueue`, `Allocator`, `Mempool`). The ring is a bounded queue
  under every interleaving, the accounted allocator never loses a byte, and the wrapping pool keeps its blocks apart
  exactly when two allocations are avoided.
- **Packets** (`Checksum`, `PacketParse`, `PacketLayout`, `PacketSplit`, `PacketSplitProofs`,
  `VxlanOutput`). Every checksum path equals the plain sum of RFC 1071; fragments carry the payload once and in order, parse
  again with the same layout, continue the TCP sequence and verify at a receiver that sees only their bytes.
- **ZMQ batches** (`ZmqCodec`, `ZmqBatches`, `ZmqFeed`, `ZmqOutput`). Encoder and decoder are inverse. Over
  every run of the output a receiver decodes exactly the records of the batches sent, and these are the
  records that the run's packets and heartbeats call for.
- **Request patterns** (`ReqLexer`, `ReqParser`, `ReqGrammar`, `ReqMatch`, `ReqWalk`, `ReqReply`). The parser accepts
  exactly a grammar and frees every string and node once; every pattern can be written; the header walk
  terminates, the innermost frame decides, and a packet and its reply are told apart.
- **Memory fuse** (`MemFuse`, `Syncer`). Over every run of the daemon a tripped or fused state means that
  no worker runs, unless a kill failed; a tick trips exactly when the last readings were all too low; and a
  strategy that can be served ends with a worker running its tasks.
- **Rate limit, counters, log lines** (`TokenBucket`, `Stats`, `OutputStats`, `LogPipe`). In every window of
  time the limit holds, and it is reached; the two-limb counters of both outputs together advance by exactly
  what was offered, modulo their range.

`Basics`, `Bytes` and `Outputs` hold shared definitions. Clocks, sockets, the file system, allocation
outcomes, address lookup and the growth of Go buffers are parameters or nondeterministic choices.

Three findings are part of the model. The wrapping pool loses its layout on two kinds of accepted
allocations (`Mempool.AllocKeepsLayout` gives the exact condition; the comment that one byte is reserved,
cpworker/src/ring_buffer.c:16, does not describe the code). A host value is cut where `and` or `or` stands
at the end of a name such as `nic.vendor` (`ReqLexer.ValueReadsBack` gives the exact condition). A receiver
takes the capture length a record claims, whatever its data length says, so a message can lead it past its end
(`ZmqCodec.TakesInsideExactlyWhen` gives the exact condition, `ZmqCodec.ClaimedLengthOverruns` a message of 42
bytes); the messages of this output never do (`ZmqBatches.DecodingMessagesAreTakenWhole`).

## Model

| member | source | states |
|---|---|---|
| `TaskLists.Find` | cpworker/src/task.c:900-909 | Returns a node with the fingerprint, and none exactly when no node has it. |
| `TaskLists.SurvivorsMembers` | cpworker/src/task.c:998-1034 | The survivors of a configuration are exactly the old nodes whose fingerprint it still names. |
| `TaskLists.SurvivorsUnique` | cpworker/src/task.c:998-1034 | No survivor is listed twice. |
| `TaskLists.BuildMembers` | cpworker/src/task.c:1066-1144 | Every node of the built list is the old capture task of a kept fingerprint or the one created for its entry, and every such entry has its node. |
| `TaskLists.BuildOrder` | cpworker/src/task.c:1066-1144 | The built list follows the configuration order. |
| `TaskLists.BuildUnique` | cpworker/src/task.c:1066-1144 | With unique fingerprints and fresh creations, no capture task and no fingerprint occurs twice in the built list. |
| `TaskLists.KeptOrDoomed` | cpworker/src/task.c:1148-1178 | Looking up an old node's fingerprint in the new list succeeds exactly when its capture task is kept there, so the test of reclaim destroys exactly the replaced tasks. |
| `TaskLists.BuildAccountsForAll` | cpworker/src/task.c:1066-1144 | Every configuration entry is in the built list or in the error list, once. |
| `TaskLists.ErrorsAre` | cpworker/src/task.c:1066-1144 | The error list follows the configuration and holds exactly the entries that were neither kept nor created. |
| `TaskLists.CheckFingerprints` | cpworker/src/config.c:1194-1209 | The parser's duplicate test accepts exactly configurations whose given fingerprints are distinct. |
| `TaskManager.NewTaskManager` | cpworker/src/task.c:322-412 | Start-up makes a node for exactly the entries that could be created and an error for exactly the others, both in order. |
| `TaskManager.StartUpIsInit` | cpworker/src/task.c:322-412 | What start-up leaves is an initial state of the reload protocol. |
| `ReloadMainProofs.InitInv` | cpworker/src/task.c:322-412 | The invariant holds when the threads start, absent fingerprints included. |
| `ReloadMainProofs.PollDeliverInv` | cpworker/src/task.c:277-320 | Capturing a packet or heartbeat, sent at once or pushed to the ring, keeps the invariant. |
| `ReloadMainProofs.PollNextInv` | cpworker/src/task.c:462-496 | Moving the poll to the next node of the live list keeps the invariant. |
| `ReloadMainProofs.MainReceiveInv` | cpworker/src/task.c:1298-1325 | Taking a message from the mailbox keeps the invariant. |
| `ReloadMainProofs.MainTryInv` | cpworker/src/task.c:1281-1296 | Starting a reload keeps the invariant. |
| `ReloadMainProofs.MainSendInv` | cpworker/src/task.c:913-947 | Posting a request keeps the invariant: the mailbox was empty. |
| `ReloadMainProofs.HandleSurvivorsInv` | cpworker/src/task.c:1190-1210 | Switching the live list to the survivors, or giving up, keeps the invariant. |
| `ReloadMainProofs.HandleNewTasksInv` | cpworker/src/task.c:1180-1259 | Switching to the built list, or restoring the old one, keeps the invariant. |
| `ReloadMainProofs.HandleReclaimedInv` | cpworker/src/task.c:1261-1279 | Ending the reload keeps the invariant. |
| `ReloadPlanProofs.ReloadReceiveInv` | cpworker/src/task.c:1471-1513 | The reload thread taking a request keeps the invariant. |
| `ReloadPlanProofs.ReloadDispatchInv` | cpworker/src/task.c:1378-1469 | Starting to plan, build or reclaim keeps the invariant, allocation failures included. |
| `ReloadPlanProofs.ReloadParseInv` | cpworker/src/task.c:983-996 | Reading a configuration, or failing to, keeps the invariant. |
| `ReloadPlanProofs.CollectInv` | cpworker/src/task.c:998-1034 | One iteration of collecting survivors keeps the invariant. |
| `ReloadBuildProofs.BuildStepInv` | cpworker/src/task.c:1066-1144 | One iteration of building keeps the invariant, whichever allocation fails. |
| `ReloadBuildProofs.UndoInv` | cpworker/src/task.c:1131-1144 | One iteration of undoing a build keeps the invariant. |
| `ReloadBuildProofs.ReclaimStepInv` | cpworker/src/task.c:1148-1178 | One iteration of reclaim keeps the invariant. |
| `ReloadBuildProofs.DrainRequestInv` | cpworker/src/task.c:1439-1458 | Asking the output thread to drain keeps the invariant. |
| `ReloadBuildProofs.DrainSeenInv` | cpworker/src/task.c:1367-1376 | Taking the drain response back keeps the invariant. |
| `ReloadPlanProofs.ReloadWriteInv` | cpworker/src/task.c:949-976 | Filling the reply buffer keeps the invariant: nobody still reads it. |
| `ReloadPlanProofs.ReloadSendInv` | cpworker/src/task.c:915-976 | Posting a reply keeps the invariant. |
| `ReloadPlanProofs.ReloadTailInv` | cpworker/src/task.c:1353-1458 | Resetting the reload context after a reply keeps the invariant. |
| `ReloadOutputProofs.OutPopInv` | cpworker/src/task.c:538-577 | Popping a message in the output loop keeps the invariant. |
| `ReloadOutputProofs.OutHandleInv` | cpworker/src/task.c:498-517 | Handling a message uses a capture task that exists. |
| `ReloadOutputProofs.OutDrainInv` | cpworker/src/task.c:519-536 | One iteration of the drain keeps the invariant. |
| `ReloadOutputProofs.OutRespondInv` | cpworker/src/task.c:538-577 | Answering a drain request keeps the invariant. |
| `ReloadProofs.StepInv` | cpworker/src/task.c:893-1513 | Every enabled step of every thread keeps the invariant. |
| `ReloadTheorems.RunInv` | cpworker/src/task.c:893-1513 | The invariant holds in every state of every run. |
| `ReloadTheorems.ReloadIsSafe` | cpworker/src/task.c:998-1325 | In every run no fault ever occurs: no freed list, configuration or task is used, nothing is destroyed twice, no mailbox or buffer is overwritten, and every task of the live list and of the ring exists. |
| `ReloadTheorems.IdleHasNoLeftovers` | cpworker/src/task.c:1148-1279 | Between reloads the capture tasks that exist are exactly those of the live list, and no list, error list or configuration is leaked. |
| `ReloadTheorems.SingleToken` | cpworker/src/task.c:893-976 | One message at most is anywhere, none while idle, and what reaches a handler fits the phase, so the branches for unexpected messages are dead. |
| `ReloadRank.DataIsThere` | cpworker/src/task.c:1346-1458 | Whatever step the reload thread is at, the data it needs is there. |
| `ReloadRank.SomeStepHelps` | cpworker/src/task.c:893-1513 | Outside idle the thread that has the message, or that must answer a drain, can take its next step. |
| `ReloadRank.HelpingStepsGetCloser` | cpworker/src/task.c:893-1513 | Whatever its outcome, such a step brings the reload closer to its end, by phase, place of the message, stage of the work and iterations left. |
| `ReloadProgress.ReloadsCanFinish` | cpworker/src/task.c:893-1513 | Every run can be continued to one that ends idle. |
| `ReloadTheorems.DrainIsComplete` | cpworker/src/task.c:1367-1376 | Once the drain response is seen, no message in the ring or in hand refers to a task that reclaim destroys, and the response flag is never stale. |
| `ReloadTheorems.OnlySurvivorsPolled` | cpworker/src/task.c:1190-1210 | Between the two switches of the live list exactly the survivors are polled, each once. |
| `ReloadTheorems.OldStopsBeforeNewStarts` | cpworker/src/task.c:1066-1144 | A capture task is created only while no replaced task is polled. |
| `ReloadTheorems.StepRecord` | cpworker/src/task.c:1281-1325 | Every step leaves the record of the running reload alone, starts one from idle, or adds one build result. |
| `ReloadTheorems.AttemptStays` | cpworker/src/task.c:1281-1325 | While a reload runs, what it started from is unchanged on record. |
| `ReloadTheorems.RecordIsTrue` | cpworker/src/task.c:1180-1279 | While a reload runs, its record says whether the protocol came to await reclaim and which configuration was read. |
| `ReloadTheorems.IdleMeans` | cpworker/src/task.c:1180-1279 | In idle, a reload that took over has its list, configuration and errors in place, and any other left everything as it was. |
| `ReloadTheorems.ReloadIsAtomic` | cpworker/src/task.c:1180-1279 | From the start of a reload to the next idle state: if the protocol came to await reclaim, the live list, configuration and errors are those built from the configuration the reload thread read in this reload; otherwise everything is as before. |
| `ReloadOutcome.StepDecides` | cpworker/src/task.c:998-1259 | Before the new list takes over, a step fails the reload exactly when it reports an outcome that stops it, and a failing reload only goes back to idle. |
| `ReloadTakeOver.TakesOverExactlyWhen` | cpworker/src/task.c:983-1259 | From its start to the next idle state a reload takes over if and only if no action stopped it: a configuration not read or with a fingerprint left out, or a needed allocation that failed. |
| `ReloadTakeOver.GoodReloadsTakeOver` | cpworker/src/task.c:983-1259 | If no action reports a bad outcome, the reload takes over. |
| `ReloadTakeOver.ReloadFollowsItsActions` | cpworker/src/task.c:983-1279 | A reload that took over loaded a configuration that one of its actions read, and has a new capture task for exactly those entries without an old one for which an action created it; any other left everything as it was. |
| `ReloadFrames.MainFrame` | cpworker/src/task.c:893-1325 | The main thread leaves the other threads, the ring and what was made alone, and lowers the signal only to start a reload. |
| `ReloadFrames.ReloadFrame` | cpworker/src/task.c:978-1513 | The reload thread leaves the main thread, the phase, the ring and the output thread alone. |
| `ReloadDelivery.EveryMessageIsHandedOutOnce` | cpworker/src/task.c:277-320 | Over every run, what was captured is what was handed to an output followed by what is in the ring or in hand: nothing is lost, repeated or reordered, by drains and reloads either. |
| `ReloadDelivery.EveryTaskIsPolled` | cpworker/src/task.c:462-496 | A poll that ends has polled every node of the live list. |
| `ReloadDelivery.SignalsAreServed` | cpworker/src/task.c:1281-1296 | A reload signal stays up until a reload starts. |
| `ReloadDelivery.RaisedSignalsAreServed` | cpworker/src/task.c:1281-1296 | From the step that raises a signal on, it is up or a reload has started since. |
| `ReloadProgress.SignalsCanStartReloads` | cpworker/src/task.c:1281-1325 | Every run in which a signal is up can be continued to one in which a reload starts. |
| `ReloadTheorems.ReloadedMeans` | cpworker/src/task.c:1066-1144 | After a completed reload the list follows the configuration, every kept fingerprint keeps its capture task, and every entry is listed or, if neither kept nor created, reported in order. |
| `SpscRing.Ring.constructor` | cpworker/src/ring_buffer.c:158-174 | A new ring is an empty queue. |
| `SpscRing.Ring.PushLoadTail` | cpworker/src/ring_buffer.c:194-206 | A push is refused exactly when the queue holds size - 1 elements at that moment. |
| `SpscRing.Ring.PushStore` | cpworker/src/ring_buffer.c:194-206 | Writing the slot touches no element the consumer can still read. |
| `SpscRing.Ring.PushPublish` | cpworker/src/ring_buffer.c:194-206 | Publishing appends the element to the queue. |
| `SpscRing.Ring.PopLoadTail` | cpworker/src/ring_buffer.c:208-219 | A pop reports empty exactly when nothing was queued as head was loaded. |
| `SpscRing.Ring.PopRead` | cpworker/src/ring_buffer.c:208-219 | The slot read holds the oldest element. |
| `SpscRing.Ring.PopRelease` | cpworker/src/ring_buffer.c:208-219 | Releasing removes the oldest element and hands it out. |
| `SpscRing.Ring.UsedByConsumerLoadTail` | cpworker/src/ring_buffer.c:184-192 | To the consumer the fill level is a lower bound. |
| `SpscRing.Ring.UsedByProducerLoadTail` | cpworker/src/ring_buffer.c:184-192 | To the producer the fill level is exact when read, hence an upper bound afterwards. |
| `SpscRing.Ring.ProducerStep` | cpworker/src/ring_buffer.c:184-206 | Each access of the producer is one of a bounded queue without slots. |
| `SpscRing.Ring.ConsumerStep` | cpworker/src/ring_buffer.c:184-219 | Each access of the consumer is one of a bounded queue without slots. |
| `SpscRing.Ring.Run` | cpworker/src/ring_buffer.c:184-219 | Under every schedule of the two threads the ring is a queue for size - 1 elements: what is pushed is a subsequence, in order, of the messages the schedule offers, and popped elements followed by the queue are the pushed elements. |
| `BoundedQueue.PushedWereOffered` | cpworker/src/ring_buffer.c:194-206 | A schedule pushes the messages it offers, in order, but for those refused because the queue was full. |
| `RingArithmetic.SlotDistance` | cpworker/src/ring_buffer.c:184-192 | The wrapped difference of two slots is the distance of their counters. |
| `Allocator.SimpleAllocator.AllocTry` | cpworker/src/ring_buffer.c:240-270 | A reservation succeeds only within the capacity in force and accounts for its size; without interference the exchange does not fail. |
| `Allocator.SimpleAllocator.AllocFinish` | cpworker/src/ring_buffer.c:240-300 | A failed memory allocation gives its reservation back. |
| `Allocator.SimpleAllocator.FreeLoad` | cpworker/src/ring_buffer.c:302-325 | The clamp of a free never fires. |
| `Allocator.SimpleAllocator.FreeSub` | cpworker/src/ring_buffer.c:302-325 | A free removes its message and its size from the account. |
| `Allocator.SimpleAllocator.Resize` | cpworker/src/ring_buffer.c:331-334 | A new capacity is in force at once and leaves the account alone. |
| `Allocator.SimpleAllocator.Run` | cpworker/src/ring_buffer.c:240-334 | Under every schedule of allocations, failures, resizes and frees the used count is the total size of the messages held. |
| `Mempool.GoodMeans` | cpworker/src/ring_buffer.c:8-32 | In the layout of the pool live blocks are in bounds and disjoint, and head equals tail exactly when there is none. |
| `Mempool.AllocKeepsLayout` | cpworker/src/ring_buffer.c:70-116 | An accepted allocation keeps the layout if and only if it neither ends at the capacity with tail 0 nor wraps in an empty pool. |
| `Mempool.RefusedOnlyWithoutRoom` | cpworker/src/ring_buffer.c:70-116 | With live blocks a refused size has, with one byte to spare, no room behind the newest block or at the start; an empty pool refuses exactly what fits on neither side of where it stands. |
| `Mempool.FreeKeepsLayout` | cpworker/src/ring_buffer.c:118-148 | Releasing the oldest block keeps the layout, and the assertion on the way holds. |
| `Mempool.RunKeepsLayout` | cpworker/src/ring_buffer.c:70-148 | Over every run of safe allocations and releases in order the layout is kept and no assertion fails. |
| `Mempool.ExactFillOverlaps` | cpworker/src/ring_buffer.c:70-116 | After an allocation that ends at the capacity with tail 0 the next block overlaps a live one. |
| `Mempool.EmptyWrapFailsRelease` | cpworker/src/ring_buffer.c:118-148 | After a wrap in an empty pool releasing the block fails its assertion. |
| `Mempool.UnsafeAllocationsHappen` | cpworker/src/ring_buffer.c:70-148 | Both kinds of allocation are accepted: the first by any new pool, the second after one block came and went, and then its release fails. |
| `Mempool.UnsafeExamples` | cpworker/src/ring_buffer.c:70-148 | From a new pool of 8 bytes: filling it leaves it looking empty; allocating 5, releasing 5 and allocating 4 ends in a failed release. |
| `Mempool.MemoryPool.AllocBlock` | cpworker/src/ring_buffer.c:70-116 | The allocation in place does what its value form says. |
| `Mempool.MemoryPool.FreeBlock` | cpworker/src/ring_buffer.c:118-148 | The release in place does what its value form says, and reports its assertion. |
| `Checksum.VectorSum` | cpworker/src/packet_split.c:48-82 | The four-lane path over 32-byte blocks and its two shuffles give the plain sum of those bytes. |
| `Checksum.CksumAccumulate` | cpworker/src/packet_split.c:43-122 | With or without the vector path the result is the initial value plus the plain word sum, below 2^32, for up to 65535 bytes. |
| `Checksum.FoldIsOnesComplement` | cpworker/src/packet_split.c:29-34 | Two folds of any 32-bit sum lose nothing: the result is congruent to it modulo 65535 and zero only for zero. |
| `Checksum.FoldsToOnes` | cpworker/src/packet_split.c:29-34 | A sum folds to 0xFFFF exactly when it is a positive multiple of 65535. |
| `Checksum.ChecksumCompletes` | cpworker/src/packet_split.c:124-198 | Adding the checksum, or the UDP form of it, makes the sum fold to 0xFFFF. |
| `Checksum.StoredChecksumVerifies` | cpworker/src/packet_split.c:464-528 | A header or segment whose zeroed field then holds the checksum sums to 0xFFFF. |
| `Checksum.CalculateIpChecksum` | cpworker/src/packet_split.c:133-147 | The straight-line path and the general one both give the checksum of the plain sum. |
| `Checksum.PseudoSumIsWordSum` | cpworker/src/packet_split.c:153-177 | The pseudo-header expression is the plain sum of the pseudo header's bytes, for IPv4 and IPv6. |
| `Checksum.CalculateSegmentChecksum` | cpworker/src/packet_split.c:183-197 | The TCP or UDP checksum is that of the pseudo header followed by the segment. |
| `Checksum.ByteOrderDoesNotMatter` | cpworker/src/packet_split.c:43-122 | A sum in network order verifies exactly when the host-order sum does. |
| `PacketParse.ParsePacket` | cpworker/src/packet_split.c:200-423 | For frames up to 65535 bytes the scan with 16-bit offsets stops, reads in bounds, never wraps and finds what the frame contains. |
| `PacketParse.ScanVlans` | cpworker/src/packet_split.c:216-234 | The tag loop ends at the first type that is not a VLAN type and remembers the first tag. |
| `PacketParse.ScanExtensions` | cpworker/src/packet_split.c:331-350 | The extension loop ends at the first header that is not skipped, with the length skipped. |
| `PacketParse.ParseInBounds` | cpworker/src/packet_split.c:200-423 | Headers lie one after the other and the payload lies within the frame. |
| `PacketLayout.ParseMeans` | cpworker/src/packet_split.c:200-423 | The answer is a layout if and only if the frame has it: a stack of VLAN types, an unfragmented IPv4 header or a chain of extension headers, a complete TCP or UDP header, and the announced payload as far as captured. |
| `PacketLayout.SkippingLeadsTo` | cpworker/src/packet_split.c:331-350 | Skipping ends at a header exactly when a chain of complete extension headers leads there. |
| `PacketParse.Reparse` | cpworker/src/packet_split.c:200-423 | A frame with the same headers up to the rewritten fields, whose IP length says n, parses to the same layout with n payload bytes. |
| `PacketSplit.BuildFragment` | cpworker/src/packet_split.c:435-532 | Writes fragment k into the buffer and nothing past it; -1 exactly when there is no fragment k. |
| `PacketSplitProofs.SizesAreRight` | cpworker/src/packet_split.c:425-448 | Fragments exist, are non-empty and at most the limit exactly below the count. |
| `PacketSplitProofs.FragmentHeaders` | cpworker/src/packet_split.c:435-532 | A fragment has the packet's headers but for the rewritten fields, its own lengths and its slice of the payload. |
| `PacketSplitProofs.FragmentParses` | cpworker/src/packet_split.c:435-532 | A fragment parses to the packet's layout with its own payload length and slice. |
| `PacketSplitProofs.FragmentNumbers` | cpworker/src/packet_split.c:482-512 | The TCP sequence number is the packet's plus the offset modulo 2^32; the UDP length is the datagram's. |
| `PacketSplitProofs.RecalculatedChecksumsVerify` | cpworker/src/packet_split.c:464-528 | With recalculation a receiver that sees only the bytes of a fragment finds its IP header and its segment right, in network order, under the pseudo header of the protocol that the IP header or the chain of extension headers names; no UDP checksum is zero. |
| `PacketSplitProofs.CopiedChecksums` | cpworker/src/packet_split.c:464-528 | Without recalculation the checksum fields are the packet's own. |
| `PacketSplitProofs.FragmentsCarryThePayload` | cpworker/src/packet_split.c:425-532 | The payloads of all fragments, one after the other, are the packet's payload. |
| `PacketSplitProofs.SequenceNumbersContinue` | cpworker/src/packet_split.c:482-490 | Each TCP fragment starts where the data sent before it ends, modulo 2^32. |
| `Outputs.FrameLen` | cpworker/src/output.h:32-38 | The counted length is the least of the captured length, the limit and a positive slice. |
| `VxlanOutput.WireCarriesThePayload` | cpworker/src/output_vxlan.c:180-212 | What is sent for a parsed frame, whole or split, carries its payload once and in order. |
| `VxlanOutput.SplitFramesAreSmall` | cpworker/src/output_vxlan.c:180-212 | A split gives at least two frames, each of the same kind with 1 to limit payload bytes. |
| `VxlanOutput.WireFramesAreSmall` | cpworker/src/output_vxlan.c:180-212 | With a limit set, no frame that is sent has more payload than the limit. |
| `VxlanOutput.Output.DoSend` | cpworker/src/output_vxlan.c:96-178 | At most eleven attempts, repeated only while buffers are short; success exactly when the last one sent everything. |
| `VxlanOutput.Output.SendWholeOrSplit` | cpworker/src/output_vxlan.c:180-212 | Success exactly when every frame was sent; otherwise those before the first failure were. |
| `VxlanOutput.Output.SendPacket` | cpworker/src/output_vxlan.c:208-251 | Each packet counts once, with its frame length, in the pair of counters of its fate: forwarded, of unknown direction, rate limited or failed. |
| `VxlanOutput.Output.Run` | cpworker/src/output_vxlan.c:208-251 | Over any run of packets the two-limb counters, added up, advance by exactly the packets and bytes offered, modulo their range, and exactly while nothing has wrapped. |
| `Stats.Counter.Add` | cpworker/src/stats.c:3-16 | Keeps the limbs normalised and adds modulo the counter's range. |
| `Stats.Counter.Merge` | cpworker/src/stats.c:18-24 | Keeps the limbs normalised and adds the other counter modulo the range. |
| `Stats.Counter.AddAll` | cpworker/src/stats.c:3-39 | Adding any amounts, one after the other, shows the old value plus their total modulo the range, exactly while that is below it. |
| `Stats.ShowsTheSum` | cpworker/src/stats.c:3-47 | Adding amounts one by one modulo the range gives their total modulo the range. |
| `OutputStats.Statistics.CountPacket` | cpworker/src/output_vxlan.c:214-250 | A packet and its bytes are added to the two counters of its fate and to no other. |
| `OutputStats.Statistics.AddForwarded` | cpworker/src/output_zmq.c:121-126 | A sent batch adds its packets and bytes to the forwarded counters alone. |
| `OutputStats.Statistics.AddErrors` | cpworker/src/output_zmq.c:127-137 | A batch that could not be sent adds its packets and bytes to the error counters alone. |
| `OutputStats.Statistics.CountersAddUp` | cpworker/src/stats.h:30-45 | The packet counters and the byte counters add up to everything ever counted, modulo their range, and exactly while that is below it. |
| `TokenBucket.Elapsed` | cpworker/src/ratelimit.c:3-13 | Borrowing a second gives the difference in microseconds. |
| `TokenBucket.Throttle.Consume` | cpworker/src/ratelimit.c:24-50 | The bucket in place, in 64-bit arithmetic, does what its value form says: nothing wraps for the rates a configuration can give. |
| `TokenBucket.AdmittedBound` | cpworker/src/ratelimit.c:24-50 | In any run admitted bits and remaining tokens are covered by the tokens at the start and the rate times the forward steps of the clock. |
| `TokenBucket.WindowBound` | cpworker/src/ratelimit.c:24-50 | In any window of calls, whatever came before, the bits admitted and the tokens left are at most one second of bits plus the rate times the forward steps of the clock inside the window. |
| `TokenBucket.RateIsLimited` | cpworker/src/ratelimit.c:24-50 | Packets in time order carry at most the rate times one second more than the time from the first of them to the last. |
| `TokenBucket.LimitIsReached` | cpworker/src/ratelimit.c:24-50 | For every rate some packets reach that bound. |
| `TokenBucket.RefusedOnlyWhenShort` | cpworker/src/ratelimit.c:42-49 | A refused packet needed more than the bucket held and cost nothing. |
| `TokenBucket.RefillIsExact` | cpworker/src/ratelimit.c:24-50 | What a call lets through and what it leaves are the old tokens plus the whole bits earned by the forward step of the clock, up to one second of bits. |
| `TokenBucket.FullSecondAdmits` | cpworker/src/ratelimit.c:27-46 | After a full second any packet of at most one second's bits passes. |
| `ZmqCodec.EncodeAppend` | cpworker/src/output_zmq.c:249-295 | Adding a record to a batch appends its bytes. |
| `ZmqCodec.RecordOnTheWire` | cpworker/src/output_zmq.c:225-256 | Where each field of a record is on the wire. |
| `ZmqCodec.DecodeEncoded` | cptools/recvzmq/main.c:194-249 | Decoding returns exactly the encoded records, whatever follows them. |
| `ZmqCodec.DecodedIsEncoded` | cptools/recvzmq/main.c:194-249 | For any message, encoding what was decoded gives back the bytes read; decoding is complete exactly when all announced records were found. |
| `ZmqCodec.BatchRoundTrip` | cpworker/src/output_zmq.c:99-120 | Version, count, key, uuid and records of a batch come back, and the records end where the message ends. |
| `ZmqCodec.HandleMessage` | cptools/recvzmq/main.c:194-249 | On any message the receiver hands on, record by record, as many bytes as the record claims to have captured; it ends finished, refused, cut or led past the end, and success means all of a complete message. |
| `ZmqCodec.TakesInsideExactlyWhen` | cptools/recvzmq/main.c:108-113 | An output that writes what it is given stays inside the message if and only if every record's data offset plus claimed length does. |
| `ZmqCodec.ClaimedLengthOverruns` | cptools/recvzmq/main.c:194-249 | A 42-byte message that decodes completely leads the output past its end. |
| `ZmqCodec.ExactMessagesAreTakenWhole` | cptools/recvzmq/main.c:194-249 | With true capture lengths the output takes exactly the data of each record. |
| `ZmqCodec.L2HeaderLen` | cpworker/src/output_zmq.c:159-175 | The length of the Ethernet header and all VLAN tags, 0 exactly when they are not fully captured. |
| `ZmqCodec.L2LenMeans` | cpworker/src/output_zmq.c:159-175 | A frame has a complete layer 2 of n bytes exactly when a stack of VLAN tags ends there. |
| `ZmqCodec.LabelRoundTrip` | cpworker/src/output_zmq.c:22-35 | Direction and the low 12 bits of the service tag come back from the label. |
| `ZmqCodec.LabelOnTheWire` | cpworker/src/mpls.h:6-35 | The label as a 32-bit field: magic bit, direction, 12 bits of the tag, bottom of stack, 0xFF. |
| `ZmqCodec.MplsFrameRoundTrip` | cpworker/src/output_zmq.c:258-292 | The label is found after layer 2, and with the replaced type the frame comes back. |
| `ZmqCodec.MplsFrameIsFound` | cpworker/src/output_zmq.c:258-292 | Walking the VLAN tags of a record finds the MPLS type at the same depth as in the frame. |
| `ZmqFeed.RecordTellsThePacket` | cpworker/src/output_zmq.c:177-302 | From the record of a packet a receiver gets its times and lengths, the depth and bytes of layer 2, the direction, the low 12 bits of the service tag and the sliced payload. |
| `ZmqFeed.RecordHoldsTheMost` | cpworker/src/output_zmq.c:195-201 | A record, and the bytes a packet counts for, are as long as layer 2, the capture, the slice and the record format allow. |
| `ZmqOutput.Output.constructor` | cpworker/src/output_zmq.c:442-485 | A new output is empty and balanced. |
| `ZmqOutput.Output.WriteCaptured` | cpworker/src/output_zmq.c:249-292 | The bytes written are the encoding of the packet's record. |
| `ZmqOutput.Output.Accept` | cpworker/src/output_zmq.c:249-301 | The record joins the batch, position and counts stay in range without wrapping. |
| `ZmqOutput.Output.MakeRoom` | cpworker/src/output_zmq.c:222-247 | A batch is flushed exactly when it is full in number, too old or out of space; afterwards the record fits and the batch is not older than a second. |
| `ZmqOutput.Output.Drop` | cpworker/src/output_zmq.c:185-220 | A packet without a record is counted once, as too small, of unknown direction or rate limited, and no stale batch waits. |
| `ZmqOutput.Output.SendPacket` | cpworker/src/output_zmq.c:177-302 | A packet gets its record exactly when its layer 2 is complete, its direction known and the limit, if set, lets it pass; otherwise it counts, with its own length, in the one tally whose condition holds, and nothing is flushed without need. |
| `ZmqOutput.Output.Flush` | cpworker/src/output_zmq.c:99-145 | The pending records become one message and are counted forwarded or dropped; the log is unchanged. |
| `ZmqOutput.Output.FlushIfStale` | cpworker/src/output_zmq.c:147-155 | No batch older than a second waits, and the log is unchanged. |
| `ZmqOutput.Output.SendHeartbeat` | cpworker/src/output_zmq.c:304-356 | A heartbeat is the next record of the log and is flushed at once. |
| `ZmqOutput.Output.Heartbeat` | cpworker/src/output_zmq.c:358-386 | A heartbeat goes out exactly when enabled and due. |
| `ZmqFeed.CoarseTestIsSafe` | cpworker/src/output_zmq.c:369-380 | The test in whole seconds never holds back a heartbeat that is due. |
| `ZmqFeed.DueExactlyWhen` | cpworker/src/output_zmq.c:358-386 | At a call made in the second the clock shows, a heartbeat goes out exactly when enabled and when the interval has passed. |
| `ZmqFeed.ElapsedMsIsClose` | cpworker/src/output_zmq.c:377-378 | The difference in milliseconds is that of the clocks to within one. |
| `ZmqOutput.Output.Destroy` | cpworker/src/output_zmq.c:507-525 | Nothing stays pending, and what was offered is what was forwarded or dropped. |
| `ZmqOutput.Output.Run` | cpworker/src/output_zmq.c:177-525 | After any run of packets and periodic calls ended by destroy: nothing is pending, the records flushed are those before and exactly those the events call for, in order, every message sent decodes, the receiver gets the records of the batches sent, and the counters are those of what was offered and received. |
| `ZmqOutput.Output.RunIsCounted` | cpworker/src/output_zmq.c:177-525 | Over such a run the two-limb counters, added up, advance by exactly what was offered and what was pending before, modulo their range. |
| `ZmqFeed.AllPacketsAreOffered` | cpworker/src/output_zmq.c:177-302 | Every packet of a run counts as offered, with its own length. |
| `ZmqFeed.NothingIsMissing` | cpworker/src/output_zmq.c:177-302 | Over any run the packets and bytes offered are those of the records in the log and those counted as too small, of unknown direction or rate limited. |
| `ZmqFeed.LogGrows` | cpworker/src/output_zmq.c:249-356 | What events add to the log does not depend on what it held, and goes to its end. |
| `ZmqFeed.RecordsAreThoseThatPass` | cpworker/src/output_zmq.c:177-302 | Over any run the packets with a record are exactly those with a complete layer 2 and a known direction that the limit lets pass, in order, where the limit is asked for those packets alone. |
| `ZmqFeed.UnlimitedPassesAll` | cpworker/src/output_zmq.c:177-302 | Without a limit every packet with a complete layer 2 and a known direction gets its record, in order. |
| `ZmqBatches.FlushKeepsAccount` | cpworker/src/output_zmq.c:116-137 | A flush moves pending packets and bytes into exactly one counter. |
| `ZmqBatches.ReceivedAreSent` | cpworker/src/output_zmq.c:99-145 | Every message sent decodes without error and ends with its last record, and all messages together give the records of the batches sent, in order. |
| `ZmqBatches.DecodingMessagesAreTakenWhole` | cptools/recvzmq/main.c:194-249 | A receiver that writes to a file handles such a message to the end and writes exactly the data of its records. |
| `ZmqBatches.CountersMatchReceiver` | cpworker/src/output_zmq.c:99-145 | A receiver of the messages sent decodes exactly the packets and bytes counted forwarded and the heartbeats counted, each record with its true capture length. |
| `ReqLexer.NextToken` | cpworker/src/req_pattern.c:88-142 | The scan terminates and finds the next token; every token but the end consumes text. |
| `ReqLexer.ValueReadsBack` | cpworker/src/req_pattern.c:127-141 | A text followed by a space reads back as one value exactly when nothing in it stops a value and it does not begin with a keyword. |
| `ReqLexer.SpacedReadsBack` | cpworker/src/req_pattern.c:88-142 | Tokens written with spaces between them read back as they were. |
| `ReqLexer.AddressesAreReadable` | cpworker/src/req_pattern.c:127-141 | Numeric addresses and ports always read back. |
| `ReqLexer.InterfaceNameIsCut` | cpworker/src/req_pattern.c:129-136 | An interface name ending in `or` is not read as one value. |
| `ReqParser.Parser.Expression` | cpworker/src/req_pattern.c:231-249 | Finds what the grammar function says, frees every string it read and keeps only the nodes of its tree. |
| `ReqParser.Parser.Term` | cpworker/src/req_pattern.c:251-269 | The same for a term. |
| `ReqParser.Parser.Factor` | cpworker/src/req_pattern.c:271-289 | The same for a factor, also when a parenthesis is missing. |
| `ReqParser.Parser.ConditionRule` | cpworker/src/req_pattern.c:291-320 | The same for a condition; the value string is freed on every path. |
| `ReqParser.Parser.FreeTree` | cpworker/src/req_pattern.c:210-221 | Frees exactly the nodes of the tree, each while it is in use, hence none twice. |
| `ReqParser.ParseText` | cpworker/src/req_pattern.c:521-552 | After parsing any text no value string is left, and the nodes left are those of the tree returned, none of them in it twice. |
| `ReqGrammar.ExprParses` | cpworker/src/req_pattern.c:231-289 | Every expression of the grammar parses to its tree. |
| `ReqGrammar.ExprFound` | cpworker/src/req_pattern.c:231-289 | Every tree found is that of an expression of the grammar made of the tokens consumed. |
| `ReqGrammar.PatternsAreTheGrammar` | cpworker/src/req_pattern.c:521-552 | A text is accepted with a tree if and only if it is an expression of the grammar with that tree: `and` binds tighter, both associate to the left. |
| `ReqMatch.PatternIsOrOfAnds` | cpworker/src/req_pattern.c:322-348 | A pattern matches an address and port exactly when all conditions of one of its alternatives hold, where `host` holds when its text looks up to the address, `port` when its text is the decimal of the port, and a parenthesis as its expression does. |
| `ReqMatch.PortTextsAreDecimals` | cpworker/src/req_pattern.c:179-193 | A port text is accepted exactly when it is the decimal of a number up to 65535. |
| `ReqMatch.WrittenPatternsParse` | cpworker/src/req_pattern.c:521-552 | Every tree, written with the parentheses it needs, parses back to itself. |
| `ReqWalk.InnerFrameDecides` | cpworker/src/req_pattern.c:365-499 | The walk terminates on any bytes, reads in bounds, and either changes nothing or takes all addresses and ports from the frame itself. |
| `ReqWalk.WalkSeesTheParsedPorts` | cpworker/src/req_pattern.c:396-487 | Walk and splitter see the same addresses, and the same ports exactly when no IPv6 extension header comes before them. |
| `ReqWalk.TunnelledFrameDecides` | cpworker/src/req_pattern.c:466-499 | Behind a UDP header to a VXLAN port, a frame with an IP header gives the addresses and ports that it gives on its own. |
| `ReqReply.WalkFindsTheSpot` | cpworker/src/req_pattern.c:365-499 | The walk finds an IP header exactly when the frame has one that can be reached, and takes addresses and ports from the innermost. |
| `ReqReply.MirroredIsReply` | cpworker/src/req_pattern.c:365-499 | Exchanging the two ends in place, also inside a VXLAN tunnel, gives a frame with the same headers and the ends exchanged, and doing it again gives the frame back. |
| `ReqReply.ReplyGoesTheOtherWay` | cpworker/src/req_pattern.c:604-642 | A packet goes out exactly when its source matches and comes in exactly when only its destination does; it and its reply get different directions exactly when the pattern matches one end only. |
| `MemFuse.TrailingMeansLastFailed` | cpdaemon/pkg/memfuse/fuse.go:166-183 | The hit count reaches n exactly when the last n checks failed. |
| `MemFuse.Fuse.OnStrategy` | cpdaemon/pkg/memfuse/fuse.go:121-139 | A tripped fuse ignores the strategy, a fused one wins over the switch, otherwise the fuse starts afresh. |
| `MemFuse.Fuse.BeforeStart` | cpdaemon/pkg/memfuse/fuse.go:144-156 | A start passes exactly when disabled, or armed with enough memory; otherwise an armed fuse trips with the reading. |
| `MemFuse.Fuse.OnCheck` | cpdaemon/pkg/memfuse/fuse.go:167-183 | A check trips exactly when the last FailThreshold checks since arming all failed. |
| `MemFuse.Fuse.OnReportAck` | cpdaemon/pkg/memfuse/fuse.go:191-197 | Only a tripped fuse becomes fused, and the snapshot stays. |
| `MemFuse.Fuse.Reset` | cpdaemon/pkg/memfuse/fuse.go:200-202 | Everything is forgotten. |
| `MemFuse.Fuse.Report` | cpdaemon/pkg/memfuse/fuse.go:206-214 | Fused is reported exactly with a snapshot of this process, armed exactly when armed or fused from outside with the switch on. |
| `Syncer.NewRingBounds` | cpdaemon/pkg/cpm/worker_mgr.go:551-582 | A reload opens at most what a start would, a start opens everything, and nothing new opens nothing. |
| `Syncer.NewTasksAre` | cpdaemon/pkg/cpm/worker_mgr.go:551-582 | A reload opens rings for exactly the tasks without a fingerprint and those whose fingerprint no running task has. |
| `Syncer.Manager.Gate` | cpdaemon/pkg/cpm/syncer.go:748-789 | A ring is allowed exactly while disabled, or armed with memory for twice the new rings and the reserve or unreadable memory; a refusal while armed trips with the readings taken. |
| `Syncer.Manager.Create` | cpdaemon/pkg/cpm/worker_mgr.go:286-369 | A start succeeds exactly when there was no worker, the tasks could be built, the check allows all their rings, and the process starts within its limits; then a worker runs these tasks. |
| `Syncer.Manager.CreateIfDead` | cpdaemon/pkg/cpm/worker_mgr.go:262-284 | A running worker is left alone; a dead one is replaced under the same check, and when that allows it, one runs. |
| `Syncer.Manager.ReloadConfig` | cpdaemon/pkg/cpm/worker_mgr.go:418-490 | Never starts a process; succeeds exactly when new rings are allowed and the worker takes the tasks within its limits, and then the tasks are these. |
| `Syncer.Manager.Update` | cpdaemon/pkg/cpm/worker_mgr.go:371-416 | Both policies run a worker afterwards only under a disabled or armed fuse or if it ran before, and when the update can be served the worker has the new tasks. |
| `Syncer.Manager.Kill` | cpdaemon/pkg/cpm/worker_mgr.go:216-229 | A kill that works leaves no worker; one that fails changes nothing. |
| `Syncer.Syncer.Trip` | cpdaemon/pkg/cpm/syncer.go:852-857 | After a trip no worker runs unless its kill failed, and the snapshot is unchanged. |
| `Syncer.Syncer.SyncMetric` | cpdaemon/pkg/cpm/syncer.go:982-995 | Tripped becomes fused only by an acknowledged report carrying that snapshot. |
| `Syncer.Syncer.ApplyChanged` | cpdaemon/pkg/cpm/syncer.go:596-723 | A changed strategy keeps the loop's invariant; a tripped fuse stays tripped; a strategy that may be applied and can be served ends with its tasks running under a fuse that starts afresh, and it is remembered unless applying it failed. |
| `Syncer.Syncer.ApplyUnchanged` | cpdaemon/pkg/cpm/syncer.go:553-594 | An unchanged strategy starts nothing while tripped or fused; otherwise a dead worker is started again and changed instances are applied, when that can be served. |
| `Syncer.Syncer.OnFuseTick` | cpdaemon/pkg/cpm/syncer.go:802-848 | A tick that completes a check records whether the available memory is below the reserve, and trips exactly when the last FailThreshold checks failed, with the readings taken. |
| `Syncer.Syncer.Register` | cpdaemon/pkg/cpm/syncer.go:475-486 | Under a new id the fuse starts afresh; otherwise nothing changes. |
| `Syncer.Syncer.Step` | cpdaemon/pkg/cpm/syncer.go:503-551 | Every event keeps the invariant, and a snapshot changes only by a clear or a new id. |
| `Syncer.TripsExactlyWhen` | cpdaemon/pkg/cpm/syncer.go:802-848 | Over every run of a new daemon, a tick trips exactly when it completes a check and the last FailThreshold completed ticks since arming all read less than the reserve. |
| `Syncer.Syncer.Run` | cpdaemon/pkg/cpm/syncer.go:503-551 | Over every run in which kills work and liveness tests answer, a tripped or fused daemon runs no worker; every event arms, checks and trips as its own readings say. |
| `LogPipe.LinesJoin` | cpdaemon/pkg/worker/log.go:50-73 | Reading on from the unfinished line gives what reading from the start gives. |
| `LogPipe.LinesReadBack` | cpdaemon/pkg/worker/log.go:50-73 | Lines written with either line end come out as they were, and empty ones do not. |
| `LogPipe.PipeWriter.AddToRem` | cpdaemon/pkg/worker/log.go:75-85 | Appends a prefix of the bytes, all of them up to 1024. |
| `LogPipe.PipeWriter.Write` | cpdaemon/pkg/worker/log.go:50-73 | One chunk shows the finished non-empty lines of the stream, stripped of one carriage return, and keeps the rest. |
| `LogPipe.WriteAll` | cpdaemon/pkg/worker/log.go:50-85 | For lines up to 1024 bytes every way of cutting the stream shows the same lines. |

## Left out

- The reload protocol is a transition system over values, not classes: each thread's next access is a step, so updates in place appear as steps and not as object mutation.
- Threads are sequentially consistent: weaker memory orders are not modelled.
- ReloadProgress.ReloadsCanFinish: that the scheduler lets every thread run again and again is not modelled, so it is stated that a reload can finish, not that it does.
- ReqReply.ReplyGoesTheOtherWay: the ends must not overlap (an IPv4 header of its full length), and a UDP source port must not itself be a VXLAN port, since the reply would then be walked further in.
- Shutdown of the worker threads and of the daemon: the model's threads keep running.
- ZmqOutput.Output.Heartbeat: the millisecond differences are unbounded integers, and the log lines and error summaries of the outputs are not modelled.
- VxlanOutput.Output.DoSend: the VNI field, its checksum byte, the appended capture time and the pauses between attempts are not modelled.
- PacketSplit.BuildFragment: the product of fragment index and limit is an unbounded integer; a 32-bit overflow needs an index far past the last fragment.
- TokenBucket.Throttle.Consume: refill is exact integer arithmetic in microseconds instead of floating point.
- Syncer.Syncer.OnFuseTick: the configured ring in the report is that of the running tasks, not computed again from the strategy.
- LogPipe.PipeWriter.Write: for longer lines only that shown lines are kept is stated, since what is cut depends on the buffer's capacity.
- ReqParser.Parser.ConditionRule: address lookup is a function parameter that stands for interface lookup and text conversion of addresses.
- Syncer.Manager.Create: directories, client connections and worker objects are one outcome each; resource limits and stopping are answers of the outside.
- Mempool.AllocKeepsLayout: the pool is used by one thread at a time, as whole operations.
- File, rotating file and capture back ends, command sockets, HTTP and JSON: foreign calls or plain field handling.
- The rest of configuration parsing: field by field checks.
- The MAC comparison of automatic request patterns: one comparison.
