# A verified model of NVSHMEM's stateful core

NVSHMEM gives every GPU process (a PE) a symmetric heap that the other PEs can read and write. This
project models, in Dafny, the parts of it whose correctness is a global argument, and proves that
argument for all inputs, all interleavings and all reachable states:

- **Ring all-reduce** (`RingAllReduce`, `RingLimits`, `RingLaunches`, `RingBlocks`). PEs pass chunks
  round a ring twice and synchronise only by a counter that the left neighbour increments. Puts are
  non-blocking: the model fetches their data when they land, in any order. Any number of PEs and chunks,
  any value type, any `add`, and any number of launches.
- **GPU-to-CPU proxy channel** (`ProxyCodec`, `ProxyHost`, `ProxyChannel`, `ProxyQuiet`, `ProxyFlush`,
  `ProxyProgress`, `ProxyThread`, `ProxyService`). A lock-free ring buffer with a lap-parity flag in every entry,
  requests of different lengths, lazily published completion and a three-state quiet machine. The
  device packs requests, the host unpacks them; both sides are modelled to the bit. Runs of the thread
  that calls the host's methods are proved to be runs of the step system and to serve all that arrives.
- **Symmetric-heap allocator** (`ChunkMaps`, `HeapSpace`, `HeapRuns`, `Mspace`). First fit with eager
  coalescing over two mirrored maps and an in-use map.
- **Dynamic heap** (`GranuleIndex`, `HeapGrowth`, `HeapSymmetry`, `DynamicHeap`). Growth by granules,
  registration in pieces, the granule-to-handle index, and the symmetry of offsets between PEs.
- **Registered-buffer cache** (`BufferCache`). A growable sorted array of linked handles with bisection.
- **Splitting transfers** (`Transfer`). Pieces that lie within one handle on either side.
- **On-stream team synchronisation** (`P2pSync`). A barrier on sequence numbers that are never reset.

Code that updates state in place is modelled by classes whose methods state their whole new state as a
function of the old one; protocols are step systems with an inductive invariant. `Arithmetic`, `Intervals`
and `Limits` hold division facts, interval sets and shared constants. `hide` statements in proofs only narrow what the solver looks at.

Premises: 8-byte entries and signals appear atomically and in one order (no weak memory); a put's signal
follows its own data and the signals of one sender arrive in order; integers do not overflow except where
a field width or a C type is written out; CUDA, transport and bootstrap calls succeed and appear as
abstract steps or logged events; there is one proxy channel, as `CHANNEL_COUNT` says. The invariant of the
ring (`RingAllReduce`) is proved where the waits count the turns of the loops (`WaitsMatch`): with two PEs,
or with more and a chunk size that divides the block. `RingLimits` proves that this premise is exact.

Where the code does not do what its callers might expect, the model follows the code, a lemma shows a
concrete failure and another gives the exact condition under which the expectation is met:

- the waits of the ring's broadcast count whole chunks while its loops also make a turn for the rest, and
  alone in the ring a PE never waits: a block's result is right iff it has no elements, or there are two
  PEs, or there are more and its chunks fill it exactly (`CorrectIffChunksFit`, `SettledIff`,
  `EarlyFinish`, `ThreePesShortChunk`);
- a chunk that does not fit reaches into the next block, and a remainder of the array is left alone: the
  blocks share the array out iff both divisions are exact, or there is one block (`SharedOutIff`);
- the kernel resets its signal for the next launch, but a PE that starts again at once can have a signal
  wiped out by its neighbour's reset, after which the neighbour never finishes: launches need a barrier
  between them iff there is data (`NeverHangsIff`, `SecondLaunchCanHang`), and with one every launch is
  right (`EveryLaunchCorrect`);
- a fence on queue pairs packs the operation over the PE: the host reads the right PE only for PE 106
  (`RoundTripIff`, `QpFenceReachesWrongPe`);
- growing a block in place gives back the wrong number of bytes unless the two happen to agree, and
  reallocation to zero ends the process (`ReallocateKeepsInvIff`, `ReallocateLosesBytes`);
- reallocating a pointer that is not in use, the null pointer among them, breaks the allocator's state
  unless the pointer happens to border a free chunk, the copy being taken to succeed
  (`ReallocateUnusedIff`, `ReallocateNullBreaksInv`);
- registering a buffer does not look at the next one: the cache stays sorted iff the new buffer ends
  before it (`RegisterKeepsSortedIff`, `RegisterAcceptsOverlap`);
- unregistering an inner handle of a buffer strands the handles before it (`UnregisterKeepsLinkedIff`,
  `UnregisterStrandsHandles`);
- on-stream synchronisation passes team ranks as PE numbers: it works iff every rank is on the PE of its
  own number or the team has one member, and otherwise a misplaced rank hangs in its first round
  (`WorksIffRanksArePes`, `RunHangs`);
- a request longer than the channel less 1016 bytes can wait for ever (`SticksIffLong`);
- a space whose capacity does not cover its alignment offset wraps to nearly the whole address range
  (`NewSpaceIff`), and aligned allocation divides by zero on alignment 0 (`AllocateAligned`) and, without
  its assertion, is right for every state iff the alignment divides 512 or is a multiple of it
  (`AlignmentsIff`);
- the granule index is read past its end for an address between the heap's own memory and the mapped user
  buffers; there is such an address iff the two leave a gap, and growth always leaves one
  (`PastIndexIff`, `GrowthKeepsGap`).

## Model

| member | source | states |
|---|---|---|
| RingAllReduce.Pred | nvshmem4py/examples/device_ring_all_reduce.py:15 | the left neighbour is the PE whose right neighbour this one is |
| RingAllReduce.ReduceChain | nvshmem4py/examples/device_ring_all_reduce.py:38-53 | a PE that put its partial sum of a chunk did so after every PE to its left had delivered theirs |
| RingAllReduce.BcastChain | nvshmem4py/examples/device_ring_all_reduce.py:58-67 | a PE that forwards a result does so after every partial sum of that chunk was delivered, all round the ring |
| RingAllReduce.BroadcastComesAfterPut | nvshmem4py/examples/device_ring_all_reduce.py:38-67 | a result lands on a PE only after that PE added and delivered its own partial sum of the chunk |
| RingAllReduce.SourceStable | nvshmem4py/examples/device_ring_all_reduce.py:50-67 | from the issue of any put to its delivery its source chunk holds what it held at the issue, so the puts may be non-blocking |
| RingAllReduce.AddRacesWithNothing | nvshmem4py/examples/device_ring_all_reduce.py:41-53 | while a PE adds into a chunk, no put still in flight targets that chunk |
| RingAllReduce.ResetAfterLastSignal | nvshmem4py/examples/device_ring_all_reduce.py:69-70 | a PE that resets its signal has received every signal it will ever be sent |
| RingAllReduce.InitInv | nvshmem4py/examples/device_ring_all_reduce.py:11-36 | the invariant holds at launch, whatever dst holds |
| RingAllReduce.SignalKeepsInv | nvshmem4py/examples/device_ring_all_reduce.py:52-53 | arrival of a signal keeps the invariant |
| RingAllReduce.LandKeepsInv | nvshmem4py/examples/device_ring_all_reduce.py:52-53 | landing of a put's data, fetched at that moment and in any order, keeps the invariant |
| RingAllReduce.PeKeepsInv | nvshmem4py/examples/device_ring_all_reduce.py:38-70 | every step of the kernel (wait, add, put, reset) keeps the invariant |
| RingAllReduce.RunInv | nvshmem4py/examples/device_ring_all_reduce.py:38-70 | where the waits match the loops, the invariant holds in every state of every run |
| RingAllReduce.FinishedHoldsResult | nvshmem4py/examples/device_ring_all_reduce.py:57-70 | a PE that has finished holds, in every chunk, the left-to-right sum of all PEs' src, and nothing is in flight to it |
| RingAllReduce.AllReduceCorrect | nvshmem4py/examples/device_ring_all_reduce.py:35-70 | in every run, where the waits match the loops, a finished PE holds the result in every chunk, and no later event changes that |
| RingAllReduce.StepDoesWork | nvshmem4py/examples/device_ring_all_reduce.py:38-70 | a measure falls at every step of any PE or of the network |
| RingAllReduce.RunsAreBounded | nvshmem4py/examples/device_ring_all_reduce.py:38-70 | no run has more than npes * (15 * chunks + 6) steps |
| RingAllReduce.NoDeadlock | nvshmem4py/examples/device_ring_all_reduce.py:42-43 | while some PE has not finished, some step is enabled |
| RingAllReduce.MaximalRunSucceeds | nvshmem4py/examples/device_ring_all_reduce.py:58-70 | a run that cannot go on left every PE finished with the result, every signal zero and no put in flight |
| RingAllReduce.AddBlock | nvshmem4py/examples/device_ring_all_reduce.py:45-48 | the threads of a block, each with its stride, add every element exactly once |
| RingAllReduce.IterationsAreNumChunks | nvshmem4py/examples/device_ring_all_reduce.py:33-38 | the loops make as many turns as num_chunks, which the broadcast's waits count on, when the chunks fill the block exactly, and one more otherwise; none iff the block is empty |
| RingLimits.RunCounts | nvshmem4py/examples/device_ring_all_reduce.py:38-70 | however the waits are set, the puts in flight are numbered as issued, the signal of an unfinished PE counts the deliveries to it, and no reduce wait is passed early |
| RingLimits.EarlyFinish | nvshmem4py/examples/device_ring_all_reduce.py:33-70 | with three or more PEs and chunks that do not fill the block, every launch has a run in which PE 1 finishes with the first two PEs' sum in its last chunk and the result still on its way |
| RingLimits.ThreePesShortChunk | nvshmem4py/examples/device_ring_all_reduce.py:33-63 | three PEs, one element, chunks of two: PE 1 can finish with 3 where the sum is 6 |
| RingLimits.AlonePeOutrunsItsPuts | nvshmem4py/examples/device_ring_all_reduce.py:41-63 | with one PE no wait ever holds: it can finish with dst unchanged and none of its puts delivered |
| RingLimits.SettledIff | nvshmem4py/examples/device_ring_all_reduce.py:33-70 | in every run a finished PE has no put on its way to it, iff there are no chunks, or two PEs, or more PEs and as many loop turns as the waits count |
| RingLimits.CorrectIfWaitsMatch | nvshmem4py/examples/device_ring_all_reduce.py:33-70 | where the waits count the loop turns, or two PEs make that irrelevant, a finished PE holds the result in every run |
| RingLimits.WrongEarly | nvshmem4py/examples/device_ring_all_reduce.py:33-70 | with three or more PEs and chunks that do not fill the block, the result is wrong in some run for all data whose sum over the first two PEs differs in the last chunk from the whole sum |
| RingLimits.WrongData | nvshmem4py/examples/device_ring_all_reduce.py:33-70 | where they do not, there are data and a run that leave a finished PE with a wrong result |
| RingLimits.CorrectIffChunksFit | nvshmem4py/examples/device_ring_all_reduce.py:33-70 | over all data, additions and runs of a block, a finished PE holds the result iff the block is empty, or there are two PEs, or there are more and the chunk size divides the block |
| RingLaunches.RestartIsInit | nvshmem4py/examples/device_ring_all_reduce.py:69-70 | once every PE has finished, a new launch starts from zero signals and nothing in flight, like the first |
| RingLaunches.EveryLaunchCorrect | nvshmem4py/examples/device_ring_all_reduce.py:35-70 | over any number of launches with a barrier between them, a PE that finished a launch holds that launch's result |
| RingLaunches.EveryLaunchEnds | nvshmem4py/examples/device_ring_all_reduce.py:35-70 | a run of such launches that cannot go on has finished the last launch on every PE |
| RingLaunches.OnlyResetIsLeft | nvshmem4py/examples/device_ring_all_reduce.py:58-70 | when only the reset of PE 1 is left to do, PE 0 has finished and nothing is in flight to PE 1 |
| RingLaunches.ResetLosesSignal | nvshmem4py/examples/device_ring_all_reduce.py:50-70 | PE 0 starts again and its first put arrives before that reset: PE 1 is one signal short |
| RingLaunches.MoveKeepsLost | nvshmem4py/examples/device_ring_all_reduce.py:38-70 | a lost signal stays lost: no step of either launch lets PE 1 past its last wait |
| RingLaunches.SecondLaunchCanHang | nvshmem4py/examples/device_ring_all_reduce.py:35-70 | without a barrier, from every initial state, some run of two launches reaches a state from which no continuation lets PE 1 finish the second |
| RingLaunches.NeverHangsIff | nvshmem4py/examples/device_ring_all_reduce.py:35-70 | two launches without a barrier can always be finished by every PE iff there is no data |
| RingBlocks.TouchesIff | nvshmem4py/examples/device_ring_all_reduce.py:21-38 | a block works on its own elements and on those its last chunk reaches beyond them |
| RingBlocks.LastChunkReachesOut | nvshmem4py/examples/device_ring_all_reduce.py:35-40 | a block whose chunks do not fill it works on the first element of the next block, as that block does |
| RingBlocks.SharedOutIff | nvshmem4py/examples/device_ring_all_reduce.py:21-40 | every element of the array belongs to exactly one block iff there is one block, or the blocks divide the array and the chunks the blocks exactly |
| ProxyCodec.LengthsAgree | src/host/proxy/proxy.cpp:1276-1337 | for every request the host's handler reads exactly as many entries as the device wrote |
| ProxyCodec.HandlersIff | src/host/proxy/proxy.cpp:1284-1339 | the host has a handler for exactly the operations that some request of a device carries |
| ProxyCodec.DmaRoundTrip | src/host/proxy/proxy.cpp:382-459 | a put or get is decoded as asked iff offset, size and PE fit 40, 48 and 16 bits |
| ProxyCodec.InlineRoundTrip | src/host/proxy/proxy.cpp:461-560 | an inline put of 1, 2, 4 or 8 bytes is decoded as asked iff offset and PE fit |
| ProxyCodec.AmoRoundTrip | src/host/proxy/proxy.cpp:562-687 | an atomic is decoded as asked, compare value and fetch counter included where they are used, iff its fields fit |
| ProxyCodec.PutSignalRoundTrip | src/host/proxy/proxy.cpp:1073-1241 | a put with signal is decoded as asked iff both offsets, size and PE fit |
| ProxyCodec.QpQuietRoundTrip | src/include/non_abi/device/pt-to-pt/proxy_device.cuh:78-109 | a quiet on queue pairs is decoded as asked iff it names no queue pair or the PE fits 16 bits |
| ProxyCodec.FencePe | src/include/non_abi/device/pt-to-pt/proxy_device.cuh:780-793 | the PE packed over the operation and the queue pair is read back right iff it is PE 106, and then so is the queue pair |
| ProxyCodec.QpFenceRoundTrip | src/include/non_abi/device/pt-to-pt/proxy_device.cuh:756-795 | a fence on queue pairs is decoded as asked iff it names no queue pair or PE 106 |
| ProxyCodec.RoundTripIff | src/include/device_host/nvshmem_proxy_channel.h:24-245 | over all kinds of request, the host executes what the device asked for iff every argument fits its field |
| ProxyCodec.QpFenceReachesWrongPe | src/include/non_abi/device/pt-to-pt/proxy_device.cuh:785-793 | a fence for PE 3 is handed to the transport as one for PE 106 |
| ProxyHost.UnitsAgree | src/host/proxy/proxy_host.h:17-18 | the wrap and flag macros on byte counters are those of the model on entries |
| ProxyChannel.StreamAt | src/include/non_abi/device/pt-to-pt/proxy_device.cuh:223-275 | entry i of the k-th reserved request is at the position the reservations give it |
| ProxyChannel.FlagMeansWritten | src/host/proxy/proxy.cpp:1100-1127 | in the window of n positions from the host's, a slot's flag is right iff the position was written in this lap |
| ProxyChannel.LapAheadNotSet | src/host/proxy/proxy.cpp:1253-1270 | one full lap ahead the flag is not right, so no wait runs past the buffer |
| ProxyChannel.Freshness | src/host/proxy/proxy.cpp:1253-1270 | under the invariant a flag in the window is set iff the entry was written |
| ProxyChannel.FlagBytes | src/host/proxy/proxy.cpp:1259-1261 | masking a base entry's flag byte, as the poll does, changes nothing |
| ProxyChannel.ReserveKeepsInv | src/include/non_abi/device/pt-to-pt/proxy_device.cuh:223-226 | reserving space for a request keeps the channel invariant |
| ProxyChannel.WriteKeepsInv | src/include/non_abi/device/pt-to-pt/proxy_device.cuh:50-65 | writing any entry, in any order, keeps the channel invariant when the flow control lets the request through |
| ProxyChannel.SeeKeepsInv | src/host/proxy/proxy.cpp:398-414 | the host leaves a wait on a flag only when that entry was written, and the invariant is kept |
| ProxyChannel.ReadsCommand | src/host/proxy/proxy.cpp:395-431 | when all flags of a request were seen, what the host reads in the slots is the whole request at its position |
| ProxyChannel.ExecuteKeepsInv | src/host/proxy/proxy.cpp:1276-1341 | executing a request appends exactly the next issued request and keeps the channel invariant |
| ProxyQuiet.DrainEarned | src/host/proxy/proxy.cpp:807-835 | an ack comes after a quiet on every transport, after every request below it, and after a flush for every get |
| ProxyQuiet.QuietsAre | src/host/proxy/proxy.cpp:812-823 | one quiet for each PE that has a transport, in order, and none for another |
| ProxyQuiet.DrainKeepsLog | src/host/proxy/proxy.cpp:807-835 | draining a quiet keeps every earlier ack earned, settles every get so far and executes nothing |
| ProxyQuiet.NextKeepsInv | src/host/proxy/proxy.cpp:1243-1352 | every step of device or host keeps the whole invariant |
| ProxyQuiet.RunInv | src/host/proxy/proxy.cpp:1446-1465 | the invariant holds in every state of every run |
| ProxyQuiet.RunFreshness | src/host/proxy/proxy.cpp:1100-1152 | in every reachable state a flag in the window is set iff the entry was written in this lap |
| ProxyQuiet.ExecutedExactlyOnce | src/host/proxy/proxy.cpp:1243-1352 | processed is always a request boundary and the commands executed are the issued requests in order, each once |
| ProxyQuiet.QuietSound | src/host/proxy/proxy.cpp:737-837 | in every run, before every ack every request below the acked position was executed, then all transports quieted, and every get, single-element get and quiet-completed fetching atomic among those requests was quieted and then flushed; ack <= last issue <= issue |
| ProxyQuiet.GetsAreRecognised | src/host/proxy/proxy.cpp:1292-1311 | the host takes for a get exactly the requests that are one, whatever else of their arguments the packing loses, and for a quiet on queue pairs exactly those |
| ProxyQuiet.QpQuietSound | src/host/proxy/proxy.cpp:976-1037 | in every run, where a request is a quiet on queue pairs, its completion is published at the position just after it, every earlier request was executed before it, and each of those that writes local memory was settled already or is flushed between the quiet and that publication |
| ProxyFlush.RunFlushInv | src/host/proxy/proxy.cpp:829-832 | in every run the host remembers a get exactly as long as one was executed since the last ack |
| ProxyFlush.FlushOnlyForGets | src/host/proxy/proxy.cpp:829-832 | in every run a flush follows a request that writes local memory with no ack in between |
| ProxyFlush.QuietOnlyTransports | src/host/proxy/proxy.cpp:812-823 | in every run only PEs that have a transport are quieted |
| ProxyQuiet.PublishedExactly | src/host/proxy/proxy.cpp:148-156 | completion is only ever published for exactly the requests executed so far |
| ProxyQuiet.CompletionPublished | src/host/proxy/proxy.cpp:148-156 | complete never exceeds processed, trails it by less than 1024 bytes, equals it after a quiet on queue pairs, and all counters only grow |
| ProxyProgress.NeverStuck | src/include/non_abi/device/pt-to-pt/proxy_device.cuh:50-65 | with requests no longer than the buffer less 1016 bytes, some step can serve whatever is left to do |
| ProxyProgress.StepDoesWork | src/host/proxy/proxy.cpp:1446-1465 | a measure falls at every step that writes, reads, executes or progresses quiet |
| ProxyProgress.Drains | src/host/proxy/proxy.cpp:1446-1465 | from every reachable state serving ends after a bounded number of steps, and only when every request is executed and every quiet acked |
| ProxyProgress.BlockedForEver | src/include/non_abi/device/pt-to-pt/proxy_device.cuh:50-65 | a next request that the flow control holds back stays so in every continuation of the run, whatever device and host do |
| ProxyProgress.WaitsForEverIffBlocked | src/include/non_abi/device/pt-to-pt/proxy_device.cuh:50-65 | a request waits in every continuation of a run iff it is next, has no entry yet and ends beyond complete plus the buffer |
| ProxyProgress.BlockedIsLong | src/host/proxy/proxy.cpp:148-156 | whatever else was issued, only a request longer than the bound is ever held back for ever |
| ProxyProgress.LongSticks | src/host/proxy/proxy.cpp:148-156 | for every longer request there is a run, through at most 127 fences, after which it waits for ever |
| ProxyProgress.SticksIffLong | src/host/proxy/proxy.cpp:148-156 | some run, with any other requests, leaves a request next and waiting for ever iff it is longer than the buffer less 1016 bytes |
| ProxyThread.ProxyState.constructor | src/host/proxy/proxy.cpp:158-200 | a new channel is the initial state of the step system |
| ProxyThread.ProxyState.UpdateProcessed | src/host/proxy/proxy.cpp:148-156 | advances processed and publishes completion when it lags by 1024 bytes or is forced |
| ProxyThread.ProxyState.WaitForEntries | src/host/proxy/proxy.cpp:398-414 | sees the flags of a request's entries in order, as far as they are set |
| ProxyThread.ProxyState.ReadRequest | src/host/proxy/proxy.cpp:395-431 | collects the payloads of a request's entries, wrapping round the buffer |
| ProxyThread.ProxyState.ExecuteRequest | src/host/proxy/proxy.cpp:416-458 | decodes the request and hands it over, then advances processed and remembers a get |
| ProxyThread.ProxyState.ProcessRequest | src/host/proxy/proxy.cpp:1276-1341 | waits for the entries and executes the request when all are there; exits iff its operation has no handler |
| ProxyThread.ProxyState.ProgressChannels | src/host/proxy/proxy.cpp:1243-1352 | is as many turns of the polling loop as the batch allows, whatever has arrived, and exits iff one meets an operation without a handler |
| ProxyThread.ProxyState.QuietChannelsCheck | src/host/proxy/proxy.cpp:746-760 | takes over a larger quiet issue and says so |
| ProxyThread.ProxyState.QuietTransports | src/host/proxy/proxy.cpp:810-824 | quiets every PE that has a transport, in order |
| ProxyThread.ProxyState.ProgressQuiet | src/host/proxy/proxy.cpp:788-837 | is the check, test and drain of the step system, in that order |
| ProxyThread.ProcessIsSteps | src/host/proxy/proxy.cpp:382-459 | processing a request, as far as it has arrived, is a sequence of steps of the system |
| ProxyThread.TurnsAreSteps | src/host/proxy/proxy.cpp:1253-1345 | polling a batch is a sequence of steps of the system from any state |
| ProxyThread.QuietCallIsSteps | src/host/proxy/proxy.cpp:788-837 | progressing quiet is at most one step of each kind |
| ProxyThread.ThreadRunIsRun | src/host/proxy/proxy.cpp:1446-1465 | every state of every run of the thread's calls, beside any device, ends a run of the step system and meets its invariant |
| ProxyThread.ThreadNeverExits | src/host/proxy/proxy.cpp:1336-1338 | no turn of any polling call in such a run meets an operation without a handler |
| ProxyService.WaitReaches | src/host/proxy/proxy.cpp:382-459 | a handler waits at the first entry that is not written, and has them all iff the whole request is written |
| ProxyService.TurnServes | src/host/proxy/proxy.cpp:1284-1341 | a turn of the polling loop executes the next request iff it is fully written |
| ProxyService.PollExecutes | src/host/proxy/proxy.cpp:1255-1350 | from every state that meets the invariant, a poll of m turns executes the lesser of m and the number of fully written requests that come next |
| ProxyService.PollServes | src/host/proxy/proxy.cpp:1255-1350 | the same in every run of the thread beside any device; what was executed stays, and with turns to spare the host waits at the first missing entry |
| ProxyService.QuietCallServes | src/host/proxy/proxy.cpp:788-837 | once everything is executed, each quiet call acks the quiet in progress, and one that finds none acks the latest |
| ProxyService.PollsExecute | src/host/proxy/proxy.cpp:1255-1350 | with everything written, any polls and quiet calls execute one request for each turn until none is left |
| ProxyService.ThreadDrains | src/host/proxy/proxy.cpp:1446-1465 | with everything written, polls with a turn for each request left and then two quiet calls, among any other calls, leave every request executed and every quiet acked |
| ProxyService.ThreadCanFinish | src/host/proxy/proxy.cpp:1446-1465 | from every such state of every run three calls do it |
| HeapSpace.AlignRequest | src/host/mem/custom_malloc.cpp:134 | the least multiple of 512 that is not less than the request |
| HeapSpace.FirstFit | src/host/mem/custom_malloc.cpp:135-137 | the lowest free chunk that is large enough, null iff there is none |
| HeapSpace.Canonical | src/host/mem/custom_malloc.cpp:90-122 | two states that manage the same bytes and have the same blocks in use have the same free maps, however they were reached |
| HeapSpace.Conservation | src/host/mem/custom_malloc.cpp:40-46 | free sizes by start, free sizes by end and in-use sizes add up to total_size |
| HeapSpace.AddFreeCovers | src/host/mem/custom_malloc.cpp:90-122 | freeing a chunk makes exactly its bytes free |
| HeapSpace.AddFreeKeepsFree | src/host/mem/custom_malloc.cpp:97-120 | merging both ways keeps the two maps mirrored and no two free chunks touching |
| HeapSpace.FreshInv | src/host/mem/custom_malloc.cpp:74-88 | a new space meets the invariant on its aligned range |
| HeapSpace.NewSpaceIff | src/host/mem/custom_malloc.cpp:74-85 | a new space keeps the invariant for exactly the aligned part of its range, and only if its capacity covers the alignment offset; otherwise for no set of bytes |
| HeapSpace.NewSpaceIsModular | src/host/mem/custom_malloc.cpp:74-85 | its size is the capacity less the offset modulo 2^64, and its end the start plus that size modulo 2^64 |
| HeapSpace.AddNewKeepsInv | src/host/mem/custom_malloc.cpp:124-127 | adding memory keeps the invariant and adds exactly its bytes to the managed ones |
| HeapSpace.DeallocateKeepsInv | src/host/mem/custom_malloc.cpp:157-169 | freeing a block keeps the invariant and removes just that block |
| HeapSpace.AllocateKeepsInv | src/host/mem/custom_malloc.cpp:131-155 | allocation keeps the invariant and adds one new block of the rounded size, or changes nothing |
| HeapSpace.AllocateComplete | src/host/mem/custom_malloc.cpp:131-155 | null iff no run of that many free bytes exists anywhere; otherwise the lowest such run, aligned and clear of every block |
| HeapSpace.FreeUndoesAllocate | src/host/mem/custom_malloc.cpp:131-169 | freeing a block that was just allocated restores the state, both maps included |
| HeapSpace.FreeAllRestores | src/host/mem/custom_malloc.cpp:157-169 | freeing all blocks in any order gives the maps of a space with nothing allocated |
| HeapRuns.AllocateAlignedKeepsInv | src/host/mem/custom_malloc.cpp:181-196 | aligned allocation keeps the invariant, succeeds iff a run of the padded size exists, and returns the first aligned address in the lowest such run, as a new block longer than asked for |
| HeapRuns.AnyAlignmentKeepsInvIff | src/host/mem/custom_malloc.cpp:181-196 | for any alignment, aligned allocation keeps the invariant iff it returns null or a multiple of 512 |
| HeapRuns.AlignmentsIff | src/host/mem/custom_malloc.cpp:183-188 | rounding up from every multiple of 512 gives one again iff the alignment divides 512 or is a multiple of it |
| HeapRuns.ReallocateKeepsInvIff | src/host/mem/custom_malloc.cpp:198-230 | reallocation keeps the invariant iff it does not grow in place with a wrong leftover; it exits iff the size is zero; the block returned is large enough; null means no room |
| HeapRuns.ReallocateBlocks | src/host/mem/custom_malloc.cpp:198-230 | only the one block changes; it stays iff it need not grow or the bytes it grows by are free, else it moves to the lowest run of its size, and null is returned iff there is none |
| HeapRuns.GrowsInPlaceIff | src/host/mem/custom_malloc.cpp:207-210 | the test on the free map finds room behind a block iff the bytes the block has to grow by are free |
| HeapRuns.GrowInPlaceSum | src/host/mem/custom_malloc.cpp:208-218 | growing in place accounts for every byte iff the leftover given back is the leftover there is |
| HeapRuns.ReallocateLosesBytes | src/host/mem/custom_malloc.cpp:214-216 | growing 512 bytes to 1024 before 1536 free ones breaks conservation |
| HeapRuns.ReallocateUnusedIff | src/host/mem/custom_malloc.cpp:198-230 | reallocating a pointer that is not in use returns and keeps the invariant iff the size is positive and the pointer starts a free chunk of exactly one or two times the size, or else the allocation succeeds and the pointer then borders a free chunk |
| HeapRuns.FreeNothingIff | src/host/mem/custom_malloc.cpp:90-122 | freeing no bytes keeps the invariant iff a free chunk begins or ends there |
| HeapRuns.ReallocateNullBreaksInv | src/host/mem/custom_malloc.cpp:198-230 | reallocating the null pointer in a new space breaks the invariant |
| HeapRuns.RunKeepsInv | src/host/mem/custom_malloc.cpp:74-230 | the invariant is kept over every sequence of legal calls |
| HeapRuns.HeapInvariant | src/host/mem/custom_malloc.cpp:40-46 | after every sequence of legal calls on a new space the invariant and the debug assertions hold |
| HeapRuns.SymmetricAllocation | src/host/mem/custom_malloc.cpp:131-196 | two spaces whose bases differ by a multiple of 512 and of every alignment asked for return pointers at equal offsets for the same calls |
| Mspace.MSpace.constructor | src/host/mem/custom_malloc.cpp:74-88 | one free chunk over the aligned part of the range, or none; the wrap-around of size and end included |
| Mspace.MSpace.AddFreeChunk | src/host/mem/custom_malloc.cpp:90-122 | merges a chunk with its free neighbours; exits iff a block in use starts there |
| Mspace.MSpace.AddNewChunk | src/host/mem/custom_malloc.cpp:124-127 | adds memory to the free chunks and to the total |
| Mspace.MSpace.FindFirstFit | src/host/mem/custom_malloc.cpp:135-137 | the loop over the ordered map finds the lowest free chunk that is large enough |
| Mspace.MSpace.Allocate | src/host/mem/custom_malloc.cpp:131-155 | takes the front of that chunk, or fails |
| Mspace.MSpace.Deallocate | src/host/mem/custom_malloc.cpp:157-169 | frees a block; exits iff the pointer is not in use |
| Mspace.MSpace.AllocateZeroed | src/host/mem/custom_malloc.cpp:171-179 | allocates count times size bytes |
| Mspace.MSpace.AllocateAligned | src/host/mem/custom_malloc.cpp:181-196 | for any alignment, whether or not it passes the assertion, allocates padded, rounds up and frees the front; divides by zero iff the alignment is 0 and the allocation succeeded |
| Mspace.MSpace.Reallocate | src/host/mem/custom_malloc.cpp:198-230 | shrinks, grows in place, moves or fails as the value model says, a pointer not in use counting as an empty block |
| GranuleIndex.MaxRegistration | src/host/mem/mem_heap.cpp:1133-1134 | the largest number of whole granules within the longest handle |
| GranuleIndex.RegistrationsTile | src/host/mem/mem_heap.cpp:1169-1190 | new memory is registered in consecutive chunks of whole granules, all but the last of the greatest length |
| GranuleIndex.TableLength | src/host/mem/mem_heap.cpp:331-333 | the index has one entry for each granule |
| GranuleIndex.TableNames | src/host/mem/mem_heap.cpp:193-204 | the entry found from an offset names the handle, start and size of the chunk around that byte |
| GranuleIndex.TileUnique | src/host/mem/mem_heap.cpp:1169-1190 | no other registered chunk contains that byte |
| HeapGrowth.GrowthFacts | src/host/mem/mem_heap.cpp:1737 | growth is the least number of whole granules not below the request, and has room for the aligned request |
| HeapGrowth.IndexNamesChunk | src/include/internal/host/nvshmemi_symmetric_heap.hpp:285-299 | one entry per granule of physical heap, and the entry at offset / granularity names the only chunk with that offset |
| HeapGrowth.IndexBounds | src/include/internal/host/nvshmemi_symmetric_heap.hpp:285-297 | the index has an entry for an offset iff the offset has physical memory |
| HeapGrowth.GrownOk | src/host/mem/mem_heap.cpp:1121-1194 | adding memory keeps the allocator's invariant on exactly the physical range, and the index right |
| HeapGrowth.AttemptOutcome | src/host/mem/mem_heap.cpp:1801-1819 | each kind of request succeeds iff it asks for something and a long enough free run exists; the block is new, long enough and aligned |
| HeapGrowth.GrownHasRoom | src/host/mem/mem_heap.cpp:1828-1837 | after growth for a request there is a free run for it |
| HeapGrowth.ServeOutcome | src/host/mem/mem_heap.cpp:1821-1846 | with `need` the least multiple of the granularity not below the bytes wanted: a block is returned iff there was room or physical, mapped and needed bytes together stay below the reserved size; the heap grows by `need` iff there was no room; the retry after growth never fails; the heap goes down iff a request of non-zero size fails |
| HeapSymmetry.RunKeepsOk | src/host/mem/mem_heap.cpp:1821-1846 | in every heap reached from a new one the invariant and the index hold and physical memory stays within the reserved range |
| HeapSymmetry.HeapConserved | src/host/mem/mem_heap.cpp:1166-1185 | free and in-use sizes add up to the physical memory |
| HeapSymmetry.RunsStayShifted | src/host/mem/mem_heap.cpp:1821-1846 | given a legal run of one PE, a PE that gets the same events has a heap that stays its image, and grows, answers and goes down alike |
| HeapSymmetry.TwinRunIsLegal | src/host/mem/mem_heap.cpp:1821-1846 | the same events are a legal run of that PE |
| HeapSymmetry.LocatedAlike | src/include/internal/host/nvshmemi_symmetric_heap.hpp:306-320 | every PE finds an offset under the same handle number at the same place in its chunk, and that chunk contains it |
| HeapSymmetry.LocatedIs | src/include/internal/host/nvshmemi_symmetric_heap.hpp:306-320 | the handle found for an offset is the only one whose chunk contains it, with the offset's place in that chunk |
| HeapSymmetry.PeerPtrIff | src/host/mem/mem_heap.cpp:2401-2413 | null iff the PE is out of range or not mapped here or the address is outside the heap; otherwise an address in that PE's mapping at the same offset |
| HeapSymmetry.PeerPtrOfBlock | src/host/mem/mem_heap.cpp:2401-2413 | in every run and for every byte of every live block: the peer has a block of the same size at the same offset, and the address is null iff the peer is not mapped here and else that byte of the peer's block in its mapping |
| HeapSymmetry.PeerPtrNamesSameBlock | src/host/mem/mem_heap.cpp:2401-2413 | the address computed for a peer is null iff the peer is not mapped here, and otherwise that of the block the peer got for the same request |
| DynamicHeap.SymmetricHeap.constructor | src/host/mem/mem_heap.cpp:408-413 | a heap without physical memory that meets the invariant |
| DynamicHeap.SymmetricHeap.UpdateHeapHandleCache | src/host/mem/mem_heap.cpp:317-338 | appends one entry for each granule of the chunk registered last |
| DynamicHeap.SymmetricHeap.RegisterHeapChunkBySize | src/host/mem/mem_heap.cpp:1062-1119 | appends a handle and its entries |
| DynamicHeap.SymmetricHeap.RegisterPieces | src/host/mem/mem_heap.cpp:1169-1190 | the do-while loop registers all of the new memory and counts it as physical |
| DynamicHeap.SymmetricHeap.RegisterHeapMemory | src/host/mem/mem_heap.cpp:1121-1194 | size zero is refused; otherwise allocator, handles, index and size grow together |
| DynamicHeap.SymmetricHeap.AllocatePhysicalMemoryToHeap | src/host/mem/mem_heap.cpp:1736-1796 | succeeds iff the least number of granules for the bytes is not zero and stays below the reserved range, and then the heap has grown by it |
| DynamicHeap.SymmetricHeap.AllocateVirtualMemoryFromMspace | src/host/mem/mem_heap.cpp:1801-1819 | dispatches to malloc, calloc or align |
| DynamicHeap.SymmetricHeap.TryGrowAndRetry | src/host/mem/mem_heap.cpp:1828-1843 | tries, grows on failure and tries again |
| DynamicHeap.SymmetricHeap.AllocateSymmetricMemory | src/host/mem/mem_heap.cpp:1821-1846 | the same, and the heap's invariant is kept |
| DynamicHeap.SymmetricHeap.HeapDeallocate | src/host/mem/mem_heap.cpp:185-191 | frees a block and keeps the invariant; exits iff the pointer is not in use |
| DynamicHeap.SymmetricHeap.GetTransportMemHandle | src/include/internal/host/nvshmemi_symmetric_heap.hpp:270-304 | null iff the address is outside the reserved range; left to the tables of mapped buffers iff it is in their part; past the index iff it is below them and without physical memory; otherwise a handle that contains it, with what remains of its chunk |
| DynamicHeap.PastIndexIff | src/include/internal/host/nvshmemi_symmetric_heap.hpp:281-301 | some address that passes the bound checks is past the index iff physical and mapped memory leave a gap, and the first byte after the physical memory is one |
| DynamicHeap.GrowthKeepsGap | src/host/mem/mem_heap.cpp:1750-1756 | the check before a growth always leaves such a gap |
| BufferCache.ScanIndex | src/host/mem/mem.cpp:153-172 | the scan stops at the first entry that does not lie wholly below the address |
| BufferCache.PiecesFacts | src/host/mem/mem.cpp:174-195 | a buffer becomes as many handles as computed, all but the last of the greatest length, consecutive, sorted and linked to each other only |
| BufferCache.RegisterKeepsSortedIff | src/host/mem/mem.cpp:153-206 | registering keeps the entries sorted and disjoint iff the buffer ends at or before the next entry; links are right either way |
| BufferCache.RegisterAcceptsIff | src/host/mem/mem.cpp:153-172 | a buffer is accepted iff it is not empty and its first byte is not registered |
| BufferCache.RegisterAcceptsOverlap | src/host/mem/mem.cpp:153-172 | a buffer that runs into the next one is accepted |
| BufferCache.RegisterCovers | src/host/mem/mem.cpp:174-206 | registering adds the bytes of the buffer and no others |
| BufferCache.UnregisterKeepsLinkedIff | src/host/mem/mem.cpp:267-302 | unregistering keeps the entries sorted, and leaves whole buffers iff it starts at the first handle of one |
| BufferCache.UnregisterStrandsHandles | src/host/mem/mem.cpp:267-302 | unregistering the second handle of a buffer leaves the first linked to nothing |
| BufferCache.UnregisterUncovers | src/host/mem/mem.cpp:267-302 | unregistering takes away the bytes from the entry to the end of its buffer and no others |
| BufferCache.UnregisterUndoesRegister | src/host/mem/mem.cpp:132-302 | unregistering a buffer that was just registered restores the sequence of entries |
| BufferCache.Cache.constructor | src/host/mem/mem.cpp:451-466 | an empty cache of the default size |
| BufferCache.Cache.Reserve | src/host/mem/mem.cpp:132-151 | growth keeps the entries, leaves a place to spare beyond the new ones and is by the amount the source chooses |
| BufferCache.Cache.BuildHandles | src/host/mem/mem.cpp:174-195 | the loop builds the handles of the buffer |
| BufferCache.Cache.FindPlace | src/host/mem/mem.cpp:153-174 | finds where the buffer goes, or that its start is taken |
| BufferCache.Cache.Insert | src/host/mem/mem.cpp:197-206 | moves the tail and writes the handles in place, within the array |
| BufferCache.Cache.Register | src/host/mem/mem.cpp:32-228 | succeeds iff the length is not zero and the first byte is outside the heap and not registered; the cache stays valid iff the buffer ends before the next |
| BufferCache.Cache.CountGroup | src/host/mem/mem.cpp:272-284 | follows the links to the end of the buffer; the read past it stays in the array because one place is always spare |
| BufferCache.Cache.Remove | src/host/mem/mem.cpp:270-294 | removes the entry and those linked after it |
| BufferCache.Cache.Unregister | src/host/mem/mem.cpp:249-308 | succeeds iff some entry starts at the address; the cache stays valid iff that entry is the first of its buffer |
| BufferCache.Cache.Lookup | src/host/mem/mem.cpp:384-443 | bisection ends and returns the one handle that contains the address, null iff none does, and clips the length to what remains of it |
| Transfer.LocalLength | src/include/internal/host/nvshmem_internal.h:135-153 | a local address is looked up in the heap, then in the cache; a length is found iff the heap's own memory or a registered handle has it; it lies within one handle and ends with it unless the request or the transport's limit ends first |
| Transfer.CacheLength | src/include/internal/host/nvshmem_internal.h:142-147 | the cache gives a length iff some registered handle contains the address; it ends with the handle unless the request or the limit ends first |
| Transfer.RemoteLength | src/include/internal/host/nvshmem_internal.h:155-165 | a length is found iff the symmetric address has physical memory of the heap's own; it lies within one handle and ends with it unless the limit ends first |
| Transfer.TiledMovesAll | src/include/internal/host/nvshmem_internal.h:168-203 | the pieces move every byte of the transfer to its own place |
| Transfer.ProcessMultisend | src/include/internal/host/nvshmem_internal.h:168-203 | the loop ends; its pieces are the transfer in order, each within one local and one remote handle and the transport's limit and no shorter than these allow, and stop early only at a byte without a handle |
| P2pSync.Enqueue | src/host/coll/cpu_coll.h:186-211 | counts the round, then queues a write to and a wait for every other rank |
| P2pSync.SyncOpsFacts | src/host/coll/cpu_coll.h:189-210 | the queue of a round holds one write to and one wait for every other rank, all writes first |
| P2pSync.BeginKeepsInv | src/host/coll/cpu_coll.h:188 | beginning a round keeps the invariant |
| P2pSync.ExecuteKeepsInv | src/host/coll/cpu_coll.h:189-210 | executing a queued write or wait keeps the invariant |
| P2pSync.RunInv | src/host/coll/cpu_coll.h:186-211 | the invariant holds in every state of every run, over any number of rounds |
| P2pSync.Barrier | src/host/coll/cpu_coll.h:186-211 | a PE completes a round only after every PE has begun it, and completed rounds differ by at most one |
| P2pSync.RoundProgresses | src/host/coll/cpu_coll.h:200-210 | in a round that all have begun, an unfinished PE or one it waits for can go on |
| P2pSync.RoundCompletes | src/host/coll/cpu_coll.h:186-211 | once all have begun a round, every order of executing the queues takes a bounded number of steps and can stop only when all have completed it |
| P2pSync.AllCanBegin | src/host/coll/cpu_coll.h:188 | a run in which all have completed a round can be continued until all have begun the next, with no slot reset |
| P2pSync.RoundsComplete | src/host/coll/cpu_coll.h:186-211 | any number of rounds can be completed in turn, with no slot ever reset |
| P2pSync.RunHangs | src/host/coll/cpu_coll.h:189-205 | on any team of two or more, a rank that is not on the PE of its number completes no round in any run |
| P2pSync.WorksIffRanksArePes | src/host/coll/cpu_coll.h:189-205 | on a team of any PEs in any order, every number of rounds can complete iff each rank is on the PE of its number or there is only one |

## Left out

- CUDA, NVML, NVLS, dlopen, sockets and bootstrap: foreign effects; where they matter they are abstract steps that succeed.
- Weak memory and the memory fences: entries and signals appear atomically and in one order.
- 64-bit overflow of counters, addresses and sizes, except in the packing of requests, where field widths are explicit.
- How long a handler waits: a call that finds an entry missing returns, and going on with the wait is another call.
- `progress_cst`, the global exit request and the timeout polling of the proxy: each is one flag or counter.
- `copy_from_channel`: nothing calls it.
- The coalesced single-element get and the element buffer of fetching atomics on the device.
- Fence and quiet per transport and queue pair: the log records the command with its targets, not what a transport does with it.
- User-buffer mapping (`mmap_mem`, `unmap_mem`): its share of the heap is the parameter `mapped`, and its own tables are not modelled.
- Transfer.ProcessMultisend: a byte in the mapped part counts as one without a handle, since the tables of the mapped buffers are not modelled; the source goes on with what they hold.
- Ring all-reduce with chunks that do not fill the block: the model follows one block with its last, partial chunk as a chunk; the additions past the block's or the array's end, which `LastChunkReachesOut` names, are not part of a run.
- Rail optimisation, where the whole heap is one registration.
- The state after a failed growth: the source tears the heap down, and the model stops with `down`.
- The bound of 4 GiB on one registration call, a debug assertion; the model covers larger sizes too.
- Contents of memory: zeroing by calloc and copying by realloc.
- Locks and out-of-memory errors of the buffer cache, and pointer-attribute checks before registration.
- `src/host/comm`, the remaining collectives, teams, the Python bindings and the transports: dispatch and bookkeeping that would add easy members.
