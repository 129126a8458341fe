# A verified model of the OpenSHMEM-CSCI runtime

The repository is a partial OpenSHMEM 1.4 runtime. This project models its four hard parts in
Dafny and proves what they are for:

- **Wire-up** (`Wiring`, `Topology`, `Handshake*`, `WireUpProof`, `Locality`, `SocketSlots`).
  The level and stride loops are methods, proved to produce the list of blocking calls that
  `Wiring.Program` describes. The handshake is a transition system over those calls: one program
  counter and stage per PE, the backlogs of its two listeners, the bytes in flight, and the
  sockets it has stored. Servers only count connections, so a server may accept a caller of a
  later level early. Every interleaving ends, with every listener idle and with exactly the
  characterised pairs holding each other's two sockets.
- **Delivery and barrier** (`Delivery`, `Actions`, `History`, `Conservation`, `Barrier`, `Writes`,
  `Completion`, `Progress`, `Guarantee`, `Nonblocking`, `NonblockingGuarantee`). A transition system
  with a user thread, a communication thread and a worker per PE, for any number of PEs, any
  placement on hosts, any number of barrier rounds and any interleaving. The barrier is built, as
  in the code, from asynchronous puts to reused flags. `Actions` says field by field what each
  action does, and `History` that what the theorems speak of as handed over and issued is what
  the actions of the run put.
- **Allocator and index** (`HeapLayout`, `HeapTheorems`, `BlockIndex`, `SymmetricHeap`,
  `SymmetricRuns`, `AsWritten`). The linked blocks and the chained hash table are classes with
  in-place splicing, proved against the layout functions of `HeapLayout`; the theorems are about
  those functions and about whole runs.
- **The path of a put** (`Memory`, `Framing`, `Queues`, `SendThread`, `PutPath`, `SymmetricPut`,
  `EndToEnd`, `SocketWire`). Packets as bytes on a socket, the linked queues, the sending loop with
  its request indices, and the job that ends in memcpy; the theorem that takes a put from the
  pointer of the caller, through delivery and a barrier, to the same range of the target's own
  block; and the theorem that the wires of the delivery model, barrier signals included, are such
  sockets.

Where the code departs from its design: the allocator's text contradicts itself in four places
(`src/memory/heap.c:41-43`, `src/memory/heap.c:91`, `src/memory/hashmap.c:126`,
`src/memory/heap.c:122-128`). `SymmetricHeap` models the intended version, each repair marked
where it is made. `AsWritten` keeps hashmap_remove as it is written and says, for every program of
allocations, exactly when a release then does what it should: it does not for the second block that
`test/shmem_heap.c` allocates.

Three promises one might read into the runtime are false of the code and are stated exactly.
Wiring is all-to-all only up to six PEs (`Topology.WiredExactly`, `Topology.AllToAllExactly`).
Because comm_flush is empty, a barrier completes what was handed to comm_put before it, that is
blocking puts and nonblocking ones whose job has run, only for pairs that include PE 0 or share a
host (`Guarantee.GuaranteeExactly`). And it completes the nonblocking puts issued before it only
for a PE that puts to itself and runs on another host than PE 0
(`NonblockingGuarantee.NbiGuaranteedExactly`).

Assumptions: channels are reliable and FIFO, reads and writes are whole, listener backlogs do not
overflow, all listeners are open before anyone connects (the runtime barrier between
`comm_init` and `comm_wireup`), memory is sequentially consistent, user puts stay inside the heap
and off the pSync flags (`SocketWire.UserPutsMissFlags` derives the latter for puts into blocks of
the user), a PE's position in the list of its host is its local rank (src/comm/comm_local.c:126
indexes with the position, src/comm/comm_local.c:73-84 fill by the rank), and nothing is finalized.
Wire-up leaves the socket records of unwired PEs uninitialised. The code configures them
(src/comm/comm_remote.c:318-325), reads from them (src/comm/comm_remote.c:115-116) and writes a
packet for such a PE to them (src/comm/comm_remote.c:146). That these calls fail, yield no packet
and disturb no other connection is an assumption: the model has no such read and drops the packet
(`Delivery`, the Send action; it is why `Guarantee.DeliveryExactly` can say that such puts never
arrive).

The invariants hold in the initial states (`HandshakeSafety.InitInv`, `Barrier.InitInv`, the
constructors of the classes), and `WireUpProof.JobMatched` and `SocketSlots.MapsGiveSlots` show
that the real loops and the real locality map meet what the handshake theorems require;
`SendThread.MapAddresses` shows it of what the sending loop requires.

`dafny verify dfyconfig.toml` checks the whole project.

## Model

| member | source | states |
|---|---|---|
| Wiring.Levels | src/comm/comm_remote.c:297 | the number of levels is the least L with 2^L >= n |
| Wiring.WireClient | src/comm/comm_remote.c:189-231 | the connect loop makes one connect for every remote PE of its stride walk, in order, and no other call |
| Wiring.WireServer | src/comm/comm_remote.c:237-262 | the accept loop makes one accept for every remote PE of its stride walk, in order, and no other call |
| Wiring.WireUp | src/comm/comm_remote.c:294-316 | the level loop with its complete flag makes the calls of the recursive program: levels in order, serving while the PE serves, stopping after its first positive client level |
| Topology.ConnectsExactly | src/comm/comm_remote.c:200-315 | who connects to whom at which level, in numbers: odd to even at level 0; above, the PEs that are 2^level modulo 2^(level+1), counted from their parity, to those of their parity that are 0 |
| Topology.ConnectMatchesAccept | src/comm/comm_remote.c:200-315 | at every level the PEs that connect to s are exactly the remote PEs s counts |
| Topology.ConnectOnce | src/comm/comm_remote.c:304-315 | two PEs connect at most once over all levels, and in one direction |
| Topology.WiredExactly | src/comm/comm_remote.c:200-245 | two PEs are connected exactly when they are on different hosts and their parities differ or the powers of two dividing a-a%2 and b-b%2 differ (0 counts as infinite) |
| Topology.RootWired | src/comm/comm_remote.c:297-315 | PE 0 is connected with every PE on another host, for every number of PEs |
| Topology.AllToAllExactly | src/comm/comm_remote.c:297-315 | every placement wires all remote pairs exactly when there are at most six PEs |
| HandshakeCalls.AcceptDoes | src/comm/comm_remote.c:251-260 | the calls of a server, one by one: what each waits for, that it takes the caller that has waited longest, and which socket goes into which slot |
| HandshakeCalls.ConnectDoes | src/comm/comm_remote.c:220-227 | the calls of a client, one by one: it connects while the server listens and waits last in its backlog, takes its byte, sends its number, connects the data socket |
| HandshakeCalls.CloseDoes | src/comm/comm_remote.c:316 | a PE whose program is over closes its listeners once |
| HandshakeSteps.MoveKeeps | src/comm/comm_remote.c:212-229 | every blocking call that can return keeps the phase invariant of every client-server pair, of the backlogs and of the stored sockets |
| HandshakeSafety.DataBacklog | src/comm/comm_remote.c:251-259 | at most one unaccepted data connection is pending at a server, and it is the served client's |
| HandshakeSafety.FinishedAcceptedAll | src/comm/comm_remote.c:245-260 | a PE that has run its program has accepted exactly the PEs that connect to it |
| HandshakeSafety.FinishedIsQuiet | src/comm/comm_remote.c:316 | when a PE closes its listeners nothing is pending on them and nobody will connect later |
| HandshakeSafety.ListenerOpen | src/comm/comm_remote.c:220-229 | a client in the middle of a connect finds the listener it needs open |
| HandshakeLive.WaitingProgress | src/comm/comm_remote.c:220-227 | a client that waits to be accepted starts a chain of waits that ends in a PE whose call can return; along it every blocked client waits for its server, at a lower rank of levels if that one is connecting too, and every server in a handshake for the client it serves |
| HandshakeLive.AcceptingProgress | src/comm/comm_remote.c:251-260 | a server that waits for a caller starts such a chain: it waits for a PE it counts that has yet to connect, at a lower level if that one is accepting too |
| HandshakeLive.NoDeadlock | src/comm/comm_remote.c:294-316 | in every reachable state some call can return exactly while some PE still has its listeners open |
| HandshakeLive.EveryRun | src/comm/comm_remote.c:294-316 | every run keeps the invariant and has one fixed length; at its end all listeners are closed and idle and every handshake left both sockets on both sides in the right slots |
| WireUpProof.ProgramExactly | src/comm/comm_remote.c:189-315 | the program of a PE connects to and accepts exactly the PEs these numbers say |
| WireUpProof.ProgramInOrder | src/comm/comm_remote.c:200-315 | and it does so level by level and, within a level, in ascending order of the peers |
| WireUpProof.JobMatched | src/comm/comm_remote.c:200-249 | what the loops of all PEs produce meets everything the handshake needs: pairing, no pair twice, ascending levels, falling ranks, distinct slots |
| WireUpProof.WireUpCompletes | src/comm/comm_remote.c:189-316 | for every placement and every interleaving wire-up never gets stuck, takes the same number of calls, and ends with a's slot for b holding b's two sockets exactly when a and b split, and nothing otherwise |
| Locality.MapLocality | src/comm/comm_node.c:83-101 | the nested loops give the j-th PE of my host kind local and index j, and every other PE kind remote and the number of remote PEs listed before it, and each PE its host |
| Locality.RemoteCount | src/comm/comm.c:33 | the running index ends at the number of PEs minus my host's |
| Locality.MapIsBijection | src/comm/comm_node.c:83-101 | if the host lists partition the PEs, every PE gets its host, local PEs map one to one onto 0..n_local-1 and remote PEs one to one onto 0..n_remote-1 |
| SocketSlots.MapsGiveSlots | src/comm/comm_remote.c:212-259 | the socket slots are the indices of the map, different for different remote PEs and inside the arrays: what wire-up needs of the slots |
| Conservation.FlowsKept | src/comm/comm_remote.c:73-150 | every action keeps, for every pair on one host or with a connected socket, handed over = in memory ++ work queue ++ socket ++ send queue; for an unwired pair it keeps that nothing got past the send queue |
| Actions.UserPutDoes | src/comm/comm.c:156-165 | a blocking put inside the heap is always allowed outside the barrier; it is handed over once, to its destination only; on one host the destination's heap then holds the bytes at the offset and every other byte of every heap is as before; otherwise no memory changes and the packet is last in the send queue |
| Actions.UserPutNbiDoes | src/comm/comm.c:175-178 | a nonblocking put only appends its job to what its PE has issued and to its work queue, however many are there |
| Actions.EnterDoes | src/comm/comm.c:96-102 | a barrier call may begin whenever the user is outside one, and remembers all that is handed over and issued by then |
| Actions.ArriveDoes | src/comm/comm.c:110 | a PE's arrival is a put of the flag of its own slot at PE 0 |
| Actions.ReleaseDoes | src/comm/comm.c:106-108 | PE 0 puts, to one PE after the other, the flag of that PE's slot |
| Actions.SendDoes | src/comm/comm_remote.c:135-150 | the first packet goes to the end of the wire to its destination, or is dropped if there is none |
| Actions.RecvDoes | src/comm/comm_remote.c:108-132 | the first put of a wire becomes the last job of the receiver, with its origin |
| Actions.WorkDoes | src/job/work.c:70-93 | the worker takes the first job; a received put's bytes or flag are in memory, and no other byte or flag changes |
| Actions.WorkNbiDoes | src/job/work.c:70-93 | a nonblocking put runs, whatever its source holds then, as a blocking put of exactly those bytes |
| History.StepRecords | src/comm/comm.c:96-178 | every action extends what is issued, and the snapshots and counts of barrier calls, by exactly this, and changes none of the earlier ones |
| History.RecordsAreActions | src/comm/comm.c:96-178 | in every reachable state, what a handed over for b, and what it issued, is what the actions of the run put, in order |
| Guarantee.DeliveryExactly | src/comm/comm_remote.c:73-397 | in every reachable state, of the puts that the actions of the run made from a to b, in order, a prefix is in memory and the rest is in flight in order, for every pair but the unwired ones, whose puts, dropped as assumed above, never arrive |
| Barrier.StepKeeps | src/comm/comm.c:96-114 | every action keeps the account of issued, delivered and consumed signals between PE 0 and every other PE |
| Barrier.BarrierSafety | src/comm/comm.c:96-114 | in every reachable state no PE has left a barrier call that some PE has not entered, and no two PEs are more than one call apart |
| Barrier.SlotsReusable | src/comm/comm.c:78-113 | a put to a pSync slot always finds it 0, and at most one signal per slot is outstanding in any stage |
| Progress.InternalDrops | src/comm/comm.c:101-113 | every step of the runtime that is not a spin lowers one measure |
| Progress.BarrierIsLive | src/comm/comm.c:96-114 | once all PEs have made a barrier call, until all have left it a step of the runtime is enabled, and the measure bounds how many there are |
| Completion.DataBeforeArrival | src/comm/comm.c:101-112 | once PE 0 has consumed i's arrival flag, every put i had handed to comm_put for PE 0 before that call (blocking puts, and nonblocking ones whose job had run) is in PE 0's memory |
| Completion.DataBeforeRelease | src/comm/comm.c:106-113 | once i has left, every put PE 0 had handed to comm_put for i before its call is in i's memory |
| Completion.DataBeforeBarrier | src/comm/comm.c:96-165 | once b has left call k, every put a had handed to comm_put for b before its own call k is in b's memory, for pairs with PE 0 or on one host |
| Writes.EveryActionWritesOnce | src/comm/comm_local.c:117-127 | what each action writes: a put, a signal or a nonblocking put run on one host itself into its destination, the worker its received put into its own PE, by memcpy of the next put that its origin handed over; every other action nothing |
| Completion.NeverStale | src/comm/comm.c:96-114 | once b has left call k, whoever else writes, a byte that a covered PE's put covers, handed to comm_put before its own call k, holds what some put wrote, and never one that its own PE, if covered, had overwritten by a put handed to comm_put before its call k |
| Completion.VisibleAfterBarrier | src/comm/comm.c:96-114 | once b has left call k, the byte holds what the last put wrote that a handed to comm_put before its own call k, however often a wrote there before, unless later puts of a (nonblocking ones still queued then included) or puts of others bring another value |
| Completion.OwnBufferAfterBarrier | src/comm/comm.c:96-114 | in particular when nobody but a puts to the byte and no later put of a, nonblocking or not, covers it |
| Guarantee.LeavesPutBehind | src/comm/comm.c:184-186 | for every other pair and every blocking put, a run in which all PEs leave a barrier while a put made before it has not arrived |
| Guarantee.GuaranteeExactly | src/comm/comm.c:96-186 | the barrier completes what a handed to comm_put for b before it (blocking puts, and nonblocking ones whose job had run) in every run exactly when PE 0 is one of the two or both share a host |
| NonblockingGuarantee.HandedWhenLeft | src/job/work.c:70-145 | a PE on another host than PE 0 has, when it leaves a call, run every nonblocking put it issued before that call: the release came through the same queue |
| NonblockingGuarantee.OwnReached | src/job/work.c:70-145 | so all its nonblocking puts to itself issued before the call have reached its memory |
| NonblockingGuarantee.ReachedOneCallLater | src/comm/comm.c:96-178 | its nonblocking puts to a PE of a covered pair, issued before call k, have reached that PE once it has left call k + 1 |
| NonblockingGuarantee.LeavesNbiBehind | src/comm/comm.c:175-186 | for every pair but a PE on another host than PE 0 and itself, and every nonblocking put, a run in which the put is issued before a's first call and its target, and every PE that does not wait for a's worker, leaves that call while the put is still queued |
| NonblockingGuarantee.NbiGuaranteedExactly | src/comm/comm.c:96-186 | leaving call k completes, in every run, the nonblocking puts of a to b that were issued before a's own call k exactly when a and b are one PE on another host than PE 0 |
| HeapLayout.SearchExactly | src/memory/heap.c:82-87 | the search fails exactly when no gap from its start around the ring fits, and otherwise stops at the first that does in cyclic order |
| HeapLayout.MallocExactly | src/memory/heap.c:74-106 | allocation returns NULL exactly when no gap fits and then changes nothing; otherwise the block goes into the first fitting gap from the head |
| HeapLayout.FreeExactly | src/memory/heap.c:113-129 | release takes out exactly the block at the address, the next search starts at the block behind it or at the dummy, and an address of no block changes nothing |
| HeapLayout.BlocksDisjoint | src/memory/heap.c:10-20 | blocks never overlap, stay inside the region, and start at different addresses |
| HeapTheorems.RunInvariant | src/memory/heap.c:30-129 | after any calls the list is ordered, blocks are disjoint and inside the region, no gap is negative, and bytes in blocks and gaps add up to the region |
| HeapTheorems.SymmetricHeaps | src/memory/heap.c:74-141 | heaps of one size at any two addresses, given the same calls, return the same offsets or NULL at every call and keep layouts equal up to translation |
| HeapTheorems.AllocationsBump | src/memory/heap.c:74-106 | without releases each success returns the sum of the earlier successful sizes, and a request fails exactly when it no longer fits |
| HeapTheorems.FreeThenMalloc | test/shmem_heap.c:44-60 | allocating the size of a block just released returns its address exactly when there is no gap in front of it and every gap not touching it is too small, and then restores the blocks |
| HeapTheorems.FullHeapReuse | test/shmem_heap.c:28-60 | in a full heap every block can be released and allocated again at the same address |
| BlockIndex.HashMap.Get | src/memory/hashmap.c:60-71 | lookup by derived keys returns what the table maps the address to, or NULL |
| BlockIndex.HashMap.Set | src/memory/hashmap.c:80-101 | update re-points the one entry of the key or enters it at the front of its bucket: the map changes at that key only |
| BlockIndex.HashMap.Remove | src/memory/hashmap.c:110-137 | removal unlinks the one node of the key and returns its value, and changes no other key (with the repaired comparison) |
| SymmetricHeap.Heap.FindGap | src/memory/heap.c:82-87 | the loop over linked blocks ends at the block the layout's search names |
| SymmetricHeap.Heap.Malloc | src/memory/heap.c:74-106 | splicing and the two index updates refine the layout's allocation and keep list and index in agreement |
| SymmetricHeap.Heap.Free | src/memory/heap.c:113-129 | unlinking and the index updates refine the layout's release and keep list and index in agreement |
| SymmetricHeap.Heap.PredecessorOf | src/memory/hashmap.c:60-71 | the index answers with the block in front of the one a scan of the list finds at the address, and with NULL when there is none |
| SymmetricHeap.LookupIsScan | src/memory/hashmap.c:60-71 | in any state the invariant allows, the map behind the index equals a linear scan of the list |
| SymmetricHeap.OneNodePerBlock | src/memory/hashmap.c:60-101 | every block but the dummy has exactly one chain node with its address as derived key; it is in the bucket of the address modulo 1023 and holds the true predecessor |
| SymmetricRuns.StepIs | src/shmem.c:200-225 | a call of a program is the allocation, or the release of the address its offset names, and nothing else |
| SymmetricRuns.Replay | src/shmem.c:200-225 | a whole program of calls on the linked heap refines the run of the layout |
| SymmetricRuns.SameProgram | src/shmem.c:200-225 | two linked heaps at different addresses, given the same program, return the same offset or NULL at every call |
| AsWritten.SetExactly | src/memory/hashmap.c:80-101 | the update of the index re-points the first entry whose derived key it is, or enters the value at the front of bucket key mod 1023, and changes no other entry |
| AsWritten.FreeIndexExactly | src/memory/hashmap.c:110-137 | as written, removal unlinks the first node of bucket key mod 1023 whose stored value starts at the key, and changes nothing else |
| AsWritten.FreeTakes | src/memory/hashmap.c:124-132 | what a release as written takes out after a program of allocations: the block itself if it is the first, nothing otherwise, but the block behind it when that one shares its bucket |
| AsWritten.FreeIsRightExactly | src/memory/hashmap.c:124-132 | after every program of allocations, whichever of them fit, the heap is the layout's and the chains hold the predecessors newest first; then a release as written takes the right block out of the list exactly when the block is the first one and its size is no multiple of 1023 or nothing follows it |
| AsWritten.FreeIsCleanExactly | src/memory/heap.c:113-129 | as written, a release leaves both list and index right exactly when the block is the only one: otherwise the entry of the block behind stays at the released record |
| AsWritten.FullHeapReuseExactly | test/shmem_heap.c:44-60 | as written, a block of a full heap is released and its size handed out again at its address, as the search over the list decides, exactly when it is the first one and shares no bucket with the block behind |
| AsWritten.LaterBlockIsLost | src/memory/hashmap.c:124-132 | as written, in a full heap the release of a later block that shares no bucket with the block behind frees nothing, and its size does not fit any more |
| AsWritten.SecondBlockIsNotReused | test/shmem_heap.c:20-41 | so for the second of the blocks of 1, 4, 1 and 1018 bytes that the test allocates, released right after the allocations |
| Framing.FrameLayout | src/comm/comm_remote.h:14-22 | where every field is on the socket: handler, origin, request index, size and offset at bytes 0, 1, 5, 13 and 21, lowest byte first, and the data from byte 29 |
| Framing.RoundTrip | src/comm/comm_remote.c:116-146 | packets written back to back are read back as that list, with nothing left over |
| Framing.PartialStream | src/comm/comm_remote.c:116-130 | whole packets in front of an incomplete one are read, and the bytes of the incomplete one stay |
| Framing.FrameReadsBack | src/comm/comm_remote.h:14-22 | one packet in front of anything is read back, and nothing else is taken |
| Framing.FramesInjective | src/comm/comm_remote.h:14-22 | different lists of packets never put the same bytes on a socket |
| Framing.ReadPackets | src/comm/comm_remote.c:116-130 | the loop that reads a header and then size bytes computes the parse of the stream |
| Queues.Queue.Enqueue | src/job/work.c:32-43 | appends at the tail |
| Queues.Queue.Dequeue | src/job/work.c:50-63 | takes the first item, or nothing from an empty queue |
| SendThread.CommThread.Put | src/comm/comm_remote.c:383-397 | a put to a PE of another host only queues its packet, with handler 0, its origin, offset and data: every socket is as before |
| SendThread.CommThread.Send | src/comm/comm_remote.c:135-150 | the send loop empties the queue and loses nothing, and the socket at every index then holds the frames of all that was sent to that index, with request indices 1, 2, 3, ... |
| SendThread.MapAddresses | src/comm/comm_node.c:83-101 | in the map of any PE exactly the PEs of other hosts have an index the sending loop can use, and no two of them share one |
| SendThread.ForPositions | src/comm/comm_remote.c:141-146 | the packets for a PE are those at all the positions of the sent list that name it, in order |
| SendThread.PeerReadsBack | src/comm/comm_remote.c:143-146 | PE b reads back from its socket exactly the packets for b, in order: the k-th has handler, origin, offset and data as they were queued, and request index k counted from 1 |
| PutPath.Target.Receive | src/comm/comm_remote.c:108-132 | every packet of a socket becomes a job with its handler, origin, offset and data, in order |
| PutPath.Target.Run | src/job/work.c:70-93 | the worker applies all queued jobs to memory, in order |
| PutPath.SocketPathIsMemcpy | src/comm/comm_local.c:117-127 | the packets for PE b, read back from its socket, queued as jobs and run, leave b's heap that memcpy of the same puts in the same order would |
| SymmetricPut.PutTouchesItsBlockOnly | src/shmem.c:112-115 | after the same allocation calls, a copy to the offset of a pointer into a block of the caller writes exactly the same range of the target's block, and no other block |
| EndToEnd.UncoveredBytesStay | src/comm/comm_local.c:117-127 | over any part of any run, a byte that no put arriving in it covers keeps its value |
| EndToEnd.PutArrives | src/shmem.c:112-115 | after the same allocation calls, from any state in which the user of a puts through a pointer into block j, over any run in which b leaves a later barrier call: the same range of b's own block j holds the bytes, unless other puts than a's earlier ones overlap it, and the put covers no byte of any other block |
| HeapTheorems.BlockStays | src/memory/heap.c:74-129 | a block that no call of a program releases is in the list after it, unmoved |
| SocketWire.PSyncFirst | src/comm/comm.c:78-80 | pSync, allocated before any call of the user with 4 bytes for each PE, is the block at offset 0 after every program that does not release it |
| SocketWire.UserPutsMissFlags | src/shmem.c:112-115 | a put through a pointer into any other block covers no pSync slot |
| SocketWire.ImageReads | src/comm/comm.c:101-112 | what the spin loop reads: the int in slot i is 1 or 0 as the flag is set or not, and behind the slots are the bytes of the heap |
| SocketWire.PutPacket | src/comm/comm_remote.c:383-394 | the packet of a put has handler 0, its origin, offset and bytes; a signal is a put of the bytes 1, 0, 0, 0 to offset 4 * i |
| SocketWire.WireIsSocket | src/comm/comm_remote.c:108-150 | what the delivery model does with the puts on a wire, barrier signals included, their frames on a socket do: read back, queued as jobs and run, they leave the same bytes, pSync slots included |

## Left out

- Real sockets, hostname resolution, PMIx and MPI, shared memory mapping, thread creation and locks: calls into code that is not part of this model; what is assumed of them is listed above.
- Short reads and partial writes: the code loses the framing there (src/comm/comm_remote.c:120-128), so full reads are an assumption.
- Finalization: threads may stop with queued work, so delivery is stated for runs before it.
- shmem_quiet, comm_remote_get and the get handler: their bodies are empty.
- The order between nonblocking and blocking puts: none is promised. The source buffer of a nonblocking put is read when its job runs, and its contents then are a parameter of that step.
- Calls on the socket records that wire-up left uninitialised: the model drops the packet, as said under the assumptions.
- Overflow of `2 << level`, of addresses and of request indices: integers are unbounded, except in Framing, where every field has its width.
- SymmetricHeap.Heap.Malloc: does not take requests of zero bytes, because an empty block shares its address with its successor and the index could not tell them apart; HeapLayout and HeapTheorems do take them.
- SymmetricRuns.Replay: does not take programs with zero-byte requests, for the same reason.
- SymmetricRuns.SameProgram: does not take programs with zero-byte requests, for the same reason; HeapTheorems.SymmetricHeaps states the property for them on layouts.
- AsWritten.FullHeapReuseExactly: does not model what the allocation after the release does to the index: as written it walks a bucket (src/memory/heap.c:91) that may hold the released record.
- AsWritten.SecondBlockIsNotReused: releases the second block right after the allocations, where the test first releases and reallocates the first one; what the code does then depends on the released record.
- AsWritten.FreeTakes: covers the first release after any program of allocations; after it the entry of the next block points at a released record, and what the code does then depends on the C allocator.
- Allocation as written in the middle of the list (src/memory/heap.c:91 looks the next block up by the address of its record): not reached by programs of allocations only, and repaired in SymmetricHeap.
- PutPath.Target.Receive: takes one socket at a time; the interleaving of sockets, threads and barrier is in Delivery, where packets are values.
- The typed put and get macros, src/job/job.c, src/memory/shared_heap.c and src/rte: wrappers and foreign calls that would add easy members.
- Alignment of blocks, leaks, and compiler effects on the spin loops.
