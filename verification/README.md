# Verification of the cache simulator

A Dafny model of the memory side of the simulator: the MI coherence component with its splay trees, the bus,
the memory, the processors over `simpleCache`, and `teamCache`. `dafny verify dfyconfig.toml` checks
everything.

The project has three parts that build on each other.

**The splay tree** (`splay_shape`, `splay_cost`, `splay_heap`, `splay_run`). Trees and the path from a node
to the root are values; rotations, the splay loop and removal are functions on them. `SplayTree` is the
structure with parent pointers: every method rewrites `left`, `right`, `parent` and `root` in place and is
proved against those functions and against a finite map. Rank is the floor of the base-2 logarithm of a
subtree's size; with it the access lemma and the amortised bound of whole runs are proved over the integers.

**The bus-based system** (`protocol`, `bus`, `lockstep`, `system`, `ownership`, `processors`, `safety`,
`arbitration`, `progress`, `timing`, `per_processor`, `conservation`, `coherence`, `simulation`). The state
of n processors over `simpleCache`, coherence, bus and memory is one value and a tick is a function on it; an
assertion of the source that fails sets a flag. One inductive invariant gives safety, exactly-once callbacks,
exact latencies and termination. For one processor the number of ticks is a closed form of the trace; for
each of n processors it is proved what a branch costs and when a block stays a hit. `simulation` and
`coherence` hold the components as objects, with one heap splay tree per processor for the coherence states;
every method equals the function that the theorems are about, and `Simulate` runs the whole main loop.

**teamCache** (`geometry`, `replacement`, `split`, `team_cache`, `requests`, `write_buffer`, `events`,
`lru_set`, `placement`, `residency`, `stack`, `liveness`, `buffered_miss`, `cache_state`). The request state
machine is a function on the cache's state, with coherence's answers as a parameter and its calls to
coherence collected. `requests`, `write_buffer` and `events` cover both write-buffer modes and any behaviour
of coherence; `residency`, `stack` and `liveness` compose the cache with coherence, bus and memory for one
processor, again in both modes. Only `placement` (LRU contents, inclusion) is for the write buffer turned
off. `cache_state` is the object with individually allocated sets whose methods update lines and fields in
place.

`fail` and a failing assertion stop the cache's machine: no step leaves a failed state, and the theorems say
which failures are reachable. The program's addresses are 64-bit words; wrap-around, shifts and range checks
are written out where they occur. The words "once", "in order" and "exactly" in the table are about all
inputs and all reachable states.

The number of processors n is what coherence's `init` accepts, 1 to 256 (coherence/coherence.c:37-43).
teamCache's parameters are those its option parser accepts.

A finding of the proofs: with the write buffer on, a load that follows a buffered store miss to the same
block is parked and started as a miss, without a second lookup, when the store's data arrives
(teamCache/access.c:206-208), although coherence has just granted the block. `fetch` then fails
(teamCache/access.c:35-37), unless the miss happens to evict the very way that was just filled.
`BufferedMiss.GrantedOnMissIff` gives the exact condition on the parameters: the failure is unreachable if
and only if the buffer is off or the cache has one way. `Stack.LostExactlyWhen` and `Stack.DoomedFails` give
the exact moment in a run. It is the only failure that the buffer adds (`Stack.NoFailure`).

## Model

| member | source | states |
|---|---|---|
| SplayShape.RotateLeftKeepsOrder | coherence/stree.c:188-207 | a left rotation keeps the in-order sequence exactly if there is a right child to rotate up |
| SplayShape.RotateRightKeepsOrder | coherence/stree.c:209-228 | a right rotation keeps the in-order sequence exactly if there is a left child to rotate up |
| SplayShape.StepKeepsOrder | coherence/stree.c:232-262 | an iteration of the splay loop keeps the in-order sequence of the whole tree and the node that is splayed |
| SplayShape.SplayKeepsOrder | coherence/stree.c:230-263 | the whole splay loop keeps the in-order sequence and ends with the splayed node as root |
| SplayShape.PopMinOrder | coherence/stree.c:277-282 | the leftmost node is the first in order, and the rest keeps its order and loses one node |
| SplayShape.WithoutRootOrder | coherence/stree.c:136-153 | removing the root by successor transplant leaves the in-order sequence without the root |
| SplayCost.StepCharge | coherence/stree.c:232-262 | one iteration is paid for by the change of rank; only the last single rotation costs one more |
| SplayCost.AccessLemma | coherence/stree.c:230-263 | access lemma: iterations plus change of potential are at most 3(rank(root) - rank(x)) + 1, for every tree and node |
| SplayCost.InsertCharge | coherence/stree.c:60-80 | adding a leaf and splaying it costs at most 4 rank(new tree) + 1 amortised |
| SplayCost.RemovalCharge | coherence/stree.c:136-153 | taking the root out never raises the potential |
| SplayHeap.SplayTree.LeftRotate | coherence/stree.c:188-207 | on the heap: the window is rotated, all child, parent and root links agree again, nothing else moves |
| SplayHeap.SplayTree.RightRotate | coherence/stree.c:209-228 | mirror image of LeftRotate |
| SplayHeap.SplayTree.SplayOnce | coherence/stree.c:234-261 | the pointer tests choose zig, zig-zig or zig-zag as the step function does, grandparent first in the zig-zig cases |
| SplayHeap.SplayTree.Splay | coherence/stree.c:230-263 | the loop terminates, leaves a well-linked tree with x as root, in the iterations the cost function counts |
| SplayHeap.SplayTree.Find | coherence/stree.c:83-98 | returns the map's record of the key, or NULL when it has none |
| SplayHeap.SplayTree.FindNearest | coherence/stree.c:100-120 | returns the record of the largest key at most the query, or NULL when all keys are larger |
| SplayHeap.SplayTree.AddNode | coherence/stree.c:60-80 | the new node is linked where the search ended and splayed: tree and count afterwards |
| SplayHeap.SplayTree.Insert | coherence/stree.c:41-81 | the map gains or overwrites the key; only a new key restructures the tree, which is then the splay of the new leaf; amortised cost |
| SplayHeap.SplayTree.Replace | coherence/stree.c:265-275 | what pointed to u points to v and v points up where u did, links elsewhere unchanged |
| SplayHeap.SplayTree.SubtreeMinimum | coherence/stree.c:277-282 | finds the in-order first node of the subtree and its place |
| SplayHeap.SplayTree.RemoveRoot | coherence/stree.c:136-153 | all three cases leave the well-linked tree that has lost exactly the root |
| SplayHeap.SplayTree.Remove | coherence/stree.c:122-158 | the map loses the key, its record is returned, the tree is that of splaying the node and taking out the root; an absent key changes nothing; amortised cost |
| SplayRun.Replay | coherence/stree.c:41-158 | any sequence of m operations on a new tree answers as a finite map, in at most m(4 floor(log2 m) + 1) splay iterations |
| Coherence.StateTree.GetState | coherence/coherence.c:72-80 | the tree holds exactly the addresses that are not in INVALID, a failed lookup means INVALID |
| Coherence.StateTree.SetState | coherence/coherence.c:82-85 | the directory maps the address to the new state and is otherwise unchanged |
| Coherence.StateTree.BusReq | coherence/coherence.c:87-149 | snoop on the heap tree, state by state: an owner gives the block up and sends it; an awaited block becomes MODIFIED with data; anything else stays |
| Coherence.StateTree.PermReq | coherence/coherence.c:151-192 | permission exactly in MODIFIED, otherwise the block is awaited; a bus write exactly from INVALID |
| Coherence.StateTree.InvlReq | coherence/coherence.c:194-244 | flushes exactly blocks in a state other than INVALID; the block leaves the tree either way |
| Coherence.CoherStates.BusReq | coherence/coherence.c:87-149 | n trees on one heap: only processor p's directory changes, the trees stay apart |
| Coherence.CoherStates.PermReq | coherence/coherence.c:151-192 | as above for a permission request |
| Lockstep.TickWhenFree | interconnect/interconnect.c:299-314 | without a pending transaction a tick only arbitrates, and finds every queue empty if it takes none |
| Lockstep.NoneLeft | interconnect/interconnect.c:301-313 | the round-robin search gives up only after it has looked at every queue |
| Lockstep.TickCountsDown | interconnect/interconnect.c:228-240 | before the count-down ends bus and memory only count, in step, and no assertion fails |
| Lockstep.TickStartsMemory | interconnect/interconnect.c:244-272 | memory starts on the pending transaction with an equal count-down; only requests are snooped |
| Lockstep.TickMemoryDelivers | memory/memory.c:59-93 | memory answers in the very tick the bus count-down ends; bus delivers and both are idle again |
| Lockstep.TickCacheDelivers | interconnect/interconnect.c:284-296 | a cache-to-cache transfer delivers with memory already idle, so never both |
| Ownership.SnoopNobody | interconnect/interconnect.c:256-265 | when no other cache owns the block the snoop loop changes nothing |
| Ownership.SnoopOwner | interconnect/interconnect.c:253-271 | when one does, it alone gives the block up and the pending transaction becomes a cache transfer |
| Ownership.BusTickCases | interconnect/interconnect.c:219-317 | every tick of the bus with all calls upwards is one of five cases, described on the whole system |
| Ownership.CoreKept | interconnect/interconnect.c:219-317 | a bus tick keeps lock step, one transaction per waiting processor, single ownership and the token count |
| Processors.TagSplits | processor/processor.c:79-90 | the tag of an accepted processor number gives back both the operation count and the number, for every count |
| Processors.CallbackKept | processor/processor.c:84-99 | every callback is recognised by its own tag, and keeps the invariant |
| Processors.RequestCases | simpleCache/cache.c:141-170 | a request of an idle processor is ready at once if it owns the block, otherwise one bus write goes out |
| Processors.MissKeepsCore | coherence/protocol.c:27-35 | a miss of a processor without a transaction keeps the ownership invariant |
| Processors.TickKept | processor/processor.c:101-181 | one tick of the whole simulation keeps the whole invariant |
| Processors.ReachableInv | processor/processor.c:101-181 | every state that any run of 1 to 256 processors reaches satisfies the invariant |
| Safety.SingleOwner | coherence/protocol.c:50-83 | at most one processor has an address in MODIFIED, and none while a snooped transaction for it is undelivered |
| Safety.TokenConserved | coherence/protocol.c:63-72 | owners plus in-flight cache transfer of an address always number one after its first delivery and zero before |
| Safety.MemorySuppliesOnce | interconnect/interconnect.c:194-203 | memory supplies an address for its first delivery and no other |
| Safety.NoFailureExactlyOnce | simpleCache/cache.c:92-187 | no assertion of cache, bus or memory fails; the c-th callback to a processor is recognised and carries the tag of its c-th operation; callbacks, outstanding and unissued operations add up to the trace |
| Safety.WaitingMeansOutstanding | coherence/protocol.c:27-40 | INVALID_MODIFIED holds for (p, a) iff the one transaction p has on the bus is its bus write for a (or the cache transfer answering it); p never has more, and its operation is then pending |
| Safety.AssertionsHold | memory/memory.c:44-93 | the tested conditions themselves: bus and memory count only with a transaction in hand, memory is free when the bus turns to it, the request answered is in the pending list |
| Arbitration.RequestIsStep | interconnect/interconnect.c:171-217 | every bus request is a step of the queue model: one append, or no change of the queues |
| Arbitration.AdvanceIsStep | interconnect/interconnect.c:219-317 | every bus tick is a step of the queue model: one dequeue of a head, or no change |
| Arbitration.FirstInFirstOut | interconnect/interconnect.c:60-95 | over any run, dequeued plus queued transactions of a processor are those enqueued, in order |
| Arbitration.TurnComesCloser | interconnect/interconnect.c:301-313 | each dequeue of another processor brings a waiting one strictly nearer |
| Arbitration.BoundedOvertaking | interconnect/interconnect.c:205-216 | while a processor waits in its queue, all others together are dequeued at most n - 1 times |
| Conservation.TransactionsConserved | interconnect/interconnect.c:171-317 | bus writes sent equal deliveries plus pending plus queued, in every reachable state |
| Progress.OneTickCloser | interconnect/interconnect.c:228-296 | a tick brings the pending transaction exactly one tick nearer, or delivers it from the source fixed at the snoop |
| Progress.ExactLatency | interconnect/interconnect.c:228-296 | delivery after exactly 100 ticks through memory or 20 from an owner since entering the pending slot, once, not earlier |
| Progress.BusTickWork | interconnect/interconnect.c:219-317 | while anything is on the bus every bus tick lowers the work measure |
| Progress.ProgressLowersWork | processor/processor.c:129-180 | every tick that reports progress lowers the work measure |
| Progress.NoProgressMeansDone | processor/processor.c:129-180 | a tick without progress means traces used up, all memory operations called back, bus free |
| Progress.LoopEnds | engine/engine.c:440-466 | the number of the first tick without progress is at most the initial work |
| Progress.SimulationEnds | processor/processor.c:129-180 | for finite traces the loop always ends within 104 ticks per operation with every memory operation called back |
| Timing.BlockCovers | simpleCache/cache.c:147-148 | the address asked for is aligned, at most the block size below the operation's, in the block of the same number |
| Timing.OneProcessorTicks | processor/processor.c:101-181 | for one processor the ticks are exactly: one per operation, one per mispredicted branch, 99 per distinct block, and the last; one bus write per distinct block |
| PerProcessor.BranchStall | processor/processor.c:138-168 | in any run of n processors the operation after a branch is taken one tick later if predicted, exactly two if not |
| PerProcessor.RequestCovers | simpleCache/cache.c:141-170 | a load or store makes one request, for the aligned block around its address; it goes to the bus exactly if the processor does not own the block |
| PerProcessor.RepeatHits | simpleCache/cache.c:141-187 | after the callback of an operation on a block, until another processor asks for the block, every operation of the same processor on it leaves nothing on the bus and is called back in the next tick |
| Simulation.MemoryUnit.BusReq | memory/memory.c:44-57 | object and function agree: slot, count-down, assertion |
| Simulation.MemoryUnit.Tick | memory/memory.c:59-93 | object and function agree: squelch on cache transfer, else count down and answer |
| Simulation.Interconnect.BusReq | interconnect/interconnect.c:171-217 | object and function agree in all four branches |
| Simulation.Interconnect.TakeNext | interconnect/interconnect.c:299-314 | the search loop computes the round-robin choice and dequeues its head |
| Simulation.Interconnect.Tick | interconnect/interconnect.c:219-317 | memory tick, count-down and the call upwards equal the function the theorems use |
| Simulation.SimpleCache.CoherCallback | simpleCache/cache.c:92-139 | the list walk moves exactly the first matching request to the head of the ready list, or fails the assertion |
| Simulation.Simulator.CoherBusReq | coherence/coherence.c:87-149 | snoop on processor p's splay tree, bus message and cache callback |
| Simulation.Simulator.SnoopLoop | interconnect/interconnect.c:256-265 | all processors but the requester snoop, in order |
| Simulation.Simulator.CacheTick | simpleCache/cache.c:172-187 | bus tick, then a callback for every ready request |
| Simulation.Simulator.MemoryRequest | simpleCache/cache.c:141-170 | one request, for the aligned block that contains the address, goes to the head of the ready or the pending list, as permission says |
| Simulation.Simulator.ProcessorTick | processor/processor.c:101-181 | the loop over processors computes the tick of Timing and PerProcessor, and its progress flag |
| Simulation.Simulator.MainLoop | engine/engine.c:440-466 | ends with the run's state after the first tick without progress, and counts the ticks exactly; all traces used up, all operations called back |
| Simulation.Simulate | engine/engine.c:440-466 | whole program over heap trees: the ticks reported are those up to and with the first without progress, in closed form for one processor; no assertion fails, everything is called back |
| Geometry.RripMaxFits | teamCache/replacement.c:14-20 | the largest prediction value fits into 64 bits for all accepted widths |
| Geometry.RripMaxIs | teamCache/replacement.c:14-20 | the maximum is the largest value of its bits: 1 for one bit, doubled and one more for every further bit, all ones for 64 |
| Geometry.OrFillsIn | teamCache/eviction.c:26-28 | the bitwise or of the shifted tag and the set fills in the low bits: it is their sum |
| Geometry.AddressRoundTrip | teamCache/eviction.c:20-28 | tag and set of any 64-bit address rebuild exactly its block address, without wrap-around |
| Geometry.BlockAddressIs | teamCache/access.c:19-22 | masking gives the multiple of the block size below the address, and is idempotent |
| Replacement.Lookup | teamCache/lookup.c:5-21 | finds the first valid way with the tag |
| Replacement.LruVictim | teamCache/replacement.c:29-39 | returns the first way with the smallest time stamp |
| Replacement.RripVictim | teamCache/replacement.c:41-60 | terminates, returns the first way with the largest value, has added (maximum - largest) to every way, exceeds the maximum nowhere |
| Replacement.RripStaysBounded | teamCache/replacement.c:41-60 | target choice keeps values within the maximum and puts the victim at it |
| Replacement.Target | teamCache/replacement.c:80-93 | the first invalid way, no line changed; else under LRU the first oldest way, no line changed; else under RRIP the first way with the largest value, every value raised by what that lacks of the maximum |
| Replacement.ReplacementTarget | teamCache/replacement.c:80-93 | the loops in place make that choice and that change, in terms of the old lines alone |
| Split.ExactPartition | teamCache/split.c:25-66 | parts are contiguous, one block each in block order, non-empty, within 64 bits; sizes add up; count equals the total |
| Split.SplitLoop | teamCache/split.c:38-64 | the loop builds exactly that partition, every part within 64 bits |
| Requests.CallbacksInArrivalOrder | teamCache/access.c:105-136 | both modes, any coherence: callbacks, started request and queue are the accepted requests in order, once each |
| Requests.BufferIsExclusive | teamCache/access.c:138-212 | with the buffer occupied (by a store, mode 1) the foreground is absent, waiting or ready; no assertion, double match or target failure is reachable |
| Requests.CompleteOneKept | teamCache/split.c:80-109 | counting a block fails no assertion and reports done exactly with the last block, queue empty |
| Requests.OverflowExactly | teamCache/split.c:25-29 | starting a request fails for its range exactly if addr + size - 1 is 2^64 or more |
| Requests.HitWrites | teamCache/access.c:93-98 | a hit writes one line: value 0 or the newest stamp, dirty for a store; it fails exactly with exhausted LRU stamps |
| Requests.FillWrites | teamCache/access.c:188-196 | a fill writes one line: valid, the block's tag, value maximum - 1 or the newest stamp, dirty exactly for a store |
| Requests.StartMissKept | teamCache/access.c:61-82 | starting a miss keeps order and ownership in all three cases: parked, buffered, foreground |
| Requests.AcknowledgeKept | teamCache/access.c:219-233 | acknowledging a buffered store completes its request and frees a finished buffer |
| Requests.RetireKept | teamCache/access.c:235-248 | retiring the active block calls back or starts the next block, never both |
| Requests.BufferFilledKept | teamCache/access.c:197-212 | the end of a buffered fill restarts a parked miss or the next request, keeping the invariant |
| Requests.RunKept | teamCache/access.c:125-253 | every reachable state of either mode satisfies the structure invariant |
| WriteBuffer.BuffersExactly | teamCache/write_buffer.c:7-16 | with the buffer empty a miss goes into it exactly if it is turned on and the miss is the only block of a store; otherwise it stays in the foreground |
| WriteBuffer.StoreMissAnswered | teamCache/access.c:217-225 | in every run with the buffer on, a one-block store that has missed is called back by the very next tick, whatever coherence answers |
| WriteBuffer.CallbackMeansFound | teamCache/access.c:235-248 | every other callback comes only after each block of its request has been ready and in the cache |
| Events.OneSlot | teamCache/access.c:145-158 | no reachable state has both slots awaiting the same event |
| Events.Unawaited | teamCache/access.c:160-186 | an event nobody of that processor awaits stops the program with its message and changes nothing; only NO_ACTION is ignored |
| Events.InvalidateStops | teamCache/access.c:170-171 | INVALIDATE stops the program in every reachable state |
| Events.FlushAwaited | teamCache/access.c:160-167 | an awaited flush, reported either way, frees exactly the request's way and asks for its data |
| Events.DataAwaited | teamCache/access.c:172-196 | awaited foreground data fills exactly the request's way; only exhausted LRU stamps stop it |
| Events.BufferedDataAwaited | teamCache/access.c:197-211 | the data of an acknowledged store frees the buffer, and the parked or the next request starts at once |
| Placement.TargetSet | teamCache/replacement.c:80-93 | choosing a target moves no block; an LRU victim is the E-th most recent block |
| Placement.HitPlaced | teamCache/access.c:92-100 | a hit makes its block the most recent and keeps the set's contents |
| Placement.MissPlaced | teamCache/access.c:77-81 | a miss leaves its block absent and not recent, and its way free or holding the named victim |
| Placement.FlushPlaced | teamCache/eviction.c:8-14 | the end of a flush frees exactly the victim's way |
| Placement.FillPlaced | teamCache/access.c:188-196 | a fill makes its block the most recent of its set |
| Placement.OneHomePerBlock | teamCache/lookup.c:12-20 | every valid line sits in the set of its block and looking up its flush address finds that line: no block in two ways |
| Placement.LruRefinement | teamCache/replacement.c:22-39 | the cache finds a block iff it is among the E most recent of its set; accesses are the requests' blocks in order; hits are the ideal cache's |
| Placement.Inclusion | teamCache/replacement.c:62-93 | same requests, equal s and b, fewer ways: contents included and hits no more, whatever the timing |
| Placement.MoreWaysMoreHits | teamCache/replacement.c:22-39 | LRU is a stack algorithm: more ways never lose a hit on any access sequence |
| Residency.TickEffect | teamCache/access.c:215-253 | in either mode a tick moves no block and makes at most one call, only if nothing waited before: a fetch of an absent block or a flush of a present one |
| Residency.FlushEffect | teamCache/access.c:160-167 | after a flush exactly the victim is gone and the awaited block is asked for; fetch fails exactly if the cache has that block already |
| Residency.FillEffect | teamCache/access.c:188-212 | after a fill exactly the awaited block has joined, and a parked request restarts; the run is lost exactly if it restarts for that block with another way as target |
| Residency.DroppedResident | teamCache/eviction.c:12-13 | giving up a way removes its block and no other |
| Stack.StartWhole | teamCache/access.c:215-252 | in either mode the cache's part of a tick keeps cache, coherence and bus in agreement and loses no run |
| Stack.FlushWhole | coherence/coherence.c:121-142 | the delivery that ends a flush keeps the agreement, unless the request's own block is in the cache: then, and only then, fetch fails |
| Stack.FillWhole | coherence/coherence.c:121-142 | the delivery of data keeps the agreement, and says exactly when it loses the run |
| Stack.BusWhole | interconnect/interconnect.c:219-317 | a bus tick with its delivery keeps the agreement; the run is lost exactly through the two cases above |
| Stack.NoFailure | teamCache/access.c:30-38 | one processor, all accepted parameters: a run stops only on a malformed or overflowing request, exhausted LRU stamps or, with the buffer on and two ways or more, a granted miss; no other failure or assertion anywhere |
| Stack.ResidentIffModified | teamCache/access.c:138-212 | in either mode a block is valid iff MODIFIED, except the victim being flushed; INVALID_MODIFIED is the awaited block; the bus carries exactly that |
| Stack.LostExactlyWhen | teamCache/access.c:197-208 | a tick loses the run (fetch fails at once, or will when the flush begun ends) iff it delivers the buffered store's data, a request for the same block is parked, and its target is another way |
| Stack.DoomedFails | teamCache/access.c:160-167 | a run lost to a flush stays so and fails in fetch in the very tick that delivers the flush |
| Liveness.TickLowersWork | teamCache/access.c:215-253 | in either mode every tick with a request outstanding lowers the work measure of the stack, unless the run fails |
| Liveness.EveryRequestAnswered | teamCache/access.c:215-253 | 205 ticks per outstanding block suffice to call back every request, in order and once, with bus and memory at rest, unless the run fails |
| BufferedMiss.BufferedMissFails | teamCache/access.c:206-208 | with the buffer on and two ways or more a concrete run ends in the failure of fetch |
| BufferedMiss.GrantedOnMissIff | teamCache/access.c:35-37 | for all accepted parameters: that failure is unreachable iff the buffer is off or the cache has one way |
| CacheObject.CacheState.constructor | teamCache/cache_internal.h:22-43 | separately allocated invalid sets; the initial state of the machine |
| CacheObject.CacheState.ChooseTarget | teamCache/replacement.c:80-93 | in place on one set, the choice and the aging of Replacement.Target, the others untouched, RRIP values within the maximum |
| CacheObject.CacheState.PrepareThenFetch | teamCache/eviction.c:16-41 | eviction or fetch in place equals the machine's step |
| CacheObject.CacheState.BeginMiss | teamCache/access.c:61-82 | parking, buffering or starting a miss equals the machine's step; with an empty buffer it is used exactly for the only block of a store with the buffer on |
| CacheObject.CacheState.BeginBlock | teamCache/access.c:85-103 | taking a block, lookup, hit or miss equals the machine's step |
| CacheObject.CacheState.BeginRequest | teamCache/access.c:111-123 | taking a request and splitting it equals the machine's step |
| CacheObject.CacheState.CountBlock | teamCache/split.c:80-95 | counting equals the machine's step, assertions included |
| CacheObject.CacheState.AccessRequest | teamCache/access.c:125-136 | validation and the arrival queue |
| CacheObject.CacheState.AccessEvent | teamCache/access.c:138-213 | matching of slots, flush and data branches, every failure |
| CacheObject.CacheState.AccessTick | teamCache/access.c:215-253 | acknowledgement, retirement or start equals the machine's step |
| CacheObject.Drive | teamCache/access.c:125-253 | every run of the object is a run of the machine, in either mode; its callbacks are a prefix of the arrivals; RRIP values stay within the maximum in all runs |

## Left out

- MSI, MESI, MOESI and MESIF are unimplemented branches in the source and are not modelled.
- teamCache with several processors, and flushes from several processors: cache lines carry no owner.
- simpleCache/stree.c, cache/cache.c, branch/* and branchCPP/* are not part of this model.
- engine: only the main loop. Dynamic loading, the debugger, configuration and trace files are left out; a trace is a finite sequence of operations, and the branch predictor's verdict is part of a branch operation.
- Option parsing and allocation in teamCache/lifecycle.c: the accepted ranges are preconditions, allocation does not fail, memory is not freed.
- Printing, stall messages, debug notification and the comparison counter of the tree.
- The dirty flag of a teamCache line only labels trace output; what a hit or a fill writes to it is proved, its use is not modelled.
- BUSRD and SHARED transactions: MI never sends them. Their branches in the bus are modelled, but no state of a run reaches them and nothing is proved of them.
- The tests inside failing assertions, and the failure branches that no reachable state takes, are modelled; what is proved of them is that they are not taken.
- Function-pointer callbacks into the next component are returned as values and made by the caller; a processor's callback that enqueues a request from within a tick is modelled as a request after that tick.
- teamCache's request and block lists are sequences, not linked nodes; a request object is a value in the slot that owns it.
- Masks and shifts are written with division, remainder and product; the or of tag and set, and of processor number and count, is the bitwise function.
- simpleCache masks with the complement of blockSize - 1; the model subtracts the remainder, which is the same for powers of two.
- LRU contents, inclusion and the hit count (Placement) are for the write buffer turned off; with it on, a later request can hit while a buffered store still waits for its data, so blocks are not used in the order of the requests.
- Starvation: a new bus request takes a free pending slot before queued ones, so no bound on waiting time for a queued transaction is claimed beyond BoundedOvertaking's dequeues.
- Coherence.StateTree.InvlReq: no n-processor version, because simpleCache never calls it.
- Processor tick and tag counters are unbounded; their 64-bit wrap-around is not modelled.
