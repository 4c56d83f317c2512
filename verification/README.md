# Host-side actors and key encoders: a verified model

This project models the host-side logic of the atomr-accel crates in Dafny and proves properties of it over all
inputs and all runs. Nothing here touches a GPU: the kernels are thin foreign calls, and what decides whether the
system is right are the actors that queue, batch, cache and route around them, and the encoders whose strings and
hashes those caches are keyed by.

| module | what it models |
|---|---|
| `NodeGraph` | the node graph, Kahn's algorithm on it, and the runner |
| `EmbeddingCache` | the LRU cache of embeddings |
| `FairShare` | weighted fair queueing by virtual finish time |
| `Speculative` | the draft-and-verify decode loop |
| `Batching` | dynamic batching by size and by timer |
| `Fnv`, `NvrtcCache` | the FNV-1a hashes (64-bit variant of draft-eastlake-fnv, section 2) and the two-level kernel store they key |
| `FlashDispatch` | validation, kernel names and the dispatch table of FlashAttention |
| `Cutlass`, `Evt`, `PlanKey`, `CutlassActor` | name tables, epilogue trees, plan keys and the actor that caches plans under them |
| `ReplicaPool` | routing over replicas |
| `SharedState` | the write-token coordinator |
| `SpatialIndex` | the uniform-grid neighbour index |
| `Wrappers`, `Text`, `Bytes` | shared types; decimal, hexadecimal and little-endian encodings and prefix-free codes |

Each stateful actor appears twice: as a class whose methods do what the handlers do, field by field and loop by loop,
and as a transition function on values. Every method states its whole effect as one step of that function; the
results about whole runs are lemmas about the function. Where the original iterates over a hash map, the method picks
elements in an arbitrary order, so the results hold for every order.

Assumptions that appear as parameters or hypotheses: a clock and a bound on how late timers are delivered
(`Batching`), a serializer that round-trips (`NvrtcCache`), an arbitrary hash function (`PlanKey`, `CutlassActor`)
and arbitrary user-supplied node, batch, draft, verify and render functions, each a function of its arguments.

`dafny verify dfyconfig.toml` checks everything.

## Where the code falls short of its comments or of what a caller would expect

- `topo_order` compares lengths only. An unregistered edge target can make up for a node on a cycle, exactly when
  `LengthTestIff` says (`LengthTestCanBeFooled` is an example); `Run` then fails on the missing node, so a reply of `Ok` is still always right.
- The entry node is called the first to run, and `Run` never looks at it. It is the first exactly if every other
  registered node has a predecessor (`EntryRunsFirstIff`; `EntryMayRunSecond` is an example to the contrary).
- A cache configured with capacity 0 holds the last entry inserted (`CapacityKeptIff`, `OneSlotHoldsLast`), and keys
  whose hashes collide find each other's values (`OwnValuesIff`).
- `max_in_flight == 0` dispatches nothing, ever (`ZeroCapStarves`, `CapServesIff`).
- `max_batch == 0` with `DropOldest` removes from an empty vector on the first submit (`PanicsExactly`).
- Lookups race inserts: one that reads the disk before an insert of another kernel and promotes after it serves the old
  kernel until memory is dropped (`LatePromotionForgets`).
- Timers started within one `max_wait` accumulate without bound (`TimersLive`, `TimersPileUp`).
- A kernel inserted with a version stamp other than the current one is served from memory but not from disk
  (`InsertCoherentIffCurrent`). `CachedKernel::new` never builds one.
- The GQA ratio is only checked to be at least 1, not to be a power of two (`AnyRatioIsValid`, `RatioThreeIsValid`).
- Prebuilt kernel names are not unique per cell (`PrebuiltNamesClash`).
- Cell coordinates saturate at the 32-bit limits, so the cells at the rim hold points at any distance
  (`QueryIsLocalIff`).
- `EpilogueVisitorTree::id` leaves out `per_channel` (`QuantizeScopeClashes`).
- `LeastLoaded` counts dispatches only and breaks ties towards the lowest index; after n * (2^32 - 1) requests
  every counter is full, and from then on the first replica gets every request (`StuckOnFirst`). `RoundRobin` skips
  replicas when its cursor wraps unless their number divides 2^64 (`PicksInTurnIff`).

## Model

| member | source | states |
|---|---|---|
| `NodeGraph.RunOkMeansRanOnceInOrder` | crates/atomr-accel-agents/src/langgraph_nodes.rs:142-166 | Any graph at all, repeated edges, self-loops and unregistered endpoints included: a run replies `Ok` only if every registered node ran exactly once, after all its predecessors, and nothing else ran |
| `NodeGraph.RunReplyThreads` | crates/atomr-accel-agents/src/langgraph_nodes.rs:142-166 | What a run replies: the state is handed from node to node, each applied to its predecessor's result; `Ok` carries the last of these states and requires all nodes, `Err` carries the cycle error, the missing node's, or the error of the first node that fails |
| `NodeGraph.RunOkIffRunnable` | crates/atomr-accel-agents/src/langgraph_nodes.rs:142-166 | If no node fails, a run replies `Ok` exactly on the runnable graphs: registered nodes depend only on registered nodes, none of them is on a cycle, and unregistered targets never get ordered |
| `NodeGraph.EntryRunsFirstIff` | crates/atomr-accel-agents/src/langgraph_nodes.rs:51-53 | "The first to run": on a runnable graph the registered entry node runs first under every hash-map order exactly if every other registered node has a predecessor |
| `NodeGraph.EntryMayRunSecond` | crates/atomr-accel-agents/src/langgraph_nodes.rs:81-93 | Two nodes without edges: with node 1 as the entry, node 2 may run first |
| `NodeGraph.EntryComesFirstIff` | crates/atomr-accel-agents/src/langgraph_nodes.rs:87-100 | The same for the topological order |
| `NodeGraph.SourceMayComeFirst` | crates/atomr-accel-agents/src/langgraph_nodes.rs:89-100 | Any known node without predecessors comes first in some order |
| `NodeGraph.TopoOkIffAcyclic` | crates/atomr-accel-agents/src/langgraph_nodes.rs:85-115 | When every edge endpoint is registered, the length test accepts exactly the acyclic graphs |
| `NodeGraph.OrderIsNodesIffRunnable` | crates/atomr-accel-agents/src/langgraph_nodes.rs:87-115 | For any graph: the list produced is precisely the registered nodes if and only if the graph is runnable |
| `NodeGraph.LengthTestIff` | crates/atomr-accel-agents/src/langgraph_nodes.rs:111-114 | On any graph the length test accepts exactly if as many unregistered targets get ordered as registered nodes do not; it accepts wrongly exactly if those two numbers agree and are not 0 |
| `NodeGraph.LengthTestSound` | crates/atomr-accel-agents/src/langgraph_nodes.rs:111-114 | If every edge target is registered the length test accepts exactly the runnable graphs |
| `NodeGraph.LengthTestCanBeFooled` | crates/atomr-accel-agents/src/langgraph_nodes.rs:111-113 | A concrete graph on which it accepts a cycle |
| `NodeGraph.OrderedIffUnblocked` | crates/atomr-accel-agents/src/langgraph_nodes.rs:88-110 | The nodes ordered are exactly the known ones that no walk reaches from a cycle or from a node neither registered nor a target |
| `NodeGraph.KahnSetIsUnique` | crates/atomr-accel-agents/src/langgraph_nodes.rs:88-110 | The set of nodes ordered does not depend on the hash-map iteration order |
| `NodeGraph.CycleNeverOrdered` | crates/atomr-accel-agents/src/langgraph_nodes.rs:96-110 | No node of a cycle is ever ordered |
| `NodeGraph.StuckMeansCycle` | crates/atomr-accel-agents/src/langgraph_nodes.rs:111-113 | From nodes that all wait for each other a cycle is extracted (the error direction) |
| `NodeGraph.UnmetSplit` | crates/atomr-accel-agents/src/langgraph_nodes.rs:101-108 | Finishing a node meets exactly as many edges into a node as the adjacency list repeats it |
| `NodeGraph.KahnTakes` | crates/atomr-accel-agents/src/langgraph_nodes.rs:96-100 | Emitting the head of the queue keeps every node after all its predecessors |
| `NodeGraph.RelaxStarts` | crates/atomr-accel-agents/src/langgraph_nodes.rs:96-102 | Entering the inner loop: the counts still owe exactly the edges of the node just emitted |
| `NodeGraph.RelaxStep` | crates/atomr-accel-agents/src/langgraph_nodes.rs:103-107 | The decrement never saturates, and a node is queued at the moment its count reaches zero |
| `NodeGraph.KahnDone` | crates/atomr-accel-agents/src/langgraph_nodes.rs:96-111 | When the queue runs dry every node left out has an unmet edge |
| `NodeGraph.Relax` | crates/atomr-accel-agents/src/langgraph_nodes.rs:102-108 | The inner loop restores the queue invariant |
| `NodeGraph.OkRanAll` | crates/atomr-accel-agents/src/langgraph_nodes.rs:150-166 | A successful loop has run every listed node, and all of them are registered |
| `NodeGraph.RunAllThreads` | crates/atomr-accel-agents/src/langgraph_nodes.rs:150-166 | The same of the loop over any list of nodes |
| `NodeGraph.ThreadsDecide` | crates/atomr-accel-agents/src/langgraph_nodes.rs:150-166 | If some states thread through the whole list, the loop replies `Ok` with the last of them |
| `NodeGraph.KnownMessage` | crates/atomr-accel-agents/src/langgraph_nodes.rs:151-157 | The error of a missing node, spelt out |
| `NodeGraph.EdgeKeepsAgreement` | crates/atomr-accel-agents/src/langgraph_nodes.rs:76-79 | Adding an edge keeps adjacency lists and in-degrees in agreement with the edge log |
| `NodeGraph.NodeGraph.constructor` | crates/atomr-accel-agents/src/langgraph_nodes.rs:62-69 | The empty graph |
| `NodeGraph.NodeGraph.AddNode` | crates/atomr-accel-agents/src/langgraph_nodes.rs:71-74 | Registers or replaces a node; the in-degree map stays in agreement, an existing count is kept |
| `NodeGraph.NodeGraph.AddEdge` | crates/atomr-accel-agents/src/langgraph_nodes.rs:76-79 | Appends one edge, whether or not its endpoints are registered |
| `NodeGraph.NodeGraph.SetEntry` | crates/atomr-accel-agents/src/langgraph_nodes.rs:81-83 | Sets the entry and nothing else |
| `NodeGraph.NodeGraph.ReadyNodes` | crates/atomr-accel-agents/src/langgraph_nodes.rs:89-93 | The start queue lists exactly the known nodes of in-degree zero |
| `NodeGraph.NodeGraph.TopoOrder` | crates/atomr-accel-agents/src/langgraph_nodes.rs:87-115 | The queue loop produces a maximal list of known nodes, each once and after its predecessors, which is accepted by its length |
| `NodeGraph.NodeGraph.Run` | crates/atomr-accel-agents/src/langgraph_nodes.rs:140-168 | The reply of the `Run` message for such a list, whatever order the hash map is iterated in |
| `EmbeddingCache.Inclusion` | crates/atomr-accel-agents/src/embedding_cache.rs:94-135 | LRU inclusion over whole runs: whenever the smaller cache hits, the larger hits with the same value; its recency list contains the smaller one's as a subsequence; the size gap never exceeds the capacity gap |
| `EmbeddingCache.StepInside` | crates/atomr-accel-agents/src/embedding_cache.rs:94-135 | One message keeps the smaller cache inside the larger, and the larger answers no worse |
| `EmbeddingCache.StepValid` | crates/atomr-accel-agents/src/embedding_cache.rs:94-135 | Every message keeps the recency list a repetition-free listing of the map's keys, within capacity, with the right reported size |
| `EmbeddingCache.RunValid` | crates/atomr-accel-agents/src/embedding_cache.rs:68-135 | On every run at most max(1, capacity) entries, listed once each, and the right reported size |
| `EmbeddingCache.CapacityKeptIff` | crates/atomr-accel-agents/src/embedding_cache.rs:109-117 | The configured capacity bounds the number of entries on every run exactly if it is not 0 |
| `EmbeddingCache.HoldsMostRecent` | crates/atomr-accel-agents/src/embedding_cache.rs:83-119 | On runs without `Invalidate`: a key is held if and only if it was inserted (or hit) at all and fewer other keys than the cache has room for were inserted or hit since |
| `EmbeddingCache.RecentIsFound` | crates/atomr-accel-agents/src/embedding_cache.rs:83-130 | On any run: a key used so recently and not invalidated since is found, with the value last inserted for it |
| `EmbeddingCache.RecentIsKept` | crates/atomr-accel-agents/src/embedding_cache.rs:83-130 | And is still held |
| `EmbeddingCache.LeavesOnlyWhenFull` | crates/atomr-accel-agents/src/embedding_cache.rs:107-130 | A key leaves only by its own `Invalidate`, or as the front of the list when another key is inserted into a full cache |
| `EmbeddingCache.EvictedIsOldest` | crates/atomr-accel-agents/src/embedding_cache.rs:109-114 | The key evicted has as many keys used after it as the cache has room for |
| `EmbeddingCache.StatsCount` | crates/atomr-accel-agents/src/embedding_cache.rs:96-134 | On every run the reported counters are the numbers of hit and missed replies, the size and the capacity |
| `EmbeddingCache.RemovedMeansThere` | crates/atomr-accel-agents/src/embedding_cache.rs:120-130 | `Invalidate` answers true exactly if the key would have been found, and afterwards it is not |
| `EmbeddingCache.OneSlotHoldsLast` | crates/atomr-accel-agents/src/embedding_cache.rs:107-130 | A cache of capacity 0 or 1 holds exactly the last entry inserted, unless its key was invalidated afterwards |
| `EmbeddingCache.EvictedValid` | crates/atomr-accel-agents/src/embedding_cache.rs:109-114 | Eviction removes one key from both structures and always makes room |
| `EmbeddingCache.NeverStale` | crates/atomr-accel-agents/src/embedding_cache.rs:96-130 | A hit returns the last value inserted for that hash and not invalidated since |
| `EmbeddingCache.OwnValuesIff` | crates/atomr-accel-agents/src/embedding_cache.rs:60-130 | Per key: every lookup on every run misses or finds what was last inserted for its own key and not invalidated since, exactly if no two keys share a hash |
| `EmbeddingCache.FindsAnothers` | crates/atomr-accel-agents/src/embedding_cache.rs:96-101 | On a collision a lookup finds what was inserted for the other key |
| `EmbeddingCache.StepByRecency` | crates/atomr-accel-agents/src/embedding_cache.rs:83-135 | One message keeps the recency list sorted by last use |
| `EmbeddingCache.OrderIsRecency` | crates/atomr-accel-agents/src/embedding_cache.rs:83-135 | On every run the list is sorted by the time of the last insert or hit of each key, so the front is the least recently used |
| `EmbeddingCache.WithoutProps` | crates/atomr-accel-agents/src/embedding_cache.rs:84-86 | Removing the first occurrence removes the key from a repetition-free list |
| `EmbeddingCache.RemoveFirst` | crates/atomr-accel-agents/src/embedding_cache.rs:84-86 | The search loop and removal |
| `EmbeddingCache.EmbeddingCache.constructor` | crates/atomr-accel-agents/src/embedding_cache.rs:68-81 | The empty cache |
| `EmbeddingCache.EmbeddingCache.Touch` | crates/atomr-accel-agents/src/embedding_cache.rs:83-88 | Moves a key to the recent end, or appends it |
| `EmbeddingCache.EmbeddingCache.DoGet` | crates/atomr-accel-agents/src/embedding_cache.rs:96-106 | State and reply of a lookup |
| `EmbeddingCache.EmbeddingCache.DoInsert` | crates/atomr-accel-agents/src/embedding_cache.rs:107-119 | State after an insert, with eviction |
| `EmbeddingCache.EmbeddingCache.DoInvalidate` | crates/atomr-accel-agents/src/embedding_cache.rs:120-130 | State and reply of an invalidation |
| `EmbeddingCache.EmbeddingCache.Handle` | crates/atomr-accel-agents/src/embedding_cache.rs:94-135 | Every message handler takes exactly the step of the specification |
| `FairShare.LeadIsBounded` | crates/atomr-accel-patterns/src/scheduler.rs:124-163 | Pairwise fairness: while tenants i and j both have work at every dispatch, v_i - v_j stays at most max(starting difference, 1/w_i) |
| `FairShare.FairShares` | crates/atomr-accel-patterns/src/scheduler.rs:124-163 | From equal virtual times the weight-normalised service of two busy tenants differs by at most 1/w_i one way and 1/w_j the other |
| `FairShare.SharesFollowWeights` | crates/atomr-accel-patterns/src/scheduler.rs:124-163 | The same in counts and weights, 0 counting as 1: n_i * w_j and n_j * w_i differ by at most w_j one way and w_i the other, so shares are proportional to weights up to one request |
| `FairShare.BoundedBypass` | crates/atomr-accel-patterns/src/scheduler.rs:124-148 | While the head of i waits, tenant j is dispatched at most max(0, floor((v_i - v_j) * w_j) + 1) times |
| `FairShare.WaitingHead` | crates/atomr-accel-patterns/src/scheduler.rs:124-148 | Why: the waiting tenant's virtual time stands still, and no dispatch of j happens above it |
| `FairShare.BoundedWait` | crates/atomr-accel-patterns/src/scheduler.rs:124-148 | All other tenants together are dispatched a bounded number of times |
| `FairShare.NoStarvation` | crates/atomr-accel-patterns/src/scheduler.rs:124-191 | If the head of i is still waiting, only a bounded number of `Finished` messages have been handled |
| `FairShare.Saturated` | crates/atomr-accel-patterns/src/scheduler.rs:182-185 | While some tenant always has work, each `Finished` is paid back by a dispatch |
| `FairShare.ZeroCapStarves` | crates/atomr-accel-patterns/src/scheduler.rs:125 | With a cap of 0 nothing is ever dispatched |
| `FairShare.CapServesIff` | crates/atomr-accel-patterns/src/scheduler.rs:125-149 | An idle scheduler with a tenant dispatches on some run exactly if its cap is positive |
| `FairShare.Conservation` | crates/atomr-accel-patterns/src/scheduler.rs:124-191 | Per tenant, accepted requests are the served ones followed by the queued ones, in order: nothing lost, duplicated or reordered |
| `FairShare.VirtualTime` | crates/atomr-accel-patterns/src/scheduler.rs:144-147 | A tenant's virtual time is its starting time plus dispatches / weight |
| `FairShare.TimesIsProduct` | crates/atomr-accel-patterns/src/scheduler.rs:147 | Repeated addition of the increment is the product |
| `FairShare.InFlightAccounting` | crates/atomr-accel-patterns/src/scheduler.rs:148-183 | The cap is never exceeded; in-flight = dispatched - finished (from the start on) exactly if no prefix of the run has a `Finished` too many, and more otherwise |
| `FairShare.TenantsFixed` | crates/atomr-accel-patterns/src/scheduler.rs:103-114 | The tenants and their weights never change |
| `FairShare.LastListedCounts` | crates/atomr-accel-patterns/src/scheduler.rs:103-114 | Of several configuration entries for one id the last one gives the weight |
| `FairShare.FairShareScheduler.constructor` | crates/atomr-accel-patterns/src/scheduler.rs:102-122 | Each tenant has the weight of the last entry for its id, an empty queue and virtual time 0 |
| `FairShare.FairShareScheduler.PickTenant` | crates/atomr-accel-patterns/src/scheduler.rs:128-141 | The scan finds a backlogged tenant of minimal virtual finish time, in whatever order the map is iterated, or all queues are empty |
| `FairShare.FairShareScheduler.ServeHead` | crates/atomr-accel-patterns/src/scheduler.rs:142-161 | Pops that head and advances virtual time, in-flight and total |
| `FairShare.FairShareScheduler.TryDispatch` | crates/atomr-accel-patterns/src/scheduler.rs:124-163 | The loop ends with the cap reached or all queues empty, having only dispatched |
| `FairShare.FairShareScheduler.Submit` | crates/atomr-accel-patterns/src/scheduler.rs:172-181 | An unknown tenant is refused and nothing changes; otherwise the request is queued last and the loop runs |
| `FairShare.FairShareScheduler.Finished` | crates/atomr-accel-patterns/src/scheduler.rs:182-185 | Frees a slot, never below zero, and runs the loop |
| `Speculative.SpeculationEqualsGreedy` | crates/atomr-accel-patterns/src/speculative.rs:96-150 | Lossless speculation: with a faithful verifier, a productive draft and k > 0 a successful reply is exactly the one-at-a-time continuation, of length max(prefix length, limit); it is successful if neither function fails |
| `Speculative.LosslessForEveryDraft` | crates/atomr-accel-patterns/src/speculative.rs:96-150 | For every draft function, and a verifier that may fail: a successful reply is a greedy continuation, short of the limit only where the draft is exhausted, with no more verifier calls than tokens |
| `Speculative.PerfectDraft` | crates/atomr-accel-patterns/src/speculative.rs:102-143 | If the draft is always right: the limit is reached, every drafted token is accepted, and the verifier is called ceil(tokens / k) times |
| `Speculative.ExcessIsIgnored` | crates/atomr-accel-patterns/src/speculative.rs:113-122 | Drafted tokens beyond the room left change neither output nor counters |
| `Speculative.DecodeIsLossless` | crates/atomr-accel-patterns/src/speculative.rs:101-147 | The same from any point of the loop |
| `Speculative.RoundIsLossless` | crates/atomr-accel-patterns/src/speculative.rs:102-143 | A round adds only tokens that the next-token function would have produced, and at least one |
| `Speculative.NoFailurePropagates` | crates/atomr-accel-patterns/src/speculative.rs:101-149 | If neither function fails the decoder never replies with an error |
| `Speculative.GreedyLength` | crates/atomr-accel-patterns/src/speculative.rs:101-103 | One-at-a-time decoding ends at max(prefix length, limit) |
| `Speculative.Accounting` | crates/atomr-accel-patterns/src/speculative.rs:100-149 | Whatever draft and verifier do: the reply extends the prefix within the limit, and the counters account for every token |
| `Speculative.RoundGrows` | crates/atomr-accel-patterns/src/speculative.rs:102-146 | A round that continues has grown the output within the limit, so the loop terminates |
| `Speculative.GreedyUnique` | crates/atomr-accel-patterns/src/speculative.rs:101-147 | A sequence that continues the prefix token by token is the greedy one |
| `Speculative.AgreedContinues` | crates/atomr-accel-patterns/src/speculative.rs:124-133 | The longest agreeing prefix of a candidate list is a continuation |
| `Speculative.LoopBody` | crates/atomr-accel-patterns/src/speculative.rs:102-146 | One pass of the loop, its breaks and early error replies included |
| `Speculative.Decode` | crates/atomr-accel-patterns/src/speculative.rs:96-150 | The whole loop and its reply |
| `Batching.RepliesAreBatchResults` | crates/atomr-accel-patterns/src/batching.rs:106-203 | For any batch function, wrong result counts included: on every run the requests fall into consecutive batches of at most `max_batch`, and reply i of a batch is result i of the batch function on it, or the same error for all if the count is wrong; only requests pending at the stop are told so instead; the statistics count the batches whose result count was right, and their requests |
| `Batching.NoRoomRefusesAll` | crates/atomr-accel-patterns/src/batching.rs:154-160 | With `max_batch == 0` and `Reject` every request is refused at once and counted as dropped |
| `Batching.FlushIsBatch` | crates/atomr-accel-patterns/src/batching.rs:106-135 | A flush answers exactly the pending requests, as one batch |
| `Batching.ExactlyOnce` | crates/atomr-accel-patterns/src/batching.rs:106-203 | On every run the k-th reply answers the k-th request, the rest is pending and below `max_batch`, nothing is dropped by overflow if max_batch >= 1, and after the stop nothing is left |
| `Batching.NoRequestWaitsLonger` | crates/atomr-accel-patterns/src/batching.rs:106-190 | Batch deadline: no request, answered or pending, waits longer than `max_wait` plus the lateness of timers |
| `Batching.SendsWhenFull` | crates/atomr-accel-patterns/src/batching.rs:171-179 | A submit sends the batch exactly if it is then full |
| `Batching.FlushNowSendsAll` | crates/atomr-accel-patterns/src/batching.rs:106-135 | An explicit flush leaves nothing pending |
| `Batching.IdleTimerDoesNothing` | crates/atomr-accel-patterns/src/batching.rs:181-190 | A timer message without a batch is spent without effect |
| `Batching.StaleTimerIsHarmless` | crates/atomr-accel-patterns/src/batching.rs:181-190 | A timer flushes only a batch that has waited its full time; one left from an earlier batch leaves a younger batch alone, whose own timer stays live, and is scheduled again one `max_wait` from now |
| `Batching.TimersLive` | crates/atomr-accel-patterns/src/batching.rs:137-190 | Live timers = batches begun - timer messages that did not reschedule themselves |
| `Batching.TimersPileUp` | crates/atomr-accel-patterns/src/batching.rs:173-179 | There is no bound on them: with max_batch 1, n submits leave n live timers and nothing pending |
| `Batching.BatchingIsTransparent` | crates/atomr-accel-patterns/src/batching.rs:106-203 | In particular, if the batch function treats requests independently, every request gets the answer it would have got alone |
| `Batching.PanicsExactly` | crates/atomr-accel-patterns/src/batching.rs:154-168 | A submit panics exactly for `max_batch == 0` with `DropOldest` |
| `Batching.StepKeeps` | crates/atomr-accel-patterns/src/batching.rs:106-203 | Every event keeps order, pairing, the live deadline timer and the batch bound |
| `Batching.RunKeeps` | crates/atomr-accel-patterns/src/batching.rs:106-203 | So does every run |
| `Batching.ArriveWithRoom` | crates/atomr-accel-patterns/src/batching.rs:171-179 | A submit queues the request, starts the timer of an empty batch and flushes a full one |
| `Batching.QueuedKeeps` | crates/atomr-accel-patterns/src/batching.rs:171-176 | Queueing keeps the deadline: a new batch gets its own timer |
| `Batching.FlushKeeps` | crates/atomr-accel-patterns/src/batching.rs:106-135 | A flush answers every pending request, also on a wrong result count |
| `Batching.FireKeeps` | crates/atomr-accel-patterns/src/batching.rs:181-190 | A timer message keeps the invariant; the live deadline timer is never the one consumed early |
| `Batching.DynamicBatchingServer.constructor` | crates/atomr-accel-patterns/src/batching.rs:97-104 | The empty server |
| `Batching.DynamicBatchingServer.DoFlush` | crates/atomr-accel-patterns/src/batching.rs:106-135 | The flush: result i to request i, or the same error to all |
| `Batching.DynamicBatchingServer.DoSubmit` | crates/atomr-accel-patterns/src/batching.rs:153-180 | The submit, both overflow policies included |
| `Batching.DynamicBatchingServer.OnTimer` | crates/atomr-accel-patterns/src/batching.rs:181-190 | The timer message: flush, reschedule or nothing |
| `Batching.DynamicBatchingServer.OnStop` | crates/atomr-accel-patterns/src/batching.rs:198-203 | The final drain |
| `Fnv.StepIsBijective` | crates/atomr-accel-cuda/src/nvrtc_cache.rs:293-296 | Each byte step of FNV-1a is a bijection on 64-bit states with an explicit inverse; different bytes lead to different states |
| `Fnv.XorProps` | crates/atomr-accel-cuda/src/nvrtc_cache.rs:294 | Exclusive or with a fixed byte is its own inverse |
| `Fnv.MulInverse` | crates/atomr-accel-cuda/src/nvrtc_cache.rs:295 | Multiplying by the prime modulo 2^64 is undone by its inverse |
| `Fnv.HashAppend` | crates/atomr-accel-cuda/src/nvrtc_cache.rs:291-298 | Hashing in pieces is hashing the concatenation |
| `Fnv.KnownHashes` | crates/atomr-accel-cuda/src/nvrtc_cache.rs:281-298 | The published 64-bit values of the empty string and of "a" |
| `Fnv.KnownOption` | crates/atomr-accel-cuda/src/nvrtc_cache.rs:246-254 | The framing of one option, byte by byte |
| `Fnv.SuffixIsBijective` | crates/atomr-accel-cuda/src/nvrtc_cache.rs:291-298 | A common suffix neither separates nor merges states |
| `Fnv.OneByteNeverCollides` | crates/atomr-accel-cuda/src/nvrtc_cache.rs:229-233 | Two sources that differ in exactly one byte never collide |
| `Fnv.OptionStreamInjective` | crates/atomr-accel-cuda/src/nvrtc_cache.rs:246-254 | The length-prefixed option stream determines the option list, for all lists |
| `Fnv.OneOptionByteNeverCollides` | crates/atomr-accel-cuda/src/nvrtc_cache.rs:246-255 | Option lists that differ in one byte of one option never collide |
| `Fnv.FnvHasher.constructor` | crates/atomr-accel-cuda/src/nvrtc_cache.rs:281-285 | Starts at the offset basis |
| `Fnv.FnvHasher.Write` | crates/atomr-accel-cuda/src/nvrtc_cache.rs:291-298 | The write loop is the fold of the byte step |
| `Fnv.HashSource` | crates/atomr-accel-cuda/src/nvrtc_cache.rs:229-233 | Hash of a source |
| `Fnv.HashOptions` | crates/atomr-accel-cuda/src/nvrtc_cache.rs:241-256 | Hash of an option list |
| `NvrtcCache.StoreRefinesMap` | crates/atomr-accel-cuda/src/nvrtc_cache.rs:121-217 | Every run on any directory, with failing system calls, dropped memory and crashes inside inserts, gives the replies of the plain map that the directory shows at the start |
| `NvrtcCache.BusyStoreRefinesMap` | crates/atomr-accel-cuda/src/nvrtc_cache.rs:146-217 | The same with lookups on other threads, each interrupted anywhere between its file read and its promotion, as long as no other kernel is inserted under a key just being read |
| `NvrtcCache.PromotionIff` | crates/atomr-accel-cuda/src/nvrtc_cache.rs:162-165 | A late promotion changes no answer exactly if the disk still shows what the lookup read |
| `NvrtcCache.LatePromotionForgets` | crates/atomr-accel-cuda/src/nvrtc_cache.rs:157-165 | An insert of another kernel that finishes in between is forgotten until memory is dropped; exactly if the kernels are equal nothing happens |
| `NvrtcCache.BusyStepRefines` | crates/atomr-accel-cuda/src/nvrtc_cache.rs:146-217 | One such event is one event of the map |
| `NvrtcCache.Opened` | crates/atomr-accel-cuda/src/nvrtc_cache.rs:121-167 | What a directory shows to lookups is a finite map |
| `NvrtcCache.CrashAtomic` | crates/atomr-accel-cuda/src/nvrtc_cache.rs:175-209 | A crash between any two steps of an insert, even one that undoes the rename, leaves the entry at its complete old or complete new value and every other entry untouched |
| `NvrtcCache.RenameWithoutSyncIsNotAtomic` | crates/atomr-accel-cuda/src/nvrtc_cache.rs:189-191 | Without the sync a crash can lose both values |
| `NvrtcCache.PassesVisible` | crates/atomr-accel-cuda/src/nvrtc_cache.rs:179-203 | No step before the rename is visible, and the rename shows only under its own key |
| `NvrtcCache.PathsInjective` | crates/atomr-accel-cuda/src/nvrtc_cache.rs:179-180 | Entry paths are injective over keys, temporary paths too, and no temporary path is an entry path |
| `NvrtcCache.StemInjective` | crates/atomr-accel-cuda/src/nvrtc_cache.rs:219-224 | The file name determines the key |
| `NvrtcCache.KnownPath` | crates/atomr-accel-cuda/src/nvrtc_cache.rs:179-224 | A file name spelt out |
| `NvrtcCache.MemoryServes` | crates/atomr-accel-cuda/src/nvrtc_cache.rs:146-217 | What a lookup found or a successful insert stored is served from memory even if the files vanish, until memory is dropped |
| `NvrtcCache.GetChangesNothing` | crates/atomr-accel-cuda/src/nvrtc_cache.rs:146-167 | A lookup with its promotion changes no answer and reports what the disk holds |
| `NvrtcCache.ClearChangesNothing` | crates/atomr-accel-cuda/src/nvrtc_cache.rs:213-217 | Dropping the memory level changes no answer |
| `NvrtcCache.InsertSetsOneEntry` | crates/atomr-accel-cuda/src/nvrtc_cache.rs:175-209 | A successful insert sets exactly its own entry, a failed one changes no answer, wherever it failed |
| `NvrtcCache.InsertCoherentIffCurrent` | crates/atomr-accel-cuda/src/nvrtc_cache.rs:159-161 | Memory and disk agree after an insert exactly if the kernel carries the current version stamp |
| `NvrtcCache.StepRefines` | crates/atomr-accel-cuda/src/nvrtc_cache.rs:146-217 | One event of the store is one event of the map |
| `NvrtcCache.CrashRefines` | crates/atomr-accel-cuda/src/nvrtc_cache.rs:175-209 | An insert cut off by a crash has happened completely or not at all |
| `NvrtcCache.NvrtcCache.constructor` | crates/atomr-accel-cuda/src/nvrtc_cache.rs:121-133 | An empty memory level over whatever is on disk |
| `NvrtcCache.NvrtcCache.DoGet` | crates/atomr-accel-cuda/src/nvrtc_cache.rs:146-167 | Lookup in memory, then on disk |
| `NvrtcCache.NvrtcCache.WriteAll` | crates/atomr-accel-cuda/src/nvrtc_cache.rs:183-188 | The write loop passes through every prefix of the temporary file, and through nothing else |
| `NvrtcCache.NvrtcCache.DoInsert` | crates/atomr-accel-cuda/src/nvrtc_cache.rs:175-209 | The insert, with each system call that may fail; the disks it passes through include every one between two steps, and each is one that the crash theorem covers |
| `NvrtcCache.NvrtcCache.Rename` | crates/atomr-accel-cuda/src/nvrtc_cache.rs:194-203 | The rename, or the clean-up after a failed one |
| `NvrtcCache.NvrtcCache.ClearInMemory` | crates/atomr-accel-cuda/src/nvrtc_cache.rs:213-217 | Empties the memory level only |
| `FlashDispatch.NameParsesBack` | crates/atomr-accel-flashattn/src/dispatch.rs:256-288 | From the kernel name of any key a parser recovers every field except the architecture, of which it recovers the generation |
| `FlashDispatch.NamesEqualIffCellsEqual` | crates/atomr-accel-flashattn/src/dispatch.rs:256-288 | Two keys share a name exactly if they agree on all of that |
| `FlashDispatch.ValidNamesAreUnique` | crates/atomr-accel-flashattn/src/dispatch.rs:191-288 | Among valid keys a shared name means the same key up to architectures of one generation |
| `FlashDispatch.GenerationInName` | crates/atomr-accel-flashattn/src/dispatch.rs:257-264 | The name starts with "fa3" after the namespace exactly for sm_90a and sm_100, with "fa2" exactly for the other two |
| `FlashDispatch.KnownFa2Names` | crates/atomr-accel-flashattn/src/dispatch.rs:256-268 | Two names spelt out |
| `FlashDispatch.KnownFa3Names` | crates/atomr-accel-flashattn/src/dispatch.rs:256-268 | Two more |
| `FlashDispatch.KnownSuffixes` | crates/atomr-accel-flashattn/src/dispatch.rs:269-286 | All six suffixes spelt out |
| `FlashDispatch.ReadPiecesBack` | crates/atomr-accel-flashattn/src/dispatch.rs:269-286 | Any combination of optional suffixes is read back unambiguously |
| `FlashDispatch.PrebuiltNamesClash` | crates/atomr-accel-flashattn/src/dispatch.rs:355-360 | The prebuilt cells are not uniquely named: architectures of one generation share each name |
| `FlashDispatch.ValidIff` | crates/atomr-accel-flashattn/src/dispatch.rs:191-243 | What the three validations accept, in both directions |
| `FlashDispatch.FirstComplaint` | crates/atomr-accel-flashattn/src/dispatch.rs:191-219 | Which error an invalid key gets when several apply |
| `FlashDispatch.PrebuiltIff` | crates/atomr-accel-flashattn/src/dispatch.rs:352-408 | Which keys are prebuilt, in terms of their fields |
| `FlashDispatch.AnyRatioIsValid` | crates/atomr-accel-flashattn/src/dispatch.rs:209-212 | In a valid key the GQA ratio may be replaced by exactly the numbers from 1 on |
| `FlashDispatch.RatioThreeIsValid` | crates/atomr-accel-flashattn/src/dispatch.rs:209-212 | A valid key of ratio 3 |
| `FlashDispatch.DispatchTable.Lookup` | crates/atomr-accel-flashattn/src/dispatch.rs:421-427 | Lookup equals validate-then-name for every key: the prebuilt table is only a cache |
| `FlashDispatch.DispatchTable.StrictLookup` | crates/atomr-accel-flashattn/src/dispatch.rs:431-436 | Succeeds exactly on the prebuilt cells |
| `FlashDispatch.DispatchTable.constructor` | crates/atomr-accel-flashattn/src/dispatch.rs:352-411 | The table maps exactly the prebuilt cells to their names |
| `FlashDispatch.AddCell` | crates/atomr-accel-flashattn/src/dispatch.rs:363-379 | Both settings of `causal` of one cell are added |
| `FlashDispatch.AddDims` | crates/atomr-accel-flashattn/src/dispatch.rs:362-380 | The loop over head dimensions adds exactly its cells |
| `FlashDispatch.AddDtypes` | crates/atomr-accel-flashattn/src/dispatch.rs:361-381 | The loop over element types adds exactly its cells |
| `FlashDispatch.AddCross` | crates/atomr-accel-flashattn/src/dispatch.rs:360-382 | The whole nest adds exactly the cross product, and validation skips none of it |
| `FlashDispatch.PrebuiltIsCross` | crates/atomr-accel-flashattn/src/dispatch.rs:360-408 | The two nests together cover exactly the cells described by the prebuilt predicate |
| `FlashDispatch.Push` | crates/atomr-accel-flashattn/src/dispatch.rs:269-286 | One conditional push |
| `FlashDispatch.BuildKernelName` | crates/atomr-accel-flashattn/src/dispatch.rs:256-288 | Pushing the suffixes one by one builds the name |
| `Cutlass.TypeNamesPrefixFree` | crates/atomr-accel-cutlass/src/dtype.rs:42-55 | No C++ spelling is a prefix of another |
| `Cutlass.ShortNamesPrefixFree` | crates/atomr-accel-cutlass/src/dtype.rs:58-71 | No short name is a prefix of another, although none is terminated in a key |
| `Evt.RenderParsesBack` | crates/atomr-accel-cutlass/src/evt.rs:78-155 | From the template string of a tree of any size a parser recovers the ops, in order, up to alpha and beta |
| `Evt.RendersEqualIff` | crates/atomr-accel-cutlass/src/evt.rs:78-155 | Two trees render alike exactly if they agree up to alpha and beta |
| `Evt.KnownLeaf` | crates/atomr-accel-cutlass/src/evt.rs:150 | The text of the empty tree |
| `Evt.LinearText` | crates/atomr-accel-cutlass/src/evt.rs:80-82 | The template text of a linear combination, around any nested text |
| `Evt.ReluText` | crates/atomr-accel-cutlass/src/evt.rs:90-92 | That of ReLu |
| `Evt.GeluText` | crates/atomr-accel-cutlass/src/evt.rs:93-95 | That of GELU |
| `Evt.SiluText` | crates/atomr-accel-cutlass/src/evt.rs:96-98 | That of SiLu |
| `Evt.TanhText` | crates/atomr-accel-cutlass/src/evt.rs:99-101 | That of Tanh |
| `Evt.PerChannelText` | crates/atomr-accel-cutlass/src/evt.rs:102-108 | That of quantizing per channel, with the C++ spelling of the element type written out |
| `Evt.PerTensorText` | crates/atomr-accel-cutlass/src/evt.rs:102-108 | And per tensor |
| `Evt.BiasText` | crates/atomr-accel-cutlass/src/evt.rs:83-89 | That of a bias, with the C++ spelling of its element type written out |
| `Evt.ResidualText` | crates/atomr-accel-cutlass/src/evt.rs:109-112 | That of a residual |
| `Evt.ReductionTexts` | crates/atomr-accel-cutlass/src/evt.rs:113-121 | Those of the four reductions |
| `Evt.ReadOpBack` | crates/atomr-accel-cutlass/src/evt.rs:78-123 | One op is read off the outside of any nested text |
| `Evt.UnfoldFold` | crates/atomr-accel-cutlass/src/evt.rs:149-155 | If every op is read back off the outside, whole folds are read back |
| `Evt.RenderTree` | crates/atomr-accel-cutlass/src/evt.rs:149-155 | The render loop is that fold |
| `Evt.IdStreamInjective` | crates/atomr-accel-cutlass/src/evt.rs:159-183 | The bytes fed to `id` determine the ops up to the `per_channel` flag |
| `Evt.IdStreamsEqualIff` | crates/atomr-accel-cutlass/src/evt.rs:159-183 | And exactly up to it |
| `Evt.KnownIdNames` | crates/atomr-accel-cutlass/src/evt.rs:159-183 | The bytes hashed for each op |
| `Evt.KnownIdReductions` | crates/atomr-accel-cutlass/src/evt.rs:174 | And for each reduction |
| `Evt.SameIdSameRenderIff` | crates/atomr-accel-cutlass/src/evt.rs:147-183 | Trees with equal id bytes render alike exactly if their quantize ops agree on that flag |
| `Evt.QuantizeScopeClashes` | crates/atomr-accel-cutlass/src/evt.rs:169-173 | For every element type the two quantize scopes share an id but not a template |
| `Evt.FeedId` | crates/atomr-accel-cutlass/src/evt.rs:159-183 | The hashing loop feeds exactly that stream |
| `PlanKey.GemmStreamInjective` | crates/atomr-accel-cutlass/src/plan_cache.rs:51-87 | The bytes fed to any one lane determine the GEMM request, despite unterminated strings and sm_90 being a prefix of sm_90a |
| `PlanKey.ConvStreamInjective` | crates/atomr-accel-cutlass/src/plan_cache.rs:140-172 | The same for convolutions |
| `PlanKey.KeyClashNeedsThreeCollisions` | crates/atomr-accel-cutlass/src/plan_cache.rs:51-221 | Different requests share a key exactly if they are of one kind and the hash collides on them in all three lanes at once |
| `PlanKey.KnownGemm` | crates/atomr-accel-cutlass/src/plan_cache.rs:63-82 | The calls for one GEMM request, spelt out |
| `PlanKey.KnownConv` | crates/atomr-accel-cutlass/src/plan_cache.rs:146-167 | The calls for one convolution, spelt out |
| `PlanKey.KnownKey` | crates/atomr-accel-cutlass/src/plan_cache.rs:51-221 | Template ids 1 and 3, and which lane yields which part of the key |
| `PlanKey.KnownSeeds` | crates/atomr-accel-cutlass/src/plan_cache.rs:189-192 | The bytes each lane starts with |
| `PlanKey.KnownBytes` | crates/atomr-accel-cutlass/src/plan_cache.rs:196-215 | Single bytes and strings as each lane sees them |
| `PlanKey.KnownWordsA` | crates/atomr-accel-cutlass/src/plan_cache.rs:203-208 | A word as lane A sees it |
| `PlanKey.KnownWordsB` | crates/atomr-accel-cutlass/src/plan_cache.rs:203-208 | As lane B sees it |
| `PlanKey.KnownWordsC` | crates/atomr-accel-cutlass/src/plan_cache.rs:203-208 | As lane C sees it |
| `PlanKey.LaneU8Injective` | crates/atomr-accel-cutlass/src/plan_cache.rs:196-201 | The byte offset of a lane loses nothing |
| `PlanKey.LaneU32Injective` | crates/atomr-accel-cutlass/src/plan_cache.rs:203-208 | The rotation of a lane loses nothing |
| `PlanKey.ArchPeel` | crates/atomr-accel-cutlass/src/plan_cache.rs:72-73 | sm_90 against sm_90a is decided by the byte that follows, in every lane |
| `PlanKey.EpiloguePeel` | crates/atomr-accel-cutlass/src/plan_cache.rs:74-82 | "linear" against its extensions is decided by the fixed length of what follows |
| `PlanKey.FrontPeel` | crates/atomr-accel-cutlass/src/plan_cache.rs:63-71 | A run of unambiguous calls is determined by its bytes whatever follows |
| `PlanKey.Hasher.constructor` | crates/atomr-accel-cutlass/src/plan_cache.rs:185-194 | Three lanes with their seeds |
| `PlanKey.Hasher.AddU8` | crates/atomr-accel-cutlass/src/plan_cache.rs:196-201 | One call more, in all lanes |
| `PlanKey.Hasher.AddU32` | crates/atomr-accel-cutlass/src/plan_cache.rs:203-208 | One call more, in all lanes |
| `PlanKey.Hasher.AddStr` | crates/atomr-accel-cutlass/src/plan_cache.rs:210-215 | One call more, in all lanes |
| `PlanKey.Hasher.Finish` | crates/atomr-accel-cutlass/src/plan_cache.rs:217-220 | The three hashes of the recorded streams |
| `PlanKey.GemmKey` | crates/atomr-accel-cutlass/src/plan_cache.rs:51-87 | The key of a GEMM request |
| `PlanKey.ConvKey` | crates/atomr-accel-cutlass/src/plan_cache.rs:140-172 | The key of a convolution request |
| `CutlassActor.PlansAreFaithful` | crates/atomr-accel-cutlass/src/actor.rs:141-160 | On every run, the plan found under a request's key is the render of that request, unless another submitted request of its kind collides with it in all three lanes; right after the request a plan is found |
| `CutlassActor.ServesOwnPlanIff` | crates/atomr-accel-cutlass/src/actor.rs:144-159 | The condition on keys is exact: the second of two requests is served its own render if and only if the keys differ or the renders agree |
| `CutlassActor.RunSound` | crates/atomr-accel-cutlass/src/actor.rs:141-203 | On every run each binding is the render of a submitted request with that key; the counter counts the messages |
| `CutlassActor.StepSound` | crates/atomr-accel-cutlass/src/actor.rs:141-203 | One message keeps that |
| `CutlassActor.SubmitBinds` | crates/atomr-accel-cutlass/src/actor.rs:144-159 | After a submit its key is bound, to the plan found or to the new render |
| `CutlassActor.RepeatIsFree` | crates/atomr-accel-cutlass/src/actor.rs:146-159 | Repeating a request renders nothing, compiles nothing and changes no binding |
| `CutlassActor.SendsExactlyForgotten` | crates/atomr-accel-cutlass/src/actor.rs:141-203 | On every run a request is rendered and sent exactly if its key was never used or as many other keys as the cache has room for were used since; `Refit` succeeds exactly in the other case and sends nothing |
| `CutlassActor.HoldsMostRecent` | crates/atomr-accel-cutlass/src/plan_cache.rs:244-283 | On every run a key is bound if and only if it was used and fewer other keys than the cache has room for were used since |
| `CutlassActor.RecentIsKept` | crates/atomr-accel-cutlass/src/plan_cache.rs:274-283 | The harder half of it |
| `CutlassActor.LeavesOnlyWhenFull` | crates/atomr-accel-cutlass/src/plan_cache.rs:278-283 | A binding leaves only as the oldest of a full cache, for a new key |
| `CutlassActor.SortedByTouch` | crates/atomr-accel-cutlass/src/plan_cache.rs:274-283 | The entries are sorted by last use |
| `CutlassActor.SeparatedKeys` | crates/atomr-accel-cutlass/src/plan_cache.rs:31-38 | Different kinds, or one lane without a collision, is exactly what separates two keys |
| `CutlassActor.GetKeeps` | crates/atomr-accel-cutlass/src/plan_cache.rs:274-276 | A lookup changes no binding |
| `CutlassActor.PutBinds` | crates/atomr-accel-cutlass/src/plan_cache.rs:278-283 | An insert binds its key; of the other bindings it removes exactly the oldest one of a full cache, and only for a new key |
| `CutlassActor.PlanCache.constructor` | crates/atomr-accel-cutlass/src/plan_cache.rs:254-260 | Capacity at least one |
| `CutlassActor.PlanCache.Get` | crates/atomr-accel-cutlass/src/plan_cache.rs:274-276 | LRU lookup |
| `CutlassActor.PlanCache.Insert` | crates/atomr-accel-cutlass/src/plan_cache.rs:278-283 | LRU insert |
| `CutlassActor.CutlassActor.constructor` | crates/atomr-accel-cutlass/src/actor.rs:97-122 | A fresh actor |
| `CutlassActor.CutlassActor.Handle` | crates/atomr-accel-cutlass/src/actor.rs:141-204 | The lookup, render, compile and insert path for GEMM and convolution, and `Refit` |
| `CutlassActor.CutlassActor.MakeKey` | crates/atomr-accel-cutlass/src/actor.rs:145-178 | The key of a request of either kind |
| `ReplicaPool.PicksInTurnIff` | crates/atomr-accel-patterns/src/replica_pool.rs:76-118 | From a fresh pool of n replicas the requests go round in turns, t-th to t mod n, exactly as long as: by turns, t < 2^64 or n divides 2^64; by load, n = 1 or t <= n * (2^32 - 1) |
| `ReplicaPool.PicksInTurn` | crates/atomr-accel-patterns/src/replica_pool.rs:76-118 | Within that limit the t-th request goes to replica t mod n |
| `ReplicaPool.LeastLoadedPick` | crates/atomr-accel-patterns/src/replica_pool.rs:88-98 | Where the t-th request goes by load, for every t: t mod n up to the limit, the first replica ever after |
| `ReplicaPool.RoundRobinPick` | crates/atomr-accel-patterns/src/replica_pool.rs:82-87 | Where the t-th request goes by turns, for every t |
| `ReplicaPool.LoadsEvenIff` | crates/atomr-accel-patterns/src/replica_pool.rs:76-118 | Under either policy the loads never differ by more than one exactly as long as n = 1, or t <= n * (2^32 - 1) and the cursor has not wrapped in the middle of a round; for n <= 2^32 the counters alone decide |
| `ReplicaPool.PoliciesAgree` | crates/atomr-accel-patterns/src/replica_pool.rs:81-100 | The policies route identically within both limits; for n <= 2^32, exactly up to t = n * (2^32 - 1) or with n = 1 |
| `ReplicaPool.DealtRun` | crates/atomr-accel-patterns/src/replica_pool.rs:76-118 | After t requests dealt in turns replica i has t / n, plus one if i < t mod n |
| `ReplicaPool.LeastIsNextInTurn` | crates/atomr-accel-patterns/src/replica_pool.rs:88-98 | On such loads the first least loaded replica is the next in turn |
| `ReplicaPool.LeastOf` | crates/atomr-accel-patterns/src/replica_pool.rs:88-98 | The first index of a minimal counter |
| `ReplicaPool.CountersFillUp` | crates/atomr-accel-patterns/src/replica_pool.rs:117 | After n * (2^32 - 1) requests every counter is at its maximum |
| `ReplicaPool.StuckOnFirst` | crates/atomr-accel-patterns/src/replica_pool.rs:89-117 | From then on routing by load sends every request to the first replica, forever |
| `ReplicaPool.WrappedCounterAttracts` | crates/atomr-accel-patterns/src/replica_pool.rs:89-117 | Why: with all other counters at their maximum the first is picked, and that stays so when it wraps |
| `ReplicaPool.LeastLoadedKeepsSpread` | crates/atomr-accel-patterns/src/replica_pool.rs:88-117 | From any loads, routing by load keeps every spread of at least one exactly if some counter has room (or the spread is the whole range, or n = 1); equal loads come to differ by one |
| `ReplicaPool.ModelReplicaPool.constructor` | crates/atomr-accel-patterns/src/replica_pool.rs:64-74 | A fresh pool |
| `ReplicaPool.ModelReplicaPool.PickReplica` | crates/atomr-accel-patterns/src/replica_pool.rs:76-101 | The cursor step or the scan with running minimum |
| `ReplicaPool.ModelReplicaPool.DoSubmit` | crates/atomr-accel-patterns/src/replica_pool.rs:110-119 | An empty pool refuses; otherwise one counter grows and the request is forwarded there |
| `SharedState.RefinesTicketLock` | crates/atomr-accel-agents/src/shared_state.rs:74-104 | On every run counter, holder, queue and replies are those of a ticket lock; the k-th acquire receives exactly `WriteToken(k)` |
| `SharedState.TokensInOrder` | crates/atomr-accel-agents/src/shared_state.rs:74-104 | Tokens 1, 2, 3, ... first come first served; at most one is current; agents wait only while one is held |
| `SharedState.StaleReleaseIsIgnored` | crates/atomr-accel-agents/src/shared_state.rs:95-103 | A stale or repeated release changes nothing, however many messages later |
| `SharedState.ReleaseHandsOver` | crates/atomr-accel-agents/src/shared_state.rs:97-101 | Releasing the current token grants the next to the longest-waiting agent at once |
| `SharedState.StepRefines` | crates/atomr-accel-agents/src/shared_state.rs:86-104 | One message is one step of the lock |
| `SharedState.SharedGpuStateCoordinator.constructor` | crates/atomr-accel-agents/src/shared_state.rs:65-72 | Nothing issued, nobody waiting |
| `SharedState.SharedGpuStateCoordinator.IssueToken` | crates/atomr-accel-agents/src/shared_state.rs:74-79 | The next token goes to the given agent |
| `SharedState.SharedGpuStateCoordinator.AcquireWrite` | crates/atomr-accel-agents/src/shared_state.rs:88-94 | Grant or queue |
| `SharedState.SharedGpuStateCoordinator.ReleaseWrite` | crates/atomr-accel-agents/src/shared_state.rs:95-104 | Hand over, free or ignore |
| `SpatialIndex.SpatialIndexActor.QueryNeighbors` | crates/atomr-accel-cuda-realtime/src/spatial_index.rs:103-121 | As a multiset the result is the brute-force filter: the ids of all points whose cell is in the 3 x 3 x 3 block; in terms of the configured cell size, it has every point within it per axis, and away from the rim only points within twice that (for sizes from 1e-6 on) |
| `SpatialIndex.QueryIsComplete` | crates/atomr-accel-cuda-realtime/src/spatial_index.rs:77-121 | It contains every point within one cell size per axis, also where the cast to 32 bits saturates and where neighbour coordinates wrap |
| `SpatialIndex.QueryIsLocalIff` | crates/atomr-accel-cuda-realtime/src/spatial_index.rs:77-121 | It contains only points less than two cell sizes away per axis if and only if the query is not within two cells of the rim of the 32-bit key space |
| `SpatialIndex.AnswersForSize` | crates/atomr-accel-cuda-realtime/src/spatial_index.rs:77-121 | Both with the cell size as configured, below 1e-6 as well for the first |
| `SpatialIndex.CoordIsFloor` | crates/atomr-accel-cuda-realtime/src/spatial_index.rs:77-84 | Short of the 32-bit limits, coordinate c covers exactly the values from c to c + 1 cell sizes |
| `SpatialIndex.AllListed` | crates/atomr-accel-cuda-realtime/src/spatial_index.rs:103-121 | If every cell is listed the filter returns every point once, in order |
| `SpatialIndex.GatherIsBruteForce` | crates/atomr-accel-cuda-realtime/src/spatial_index.rs:103-121 | Collecting buckets and filtering all points agree, with multiplicities |
| `SpatialIndex.BlockDistinct` | crates/atomr-accel-cuda-realtime/src/spatial_index.rs:106-114 | The 27 cells are different, also where coordinates wrap |
| `SpatialIndex.BlockIsNeighbourhood` | crates/atomr-accel-cuda-realtime/src/spatial_index.rs:106-114 | The block has every cell that differs by at most one per axis, and away from the rim of the 32-bit key space no other |
| `SpatialIndex.CloseAndNear` | crates/atomr-accel-cuda-realtime/src/spatial_index.rs:77-84 | Within one cell size the cells are near, saturated or not; cells near an unsaturated one are less than two cell sizes apart |
| `SpatialIndex.Away` | crates/atomr-accel-cuda-realtime/src/spatial_index.rs:77-84 | At the rim, a point three cell sizes further out still falls in a near cell |
| `SpatialIndex.BruteForceMember` | crates/atomr-accel-cuda-realtime/src/spatial_index.rs:103-121 | An id is in the filter's result exactly if some point with that id lies in a listed cell |
| `SpatialIndex.SpatialIndexActor.constructor` | crates/atomr-accel-cuda-realtime/src/spatial_index.rs:68-75 | The empty index |
| `SpatialIndex.SpatialIndexActor.Rebuild` | crates/atomr-accel-cuda-realtime/src/spatial_index.rs:93-102 | The table is that of the new points alone, and their number is returned |
| `SpatialIndex.SpatialIndexActor.AddPoint` | crates/atomr-accel-cuda-realtime/src/spatial_index.rs:96-100 | One point more |
| `SpatialIndex.SpatialIndexActor.Visit` | crates/atomr-accel-cuda-realtime/src/spatial_index.rs:114-116 | A cell's bucket, or nothing, is appended |
| `SpatialIndex.SpatialIndexActor.VisitRow` | crates/atomr-accel-cuda-realtime/src/spatial_index.rs:108-117 | The loop over dx appends the three buckets of its row |
| `SpatialIndex.SpatialIndexActor.VisitLayer` | crates/atomr-accel-cuda-realtime/src/spatial_index.rs:107-118 | The loop over dy appends the nine buckets of its layer |
| `SpatialIndex.SpatialIndexActor.VisitBlock` | crates/atomr-accel-cuda-realtime/src/spatial_index.rs:106-119 | The loop over dz appends the 27 buckets of the block |

## Left out

- Rounding: virtual times, coordinates and cell sizes are exact reals, so NaN, infinities and lost increments at large
  virtual times are not modelled; alpha and beta are bit patterns.
- Tokio, real clocks and oneshot channels: replaced by message sequences, a logical clock and logs of replies; a caller
  that drops its receiver is not modelled. That a dispatched request sends its own `Finished` is not modelled either:
  the results say what follows from the `Finished` messages that do arrive.
- FairShare.NoStarvation: bounds the `Finished` messages handled while a head waits; that such messages keep arriving is up to the dispatcher.
- NvrtcCache.CrashAtomic: a rename is taken to be atomic, and durable once the insert has returned; the code does not sync the directory, so a later crash may in fact undo it. Writers of one key at the same time share a temporary path and are not modelled, nor are other processes changing the directory, a lookup between an insert's rename and its memory update, lock poisoning, or serializer errors.
- Neighbour cell coordinates and replica counters wrap as in a release build; a debug build panics there.
- CutlassActor.PlansAreFaithful: needs that no other submitted request of the same kind collides in all three lanes; SipHash itself is not modelled.
- Overflow of 64-bit and `usize` counters, and of the `u32` counters of the decode statistics; only the replica counters and the turn cursor are modelled with their width.
- The standard library's hasher, bincode and the source renderers: parameters.
- Grouped-GEMM keys: they summarise the shape list and drop alpha and beta, so they are not injective by design.
- Backward kernel naming (`kernel_name` always says `fwd`) and `stable_hash`.
- Errors of the compile sink, kernel handles and the weights of `Refit`; `Refit` is modelled as the lookup it performs.
- `Stats`, `Snapshot` and `AttachState` messages, sizes and accessors: single reads or writes (the cache's `Stats` is modelled).
- The EVT builder: pushes to a vector.
- GPU kernels, CUDA, NVRTC and TensorRT bindings, CUB emitters, floating-point simulation and similarity kernels, build
  scripts, Python bindings, supervisor routing, hot swap, cascades and telemetry.
