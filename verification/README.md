# DualMap: a verified model of routing, caching and rebalancing

DualMap routes LLM requests to replicas. This project models four of its stateful parts in Dafny
and proves what they promise, over every input, every reachable state and every run:

- **The prefix KV-block cache** (`Recency`, `HashChain`, `KvCache`). Prompts are saved as chained
  block hashes; an allocator, a hash index and an LRU list change together, and evictions of 81
  blocks run in the middle of a save. `Recency` says on values what a save does and carries the
  capacity theorems; the classes of `KvCache` are proved to compute exactly that.
- **The DualMap scheduler** (`Requests`, `Heapq`, `RequestQueue`, `Discards`, `GlobalQueue`, `Latency`,
  `Rebalance`, `Rounds`, `RebalanceGains`, `Replicas`, `Dispatch`, `Selection`, `Passes`, `Scheduler`, `Runs`,
  `Charges`, `Strands`, `Completion`, `CleanRuns`, `Overload`, `Arrivals`, `Stamps`, `StampBounds`, `StampRuns`,
  `StaleStamp`, `Silence`). Binary heaps
  with running token counters, a greedy migration loop, replica budgets and the request life cycle
  queued, posted, pending, running, done. `Dispatch` is the state machine, `Runs` reasons about its
  runs, and the class in `Scheduler` is proved to take the steps of `Dispatch`. What its choices come to
  (which request migrates and where, which replica is primary, what a pass takes) is said without its
  functions in `Rounds`, `Selection` and `Passes`.
- **The radix tree of prompts** (`RadixTree`, `RadixCounts`, `RadixCache`, `Preble`) with the
  **sliding-window histogram** above it (`WindowLog`, `Histogram`, `Drift`, `DriftCase`). Reference counts, pinning and
  sizes per GPU are class invariants that hold through splits, releases and evictions.
- **The lazy prefix table** (`PrefixTable`, `LazyTable`), an implicit trie that decides how many
  leading blocks form a routing key.

Check it with `dafny verify dfyconfig.toml --resource-limit 2000000 --verification-time-limit 0
--warn-contradictory-assumptions`.

## Where the code does not do the obvious

These are proved, each with the exact condition or a concrete case:

- A save is kept whole for certain up to N - w - 79 blocks and no further (`SafeBoundExact`,
  `PromptBoundExact`), and so is a set of prompts saved one after the other (`WorkingSetExact`); a longer prompt is found whole or not at all, because its first blocks are
  evicted first (`AllOrNothing`).
- With fewer than 100 blocks the watermark is 0, nothing is ever evicted, and a save raises exactly
  when it meets more new hashes than free blocks (`FullExactly`).
- `_primary_replica` is written after the rebalances of an arrival and can overwrite the stamp of a
  newcomer they moved. `StampExact` says when, `StampKept` and `StampLost` bound it without following
  the migration loop, and `StampGoesStale` is a run where it happens. Posting goes by the stamp; in a run
  in which no arrival moves on every request is posted to the replica in whose queue it waited (`RunPosted`).
- A stream that ends without content leaves its request pending for good, and nothing else does
  (`PendingExactly`). Requests are dispatched once, conserved and charged right all the same (`RunCore`,
  `Conserved`). Without such streams no run strands work (`RunSafe`) and every request finishes once
  arrivals stop (`AllFinish`); with them, `ScheduleStrands` says exactly when work is stranded, and
  `SilentStrands` and `DeadForever` show a system that never dispatches again.
- `discard_expired` filters the heap list without rebuilding it. `DiscardBreaksHeap` is a case where the
  list is no heap afterwards, and `DiscardExact` says which positions may be dropped from every heap.
- A migration compares a rounded time with an unrounded one, so a request can be moved for nothing
  (`DrawMoves`); it is never moved to a longer wait (`MigrationHelps`, `CostSign`).
- The predicted wait of a request already queued can be below the real one but never above it, with
  the exact condition in `PredictedExact`; a migration helps nevertheless.
- Failed Preble requests never give their references back (`FinishRequest`).
- `sum_share_tokens_for_node_maps` drifts when a leaf is split between arrival and expiry
  (`ShareExactSplit`, `ShareDrifts`).
- `mark_shrink` after a stopped lookup deletes an entry the lookup has just found missing, so it
  can undo only the same call's expansion (`Process`).

## Model

| member | source | states |
|---|---|---|
| `KvCache.PrefixLRUCache.Query` | dualmap/cache_manager/kvcache_store/prefix_kvcache_lru.py:10-16 | The stored value, or -1 for an absent key. |
| `KvCache.PrefixLRUCache.Get` | dualmap/cache_manager/kvcache_store/prefix_kvcache_lru.py:18-24 | Like a query, and a present key moves to the newest end; the dictionary is unchanged. |
| `KvCache.PrefixLRUCache.Put` | dualmap/cache_manager/kvcache_store/prefix_kvcache_lru.py:26-37 | KeyError exactly for a new key on a full cache, with dictionary and order as before; otherwise the key is newest. |
| `KvCache.PrefixLRUCache.Pop` | dualmap/cache_manager/kvcache_store/prefix_kvcache_lru.py:39-43 | The oldest pair goes, or None from an empty cache. |
| `KvCache.PrefixKVCacheMgr.constructor` | dualmap/cache_manager/kvcache_store/prefix_kvcache_mgr.py:12-21 | All ids free, nothing cached, watermark 1% of the blocks. |
| `KvCache.PrefixKVCacheMgr.FreeBlock` | dualmap/cache_manager/kvcache_store/prefix_kvcache_mgr.py:118-127 | A recorded hash is forgotten and its id goes into the free set; when the hash owned a block, ids and hashes still agree. |
| `KvCache.PrefixKVCacheMgr.EvictOldest` | dualmap/cache_manager/kvcache_store/prefix_kvcache_mgr.py:144-151 | One round of the eviction loop drops exactly the oldest entry and always succeeds. |
| `KvCache.PrefixKVCacheMgr.Evict` | dualmap/cache_manager/kvcache_store/prefix_kvcache_mgr.py:141-152 | The loop ends having dropped exactly the n + 1 oldest entries, blocks and ids still agreeing. |
| `KvCache.PrefixKVCacheMgr.CheckAndReclaimCache` | dualmap/cache_manager/kvcache_store/prefix_kvcache_mgr.py:154-158 | Below the watermark the 81 oldest go, otherwise nothing; the reclaim counter rises exactly then. |
| `KvCache.PrefixKVCacheMgr.AllocateNewBlockId` | dualmap/cache_manager/kvcache_store/prefix_kvcache_mgr.py:129-136 | A formerly free id, or -1 exactly when the pool is exhausted after the check. |
| `KvCache.PrefixKVCacheMgr.AllocateBlock` | dualmap/cache_manager/kvcache_store/prefix_kvcache_mgr.py:104-115 | A hash that is not recorded after the check owns a block of its own, or is recorded with id -1 exactly when the pool is exhausted. One that is still held loses its record and the new id is lost with it; one recorded with id -1 is forgotten and -1 joins the free set. |
| `KvCache.PrefixKVCacheMgr.SaveNewBlock` | dualmap/cache_manager/kvcache_store/prefix_kvcache_mgr.py:66-72 | The branch for an unrecorded hash: allocation and LRU entry, or the KeyError of a full cache. |
| `KvCache.PrefixKVCacheMgr.Save` | dualmap/cache_manager/kvcache_store/prefix_kvcache_mgr.py:53-75 | A save does to blocks, ids and LRU list exactly what the value-level `TouchAll` says, counts the new blocks, and raises exactly when `TouchAll` does; free ids, owned ids and LRU keys agree afterwards. |
| `KvCache.PrefixKVCacheMgr.GetNumCachedBlocks` | dualmap/cache_manager/kvcache_store/prefix_kvcache_mgr.py:23-42 | The number of leading chained hashes that are held, read without changing anything. |
| `KvCache.PrefixKVCacheMgr.GetNumRecomputeTokenIds` | dualmap/entities/replica.py:31-43 | The tokens a prefill would compute: the prompt's less those of its k leading held blocks, k being the number of block-aligned prefixes held, or all of them when that leaves none or takes none off. |
| `KvCache.Partition` | dualmap/cache_manager/kvcache_store/prefix_kvcache_mgr.py:129-139 | Free ids and ids of held hashes partition 0..N-1: no block id is lost or owned twice. |
| `Recency.TouchAllKeepsGood` | dualmap/cache_manager/kvcache_store/prefix_kvcache_mgr.py:53-75 | Every save, completed or failed, keeps LRU keys distinct and the held count within N, and within N - w + 1 from 100 blocks on. |
| `Recency.NeverFull` | dualmap/cache_manager/kvcache_store/prefix_kvcache_mgr.py:154-158 | From 100 blocks on no save raises, from every reachable store. |
| `Recency.FullExactly` | dualmap/cache_manager/kvcache_store/prefix_kvcache_lru.py:33-35 | A save raises exactly on a pool of fewer than 100 blocks that meets more new hashes than it has free blocks. |
| `Recency.SaveThenLookup` | dualmap/cache_manager/kvcache_store/prefix_kvcache_mgr.py:53-75 | A save of at most N - w - 79 distinct hashes is found whole by the next query, from every state and through every eviction inside the save. |
| `Recency.SafeBoundExact` | dualmap/cache_manager/kvcache_store/prefix_kvcache_mgr.py:141-158 | N - w - 79 is exactly the largest length that is always found again: one block more fails from some state. |
| `Recency.LostSave` | dualmap/cache_manager/kvcache_store/prefix_kvcache_mgr.py:141-158 | The failing family: a pool holding 80 other blocks, and where a longer save ends up. |
| `Recency.AllOrNothing` | dualmap/cache_manager/kvcache_store/prefix_kvcache_mgr.py:141-158 | Right after a completed save of distinct blocks a query finds all of them or none, all exactly when the pool holds that many. |
| `Recency.SizeByMisses` | dualmap/cache_manager/kvcache_store/prefix_kvcache_mgr.py:129-158 | The held count after a save depends on the number of misses alone. |
| `Recency.Amortised` | dualmap/cache_manager/kvcache_store/prefix_kvcache_mgr.py:129-158 | Blocks allocated minus 81 per reclaim is the held count, at most N - w + 1. |
| `Recency.BatchStep` | dualmap/cache_manager/kvcache_store/prefix_kvcache_mgr.py:154-158 | An allocation adds one reclaim exactly past the watermark, and the 80 allocations after one that reclaims do not. |
| `Recency.OnlyTouched` | dualmap/cache_manager/kvcache_store/prefix_kvcache_mgr.py:53-75 | Nothing is held that was neither held before nor just saved. |
| `HashChain.ChainLengthDiv` | dualmap/cache_manager/kvcache_store/prefix_kvcache_mgr.py:28-32 | There is one chained hash per full block. |
| `HashChain.SameHash` | dualmap/cache_manager/kvcache_store/prefix_kvcache_mgr.py:61-63 | With an injective hash, equal chained hashes mean equal positions and equal prefixes. |
| `HashChain.RunGood` | dualmap/cache_manager/kvcache_store/prefix_kvcache_mgr.py:53-75 | Every store reached by any run of saves, failed ones included, meets the store invariant. |
| `HashChain.LookupLargest` | dualmap/cache_manager/kvcache_store/prefix_kvcache_mgr.py:23-42 | The query result is the largest k for which every block-aligned prefix of 1..k blocks is held, and the only such k. |
| `HashChain.RecomputeIs` | dualmap/entities/replica.py:31-43 | The prefill length is the prompt's less k * block size when 0 < k * block size < length, and else the prompt's, for the one k for which every prefix of 1..k blocks is held and that of k + 1 is not. |
| `HashChain.LookupSound` | dualmap/cache_manager/kvcache_store/prefix_kvcache_mgr.py:23-42 | After any run of saves the tokens reported as cached are a prefix of one saved prompt. |
| `HashChain.RecomputeRange` | dualmap/entities/replica.py:38-43 | The prefill length is in 1..len, and below len exactly when the first block but not the whole prompt is held. |
| `HashChain.SavedPromptFound` | dualmap/cache_manager/kvcache_store/prefix_kvcache_mgr.py:53-75 | Saving a prompt of at most N - w - 79 full blocks after any run makes the next query report all its blocks. |
| `HashChain.PromptBoundExact` | dualmap/cache_manager/kvcache_store/prefix_kvcache_mgr.py:141-158 | N - w - 79 blocks is exactly the longest prompt that is always found again, for every injective hash and block size. |
| `HashChain.WorkingSetFound` | dualmap/cache_manager/kvcache_store/prefix_kvcache_mgr.py:53-75 | Prompts whose blocks have at most N - w - 79 distinct hashes together are all found whole after all of them have been saved, whatever was saved before. |
| `HashChain.WorkingSetExact` | dualmap/cache_manager/kvcache_store/prefix_kvcache_mgr.py:141-158 | N - w - 79 is exactly the largest number of distinct hashes for which that always holds. |
| `HashChain.SavedPromptAllOrNothing` | dualmap/cache_manager/kvcache_store/prefix_kvcache_mgr.py:53-75 | A prompt of any length just saved is found whole or not at all. |
| `Heapq.PushHeap` | dualmap/scheduler/utils/double_hash_global_scheduler_utils.py:72-76 | Pushing keeps the heap order. |
| `Heapq.PopHeap` | dualmap/scheduler/utils/double_hash_global_scheduler_utils.py:78-85 | Popping keeps the heap order. |
| `Heapq.HeapifyHeap` | dualmap/scheduler/utils/double_hash_global_scheduler_utils.py:116-128 | Rebuilding after a deletion gives a heap of the same entries. |
| `Heapq.RootLeast` | dualmap/scheduler/utils/double_hash_global_scheduler_utils.py:87-90 | The entry at the front is a least one. |
| `RequestQueue.PushKeeps` | dualmap/scheduler/utils/double_hash_global_scheduler_utils.py:72-76 | A push keeps every list a heap and both counters equal to a recount. |
| `RequestQueue.PoppedKeeps` | dualmap/scheduler/utils/double_hash_global_scheduler_utils.py:78-85 | So does a pop. |
| `RequestQueue.DelReqKeeps` | dualmap/scheduler/utils/double_hash_global_scheduler_utils.py:116-128 | So does a deletion. |
| `RequestQueue.PoppedManyKeeps` | dualmap/scheduler/utils/double_hash_global_scheduler_utils.py:130-149 | So does any number of pops of a pass. |
| `RequestQueue.DrainSorted` | dualmap/scheduler/utils/double_hash_global_scheduler_utils.py:139 | Repeated pops come in priority order. |
| `Passes.ServedInOrder` | dualmap/scheduler/utils/double_hash_global_scheduler_utils.py:72-85 | Of two entries the one with the larger hit length is served first, and with equal ones the one that arrived first. |
| `Passes.Pushes` | dualmap/scheduler/utils/double_hash_global_scheduler_utils.py:72-76 | A push queues the request with its hit length and its arrival, and the counters count what is left of it to compute and its whole prompt. |
| `RequestQueue.DelayIs` | dualmap/scheduler/utils/double_hash_global_scheduler_utils.py:24-30 | The maximal waiting delay is the age of the oldest entry, 0 for none. |
| `RequestQueue.TakeCountStops` | dualmap/scheduler/utils/double_hash_global_scheduler_utils.py:130-149 | A pass stops where the queue is empty, the cap is reached or the tokens taken use the budget up, and at no earlier point. |
| `RequestQueue.StopsAtOnce` | dualmap/scheduler/utils/double_hash_global_scheduler_utils.py:133-148 | There is only one such point. |
| `RequestQueue.PassMeaning` | dualmap/scheduler/utils/double_hash_global_scheduler_utils.py:130-149 | A pass takes the first k entries in priority order for that k and leaves the rest in order. |
| `RequestQueue.PredictedIsReal` | dualmap/scheduler/utils/double_hash_global_scheduler_utils.py:151-161 | The simulated wait of a request not queued is exactly what repeated pops serve ahead of it once it is pushed. |
| `RequestQueue.PredictedQueued` | dualmap/scheduler/utils/double_hash_global_scheduler_utils.py:151-161 | For a request already queued the simulation stops at the better of its two entries. |
| `RequestQueue.PredictedExact` | dualmap/scheduler/utils/double_hash_global_scheduler_utils.py:151-161 | Then it is never above the real wait, and equals it exactly when the hit length asked for would not overtake an entry with tokens that is now ahead. |
| `RequestQueue.PredictedLow` | dualmap/scheduler/utils/double_hash_global_scheduler_utils.py:151-161 | A queue of two entries as push makes them where it is below. |
| `RequestQueue.DiscardBreaksHeap` | dualmap/scheduler/utils/double_hash_global_scheduler_utils.py:98-114 | Filtering the list without a rebuild can break the heap, with entries as push makes them. |
| `RequestQueue.DiscardKeepsHeap` | dualmap/scheduler/utils/double_hash_global_scheduler_utils.py:98-114 | It keeps the heap when the expired entries are the last of the list, or the list is in service order. |
| `RequestQueue.ExpiredIs` | dualmap/scheduler/utils/double_hash_global_scheduler_utils.py:98-114 | Exactly the entries older than the threshold expire, and no entry is lost. |
| `Discards.DiscardExact` | dualmap/scheduler/utils/double_hash_global_scheduler_utils.py:98-114 | Which positions may expire: the list stays a heap, from every heap of real entries, exactly when each survivor moves below one it was below before. |
| `GlobalQueue.GlobalRequestQueue.Push` | dualmap/scheduler/utils/double_hash_global_scheduler_utils.py:72-76 | The lists and counters become those of the value-level push. |
| `GlobalQueue.GlobalRequestQueue.Pop` | dualmap/scheduler/utils/double_hash_global_scheduler_utils.py:78-85 | The first request in priority order, or None; lists and counters follow. |
| `GlobalQueue.GlobalRequestQueue.DelReq` | dualmap/scheduler/utils/double_hash_global_scheduler_utils.py:116-128 | Deletes the first entry of the request in list order; False exactly when there is none. |
| `GlobalQueue.GlobalRequestQueue.PopSchedulable` | dualmap/scheduler/utils/double_hash_global_scheduler_utils.py:130-149 | The loop takes exactly what the value-level pass takes, in order. |
| `GlobalQueue.GlobalRequestQueue.GetNumGlobalActualWaitingTokens` | dualmap/scheduler/utils/double_hash_global_scheduler_utils.py:151-161 | The sum the simulation loop returns. |
| `GlobalQueue.GlobalRequestQueue.DiscardExpired` | dualmap/scheduler/utils/double_hash_global_scheduler_utils.py:98-114 | Exactly the expired requests are returned, the others stay in list order, and both counters equal a recount. |
| `Rebalance.TargetFacts` | dualmap/scheduler/utils/double_hash_global_scheduler_utils.py:471-525 | A target is a replica, is never the source (neighbour fallback included, for every n >= 1) and is not overloaded. |
| `Rebalance.MigrateShrinks` | dualmap/scheduler/utils/double_hash_global_scheduler_utils.py:574-576 | Each round takes one request off the source, so the loop ends. |
| `Rebalance.MigrateKeeps` | dualmap/scheduler/utils/double_hash_global_scheduler_utils.py:568-581 | One round keeps the loop invariant: the snapshot of waiting tokens is the live counter everywhere but at the source. |
| `Rebalance.RebalanceSafe` | dualmap/scheduler/utils/double_hash_global_scheduler_utils.py:416-582 | The multiset of queued requests is unchanged, heaps and counters stay right, the source does not grow, and every other queue that changed ends within the threshold. |
| `Rounds.TargetIs` | dualmap/scheduler/utils/double_hash_global_scheduler_utils.py:471-525 | A request goes to the other replica of its session when that has room, else to the first replica after the source that is neither of the two, if that has room, and else nowhere. |
| `Rounds.BestCheapest` | dualmap/scheduler/utils/double_hash_global_scheduler_utils.py:552-557 | The candidate chosen is the cheapest one and the earliest of several, and none is chosen only when none has a target. |
| `Rounds.LoopRounds` | dualmap/scheduler/utils/double_hash_global_scheduler_utils.py:454-582 | The loop is a sequence of rounds in each of which the candidate that is cheapest then, and gains, moves; it ends when none gains or enough tokens have moved. |
| `Rounds.RebalancedRounds` | dualmap/scheduler/utils/double_hash_global_scheduler_utils.py:416-582 | A whole rebalance: nothing from a queue of at most one, else such rounds from a snapshot of the waiting tokens and of the age of each queue's oldest entry. |
| `Latency.CostSign` | dualmap/scheduler/utils/double_hash_global_scheduler_utils.py:467-548 | Above half a ten-thousandth of a second per token the cost is negative exactly when the target's wait is shorter, or equal and rounded down. |
| `Latency.RoundedIs` | dualmap/scheduler/utils/double_hash_global_scheduler_utils.py:535-548 | Rounding gives the nearest number, and the even one halfway. |
| `Latency.DrawMoves` | dualmap/scheduler/utils/double_hash_global_scheduler_utils.py:535-548 | At the default 0.000127 seconds per token a move between two equal waits of one token counts as a gain. |
| `RebalanceGains.MigrationHelps` | dualmap/scheduler/utils/double_hash_global_scheduler_utils.py:527-576 | Above half a ten-thousandth of a second per token a migrated request never has more tokens really ahead of its first token than before, and has fewer unless rounding breaks a draw; at any speed it loses less than half a ten-thousandth of a second. |
| `RebalanceGains.RebalanceStamps` | dualmap/scheduler/utils/double_hash_global_scheduler_utils.py:580-582 | A rebalance keeps every waiting request stamped with the replica in whose queue it waits. |
| `Stamps.StampExact` | dualmap/scheduler/utils/double_hash_global_scheduler_utils.py:389-413 | After an arrival every waiting request is stamped with its queue exactly unless both candidates are hot, the primary had a queue, and the migration loop there picks the newcomer. |
| `StampBounds.StampKept` | dualmap/scheduler/utils/double_hash_global_scheduler_utils.py:389-413 | The stamp is right whenever one candidate is not hot, the primary had no queue, there are at most two replicas, or the one replica left to go to has no room or a move there would not have a negative cost. |
| `StampBounds.StampLost` | dualmap/scheduler/utils/double_hash_global_scheduler_utils.py:389-413 | It is wrong whenever both are hot, the primary had a queue, and the newcomer is the loop's first choice. |
| `StampBounds.OnlyTarget` | dualmap/scheduler/utils/double_hash_global_scheduler_utils.py:480-525 | With the other candidate overloaded there is one replica left to migrate to, and none when there are two replicas. |
| `StampRuns.ScheduleStamps` | dualmap/scheduler/global_scheduler/double_hash_global_scheduler.py:19-37 | Through a schedule call whose newcomer does not move on right stamps stay right, and whatever it dispatches is posted to the replica in whose queue it waited. |
| `StampRuns.RunStamped` | dualmap/scheduler/global_scheduler/double_hash_global_scheduler.py:19-37 | In a run in which no arrival moves on the stamps are right in every world, through rebalances, pops and postings. |
| `StampRuns.RunPosted` | dualmap/scheduler/global_scheduler/double_hash_global_scheduler.py:30-36 | And every request a step dispatches is posted to the replica in whose queue it waited. |
| `StaleStamp.StampGoesStale` | dualmap/scheduler/utils/double_hash_global_scheduler_utils.py:406-413 | A run from the start, with a clock that does not go back and a coin that always falls the same way, whose last arrival leaves a stale stamp. |
| `Replicas.AddKeeps` | dualmap/entities/replica.py:137-161 | Adding keeps budget = SLO budget - recorded prefill tokens of the duplicate-free pending list. |
| `Replicas.PrefillKeeps` | dualmap/entities/replica.py:95-125 | So does a completed prefill. |
| `Replicas.DecodeKeeps` | dualmap/entities/replica.py:127-135 | So does a completed decode. |
| `Replicas.AbortKeeps` | dualmap/entities/replica.py:163-185 | So does an abort, whatever the request's state. |
| `Replicas.AddElsewhere` | dualmap/entities/replica.py:144-146 | Adding a request on another replica keeps this one's budget right exactly when it is not pending here or is charged the same. |
| `Replicas.PendingTokensMeaning` | dualmap/entities/replica.py:84-85 | The reported pending tokens are the recorded prefill tokens, and an idle replica has its whole budget. |
| `Replicas.Replica.AddRequest` | dualmap/entities/replica.py:137-161 | Charges what the cache would recompute now; a request already pending is refused. |
| `Replicas.Replica.GetNumActualPendingTokens` | dualmap/entities/replica.py:84-85 | Not negative, and the recorded prefill tokens of the pending list when the budget is right. |
| `Replicas.Replica.CompleteRequestPrefill` | dualmap/entities/replica.py:95-125 | Saves the prompt as the value-level save says, refunds the charge and moves the request to the running list; the latter two do not happen when the save raises. |
| `Replicas.Replica.CompleteRequestDecode` | dualmap/entities/replica.py:127-135 | Takes the request off the running list and saves prompt and output as the value-level save says, raising exactly when that does. |
| `Replicas.Replica.AbortRequest` | dualmap/entities/replica.py:163-185 | Refunds a pending request and takes it off both lists. |
| `Scheduler.DoubleHashScheduler.ChooseTarget` | dualmap/scheduler/utils/double_hash_global_scheduler_utils.py:480-525 | The target of the value-level choice, branch by branch. |
| `Scheduler.DoubleHashScheduler.ConsiderMigration` | dualmap/scheduler/utils/double_hash_global_scheduler_utils.py:458-550 | Target and cost of one waiting request. |
| `Scheduler.DoubleHashScheduler.ConsiderAll` | dualmap/scheduler/utils/double_hash_global_scheduler_utils.py:456-557 | The first of the candidates in order of cost is the value-level best one, which `BestCheapest` says is the cheapest, the earliest among equals. |
| `Scheduler.DoubleHashScheduler.MigrateTo` | dualmap/scheduler/utils/double_hash_global_scheduler_utils.py:568-582 | Deletion, push and both stamps of one migration. |
| `Scheduler.DoubleHashScheduler.Rebalance` | dualmap/scheduler/utils/double_hash_global_scheduler_utils.py:416-582 | The loop over live queues and a snapshot computes the value-level rebalance, whose rounds `RebalancedRounds` describes. |
| `Scheduler.DoubleHashScheduler.ChooseReplicas` | dualmap/scheduler/utils/double_hash_global_scheduler_utils.py:238-368 | Primary and secondary replica are those of the value-level choice, which `PrimaryIs` describes. |
| `Selection.PrimaryIs` | dualmap/scheduler/utils/double_hash_global_scheduler_utils.py:238-368 | The candidate with the larger cache hit is primary unless what waits, pends and is to be computed there exceeds the threshold; then it is the one with the shorter rounded time. Ties go to fewer running blocks and then to the coin. |
| `Selection.OneBeats` | dualmap/scheduler/utils/double_hash_global_scheduler_utils.py:298-323 | Of two different candidates exactly one comes first. |
| `Selection.ArrivalIs` | dualmap/scheduler/utils/double_hash_global_scheduler_utils.py:389-413 | An arrival joins its primary's queue with the hit it has there; when both candidates have an excess of tokens or an entry that is too old, the primary is rebalanced by its excess and then the other by its own; its stamps are written last. |
| `Scheduler.DoubleHashScheduler.AddRequestToBestGlobalQueue` | dualmap/scheduler/utils/double_hash_global_scheduler_utils.py:230-414 | Arrival as the state machine has it: push, rebalance of both candidates when both are hot, stamps last. |
| `Scheduler.DoubleHashScheduler.GetSchedulableWaitingReqList` | dualmap/scheduler/utils/double_hash_global_scheduler_utils.py:197-228 | The pass as the state machine has it, whose rebalances and pops `PassSettles` and `PassTakes` describe. |
| `Passes.PassSettles` | dualmap/scheduler/utils/double_hash_global_scheduler_utils.py:197-209 | A pass first rebalances the replicas in turn, each by its surplus of tokens, exactly when it has one or an entry that is too old. |
| `Passes.PassTakes` | dualmap/scheduler/utils/double_hash_global_scheduler_utils.py:210-228 | Then it takes, replica by replica, the first k entries in service order from every replica served, for the one k at which the budget left, the free slots or the queue end, and none from the others. |
| `Scheduler.DoubleHashScheduler.Schedule` | dualmap/scheduler/global_scheduler/double_hash_global_scheduler.py:19-37 | One call as the state machine has it; popped requests are posted to the stamped replica. |
| `Runs.AddRequestOk` | dualmap/scheduler/utils/double_hash_global_scheduler_utils.py:230-414 | An arrival adds exactly the newcomer to the queues and stamps everything with some replica. |
| `Runs.PassOk` | dualmap/scheduler/utils/double_hash_global_scheduler_utils.py:197-228 | A pass only moves entries out of the queues; if it takes none, every idle replica with budget has an empty queue. |
| `Runs.PostOk` | dualmap/scheduler/global_scheduler/double_hash_global_scheduler.py:30-36 | Every popped request is posted to a replica and none goes back to a queue. |
| `Runs.ScheduleKeeps` | dualmap/scheduler/global_scheduler/double_hash_global_scheduler.py:19-37 | A schedule call keeps all invariants, leaks nothing, and leaves no stranded work when nothing has leaked. |
| `Runs.StepKeeps` | dualmap/scheduler/utils/shared.py:88-98 | So does every step of a request's life; only a silent completion leaks, exactly its own request. |
| `Runs.RunCore` | dualmap/scheduler/global_scheduler/double_hash_global_scheduler.py:19-37 | In every world of every run, silent completions included: heaps and counters right, everything waiting stamped with a replica, each request in one place, budgets equal to the SLO budget minus the recorded prefill tokens of the pending list. |
| `Runs.PendingExactly` | dualmap/client/open_ai.py:114-118 | In every run a replica's pending list holds its pending tasks and every request whose stream ended there without content, and nothing else. |
| `Charges.PendingCharged` | dualmap/entities/replica.py:137-161 | In every run a pending request is charged with what its replica's cache left to compute of it when it was accepted there. |
| `Charges.RunBudget` | dualmap/entities/replica.py:84-85 | So budgets are the SLO budget minus the sum of those lengths, and the reported pending tokens are that sum. |
| `Runs.RunSafe` | dualmap/scheduler/global_scheduler/double_hash_global_scheduler.py:19-37 | In every run without silent completions nothing leaks, and work waits only while something is in flight whose completion reruns the pass. |
| `Strands.PopsNothing` | dualmap/scheduler/utils/double_hash_global_scheduler_utils.py:210-227 | The pops of a pass take nothing exactly when every replica with waiting requests is clogged: no budget, no free slot, or pending work and no recent prefill. |
| `Strands.ScheduleStrands` | dualmap/scheduler/global_scheduler/double_hash_global_scheduler.py:19-37 | Exactly when a schedule call with nothing in flight strands work, in any world with well-formed queues, silent completions included. |
| `Strands.StrandsByReplicas` | dualmap/scheduler/global_scheduler/double_hash_global_scheduler.py:19-37 | All replicas clogged: whatever waits is stranded. None clogged: nothing is. On one replica this is exact. |
| `Strands.RunStrands` | dualmap/scheduler/utils/shared.py:88-98 | Exactly when the last callback of a run strands work. |
| `Strands.DeadForever` | dualmap/scheduler/global_scheduler/double_hash_global_scheduler.py:19-37 | With nothing in flight and no replica with budget and a free slot, only arrivals are possible from then on and none is ever dispatched. |
| `Completion.WorkRunsOut` | dualmap/scheduler/utils/shared.py:88-98 | In any run every step that is no arrival uses up work left. |
| `Completion.Quiescent` | dualmap/scheduler/utils/shared.py:88-98 | When nothing but an arrival can happen, nothing is in flight. |
| `Completion.AllEnd` | dualmap/scheduler/utils/shared.py:88-98 | Once arrivals stop, any run ends after at most five steps per arrival; then every request that has arrived is finished or waits, and work waits exactly when it is stranded. |
| `Completion.AllFinish` | dualmap/scheduler/utils/shared.py:88-98 | Without silent completions every request that has arrived is then finished. |
| `CleanRuns.RunClean` | dualmap/scheduler/utils/double_hash_global_scheduler_utils.py:72-76 | In every world of a run with distinct arrival times, entries carry their arrival and no negative token count and each request waits once: what the theorems on waits, gains and stamps ask for. |
| `CleanRuns.RunStamp` | dualmap/scheduler/utils/double_hash_global_scheduler_utils.py:389-413 | So the exact condition for right stamps holds at every arrival of such a run. |
| `Overload.ScheduleFits` | dualmap/scheduler/utils/double_hash_global_scheduler_utils.py:197-228 | Over one schedule call, all its rebalances and pops together, every queue only loses entries or ends within the threshold; only the newcomer's own entry may exceed it. |
| `Overload.RunFits` | dualmap/scheduler/utils/double_hash_global_scheduler_utils.py:416-582 | So at every step of every run. |
| `Arrivals.LoneArrival` | dualmap/scheduler/global_scheduler/double_hash_global_scheduler.py:19-37 | An arrival at empty queues is posted at once to its primary replica when that is ready, and waits there when it is busy; hot candidates change nothing. |
| `Runs.DispatchedOnce` | dualmap/scheduler/global_scheduler/double_hash_global_scheduler.py:30-36 | A request that has left the queues is in no queue at any later point. |
| `Runs.Conserved` | dualmap/scheduler/utils/double_hash_global_scheduler_utils.py:72-85 | At every point of a run a request that has arrived is queued, in flight or finished, in exactly one of these ways. |
| `Silence.SilentStrands` | dualmap/client/open_ai.py:114-118 | A run in which a stream ends without content and the system is dead: work waits, nothing is in flight, the replica is stuck. |
| `RadixTree.Branch` | dualmap/cache_manager/global_lru_cache_preble.py:235-262 | Below a node the tree branches on the next token alone. |
| `RadixTree.SameNode` | dualmap/cache_manager/global_lru_cache_preble.py:235-262 | No two nodes have the same path. |
| `RadixTree.FindsPath` | dualmap/cache_manager/global_lru_cache_preble.py:92-103 | A lookup of a node's path finds that node. |
| `RadixTree.FindsDeepest` | dualmap/cache_manager/global_lru_cache_preble.py:92-103 | A lookup finds the deepest node whose path is a prefix of the key. |
| `RadixTree.FindsOne` | dualmap/cache_manager/global_lru_cache_preble.py:92-103 | A key has one outcome. |
| `RadixTree.SplitKeeps` | dualmap/cache_manager/global_lru_cache_preble.py:201-222 | A split keeps the tree well formed; the new node has the prefix of the old path and every old node keeps its own. |
| `RadixTree.GrowKeeps` | dualmap/cache_manager/global_lru_cache_preble.py:252-264 | So does a new leaf, whose context length is its path length. |
| `RadixCounts.SplitBooked` | dualmap/cache_manager/global_lru_cache_preble.py:210-213 | A split keeps reference counts exact and referenced nodes cached. |
| `RadixCounts.GrowBooked` | dualmap/cache_manager/global_lru_cache_preble.py:252-264 | A new leaf has no reference, and needs none. |
| `RadixCounts.SplitSize` | dualmap/cache_manager/global_lru_cache_preble.py:207-218 | A split leaves the cached size of every GPU as it is. |
| `RadixCounts.WalkStep` | dualmap/cache_manager/global_lru_cache_preble.py:267-276 | The walk up visits exactly the nodes whose path is a prefix of the prompt, each once. |
| `RadixCounts.AcquireBooked` | dualmap/cache_manager/global_lru_cache_preble.py:267-276 | Booking a request makes every count exact again and caches the whole path. |
| `RadixCounts.ReleaseBooked` | dualmap/cache_manager/global_lru_cache_preble.py:182-191 | Releasing makes every count exact again, and no lowered count was 0. |
| `RadixCounts.WithoutBooked` | dualmap/scheduler/utils/preble_global_scheduler_utils.py:146-151 | Dropping unreferenced nodes keeps counts exact and referenced nodes cached. |
| `RadixCounts.NodeLessTransitive` | dualmap/cache_manager/global_lru_cache_preble.py:41-44 | The node order is transitive. |
| `RadixCounts.NodeLessIs` | dualmap/cache_manager/global_lru_cache_preble.py:41-44 | A node comes before another exactly when it has fewer references on the first GPU on which they differ, or as many everywhere and an older access time. |
| `RadixCounts.RootLast` | dualmap/cache_manager/global_lru_cache_preble.py:79 | The root is greater than every other node in the eviction order. |
| `RadixCache.LPRadixCache.Match` | dualmap/cache_manager/global_lru_cache_preble.py:57-63 | The length of the common prefix. |
| `RadixCache.LPRadixCache.FindNode` | dualmap/cache_manager/global_lru_cache_preble.py:84-103 | The lookup outcome; the access times of exactly the nodes on the way are set, and nothing else changes. |
| `RadixCache.LPRadixCache.SplitNode` | dualmap/cache_manager/global_lru_cache_preble.py:201-222 | The value-level split, with the tree invariant kept. |
| `RadixCache.LPRadixCache.InsertHelper` | dualmap/cache_manager/global_lru_cache_preble.py:224-265 | The rest of the key becomes a path; old nodes keep paths, counts and cached sets; at most one edge is split. The access times of exactly the nodes on the way to the key, but not of a node already at it, and of the new ones are set. |
| `RadixCache.LPRadixCache.Insert` | dualmap/cache_manager/global_lru_cache_preble.py:105-127 | The node returned has the key as its path, and from then on a lookup of the key returns that very node; new nodes lie on the way to it, and the splits reported are the old nodes that have come below a new one. |
| `RadixCache.LPRadixCache.UpdateCacheMetadata` | dualmap/cache_manager/global_lru_cache_preble.py:267-276 | The state of every node afterwards, with counts exact and sizes right. |
| `RadixCache.LPRadixCache.DecNumUncompletedRequest` | dualmap/cache_manager/global_lru_cache_preble.py:182-191 | The state of every node afterwards. The assertion fails exactly when the node has no reference to give; for a booked request it holds and the books are right again. |
| `RadixCache.LPRadixCache.RemoveCompletedInputIds` | dualmap/cache_manager/global_lru_cache_preble.py:194-196 | Releases a booked request found by its prompt. For any prompt: when it raises, the access times of every node afterwards, and the counts, one less on the way up from the node it acts on, or on that node alone when it raises. |
| `RadixCache.LPRadixCache.Dfs` | dualmap/cache_manager/global_lru_cache_preble.py:347-354 | The traversal lists the nodes at and below a node, each once. |
| `RadixCache.LPRadixCache.CollectedNodesWithRuntimeIdx` | dualmap/cache_manager/global_lru_cache_preble.py:334-345 | Exactly the unreferenced cached nodes are candidates, and the recount changes nothing. |
| `RadixCache.LPRadixCache.PopLeast` | dualmap/cache_manager/global_lru_cache_preble.py:166 | A least entry of the queue. |
| `RadixCache.LPRadixCache.EvictWithRuntimeIdWithoutRemoving` | dualmap/cache_manager/global_lru_cache_preble.py:159-180 | Eviction ends, drops only unreferenced nodes, lowers the size by what it reports, goes no further than needed, and stops short only when nothing can be dropped. Whatever could be dropped and has fewer references than a dropped node, or as many and an older access time, is dropped too. |
| `Preble.PrebleGlobalScheduler.GetNearestAncestorNodeWithLowSharePrefixRatio` | dualmap/scheduler/utils/preble_global_scheduler_utils.py:139-144 | The lowest ancestor that shares less than half, which is missing exactly for the empty prompt. |
| `Preble.LowShareIs` | dualmap/scheduler/utils/preble_global_scheduler_utils.py:133-136 | A node shares less than half exactly when its path is more than twice as long as its parent's. |
| `Preble.PrebleGlobalScheduler.UpdateHistogramWithSplitNode` | dualmap/scheduler/utils/preble_global_scheduler_utils.py:54-61 | Entries go over to the new node exactly when it is now the important one. |
| `Preble.HandOverIs` | dualmap/scheduler/utils/preble_global_scheduler_utils.py:54-61 | When the edge to an important node is split, the new node is the important one from then on exactly when it shares less than half and the old one does not; that is when entries go over. |
| `Preble.PrebleGlobalScheduler.HandleCacheEvictionForGpu` | dualmap/scheduler/utils/preble_global_scheduler_utils.py:153-158 | Afterwards the GPU holds no more than it may or everything it holds but the root is referenced; referenced nodes stay, the least recently used go first, no more of them than needed, and none from a GPU that fits. |
| `Preble.PrebleGlobalScheduler.Schedule` | dualmap/scheduler/global_scheduler/preble_global_scheduler.py:18-67 | One arrival keeps tree, counts, sizes and histogram right, hands entries over along the edge it splits, logs the request under its nearest low-share ancestor, pins the whole prompt on its GPU through the eviction, and raises exactly for the empty prompt. |
| `Preble.PrebleGlobalScheduler.FinishRequest` | dualmap/scheduler/global_scheduler/preble_global_scheduler.py:69-78 | A successful completion releases a booked request and does not raise; a failed one releases nothing. |
| `Preble.LensKept` | dualmap/cache_manager/global_lru_cache_preble.py:214-218 | Insertion keeps every old node's context length. |
| `WindowLog.AddOne` | dualmap/scheduler/utils/preble_sliding_window_histogram.py:40-46 | Logging a request adds its prompt tokens and count to its node's sums. |
| `WindowLog.ExpireOne` | dualmap/scheduler/utils/preble_sliding_window_histogram.py:64-77 | Expiring the first entry keeps sums and keys, and a node's keys go exactly with its last live entry. |
| `WindowLog.WindowExact` | dualmap/scheduler/utils/preble_sliding_window_histogram.py:61-64 | Popping from the front leaves nothing older than the window exactly when no older entry was logged after one inside it. |
| `WindowLog.WindowFilter` | dualmap/scheduler/utils/preble_sliding_window_histogram.py:61-64 | With timestamps in order exactly the entries of the window stay. |
| `WindowLog.MoveExact` | dualmap/scheduler/utils/preble_sliding_window_histogram.py:81-99 | Handing a node's sums over is right exactly when the new node had no live entries. |
| `Drift.OwnTokens` | dualmap/cache_manager/global_lru_cache_preble.py:201-222 | A node never gains tokens of its own, and loses some exactly when the edge above it is split. |
| `Drift.ShareExactSplit` | dualmap/scheduler/utils/preble_sliding_window_histogram.py:67 | After an expiry the sum of shared tokens is right exactly when the edge above the expired leaf has not been split since it was logged. |
| `DriftCase.ShareDrifts` | dualmap/scheduler/utils/preble_sliding_window_histogram.py:67 | A tree of two inserted prompts where it is short by the tokens the split took. |
| `Histogram.SlidingWindowHistogram.AddRequest` | dualmap/scheduler/utils/preble_sliding_window_histogram.py:39-48 | The log gains the entry and loses the expired ones; three sums equal the folds over it and the fourth does but for its drift; decode length and unshared ratio are those of the latest request. |
| `Histogram.SlidingWindowHistogram.RatioIs` | dualmap/scheduler/utils/preble_sliding_window_histogram.py:44-47 | The unshared ratio is the fraction of a node's live prompt tokens that their leaves had of their own when logged, but for the drift. |
| `Histogram.SlidingWindowHistogram.RemoveOldEntries` | dualmap/scheduler/utils/preble_sliding_window_histogram.py:61-79 | The same for the expiry loop; what stays keeps its decode length and ratio. |
| `Histogram.SlidingWindowHistogram.ExpireFirst` | dualmap/scheduler/utils/preble_sliding_window_histogram.py:64-78 | One expiry: no deleted key is missing, and the sum of shared tokens drifts by what the leaf has lost to splits since. |
| `WindowLog.SharesExpire` | dualmap/scheduler/utils/preble_sliding_window_histogram.py:67 | The drift of a node grows by the tokens the expired leaf has lost, and ends with the node's keys. |
| `Histogram.SlidingWindowHistogram.ReplaceOldNodeWithNew` | dualmap/scheduler/utils/preble_sliding_window_histogram.py:81-99 | The log is renamed, the sums still equal the folds over it, and the drift goes with the node. |
| `PrefixTable.DepthBounds` | dualmap/scheduler/utils/lazy_prefix_table.py:64-76 | The depth is in 1..len (0 for an empty prompt), every shallower depth has an entry, and the last one does exactly when the lookup runs off the end. |
| `PrefixTable.RollingHashIs` | dualmap/scheduler/utils/lazy_prefix_table.py:58-62 | The rolling hash is the residue modulo 2^64 of the blocks read as digits, in spite of the cut in each step. |
| `PrefixTable.RoutesTogether` | dualmap/scheduler/utils/lazy_prefix_table.py:64-76 | Prompts that share the blocks of a stopped lookup share its routing key. |
| `PrefixTable.KeyOrder` | dualmap/scheduler/utils/lazy_prefix_table.py:64-76 | One key is a proper prefix of another exactly when its prompt runs off the end and is a proper prefix of the other prompt, with no assumption on the hash. |
| `PrefixTable.StoppedKeys` | dualmap/scheduler/utils/lazy_prefix_table.py:64-76 | Two stopped lookups have equal keys or keys of which neither is a prefix of the other. |
| `PrefixTable.OffEndPrefix` | dualmap/scheduler/utils/lazy_prefix_table.py:64-76 | A concrete table on which keys are not prefix-free. |
| `PrefixTable.ProcessEffect` | dualmap/scheduler/utils/lazy_prefix_table.py:136-152 | What lookup, expansion and shrink of one call may do to the decisions. |
| `PrefixTable.ProcessExactly` | dualmap/scheduler/utils/lazy_prefix_table.py:136-152 | Exactly what one call does to the decisions, given whether it expands and whether it shrinks. |
| `LazyTable.LRUCapBucket.Get` | dualmap/scheduler/utils/lazy_prefix_table.py:20-25 | The decision, if any, which becomes the newest entry; contents unchanged. |
| `LazyTable.LRUCapBucket.Put` | dualmap/scheduler/utils/lazy_prefix_table.py:27-35 | The decision is stored as the newest entry; only a new key on a full bucket costs the oldest. |
| `LazyTable.RecencyOrder` | dualmap/scheduler/utils/lazy_prefix_table.py:20-35 | The order is that of the latest uses, so the oldest entry is the least recently used one. |
| `LazyTable.LazyPrefixTable.Lookup` | dualmap/scheduler/utils/lazy_prefix_table.py:64-76 | The loop ends with the value-level depth and leaves all decisions as they were. |
| `LazyTable.LazyPrefixTable.MarkExpand` | dualmap/scheduler/utils/lazy_prefix_table.py:78-81 | Stores one decision; every decision at depth d stays d + 1. |
| `LazyTable.LazyPrefixTable.MarkShrink` | dualmap/scheduler/utils/lazy_prefix_table.py:83-86 | Removes that one decision and no other. |
| `LazyTable.HotPrefixDetector.Observe` | dualmap/scheduler/utils/lazy_prefix_table.py:97-114 | The window keeps the latest observations, the counts equal the occurrences in it, and the result is the ratio rule. |
| `LazyTable.LazyExpansionController.Process` | dualmap/scheduler/utils/lazy_prefix_table.py:136-152 | A call expands exactly when the key's share of the window, itself included, reaches the ratio, and shrinks exactly when its parent's share, observed next, is below 2%; no other decision is added, and one is lost only to make room. A shrink after a stopped lookup undoes only the same call's expansion. |

## Left out

- RequestQueue.DiscardKeepsHeap: states sufficient conditions; `DiscardExact` has the exact condition on positions,
  and beyond it whether the rest is a heap depends on the priorities of the entries that remain.
- Stamps.StampExact: names the loop's pick, which takes following the loop's rounds from the state before
  the call; `StampKept` and `StampLost` do not, and leave open the case of a tempted newcomer that is
  not the loop's first choice.
- Preble.PrebleGlobalScheduler.UpdateHistogramWithSplitNode: leaves out the decode-length queues, the overload detector and the
  prefill costs per GPU, which are float heuristics.
- Preble.PrebleGlobalScheduler.Schedule: leaves out the choice of the GPU, the allocation sets and node
  stealing; the chosen GPU is an input.
- Preble.PrebleGlobalScheduler.FinishRequest: leaves out the overload detector, the time-per-token queues and the decode totals.
- Histogram.SlidingWindowHistogram.AddRequest: leaves out the prefill costs and the decode totals per GPU and node.
- Histogram.SlidingWindowHistogram.RemoveOldEntries: leaves out the prefill costs and the reset of a node's allocation set.
- Histogram.SlidingWindowHistogram.ExpireFirst: leaves out the same.
- Histogram.SlidingWindowHistogram.ReplaceOldNodeWithNew: leaves out the prefill costs and the decode totals of the node.
- WindowLog.WindowFilter: assumes timestamps in order, as one clock delivers them; without order
  `WindowExact` says when old entries stay.
- RequestQueue.PredictedIsReal: assumes that no two entries draw (distinct arrival times or hit lengths), since
  comparing two equal entries would compare the requests themselves, which raises.
- RadixCache.LPRadixCache.PopLeast: leaves open which of several least nodes is popped, so nothing proved of an eviction
  depends on it. The candidates are a list instead of a binary heap.
- HashChain.SameHash: needs an injective block hash; so do the statements about prompts that use
  it. The capacity theorems do not.
- The block hash is a parameter that is never 0, as the eviction loop takes 0 for an empty list.
- The watermark is N / 100 rounded down; the binary rounding of 0.01 * N is not modelled.
- Consistent hash rings and the tokenizer are functions given from outside. Clock readings, the
  `recent prefill` test and running-block counts are inputs of each step. How the coin falls is an input of the
  whole run, as the random generator is seeded anew before each tie.
- Predicted times are reals, rounded to four digits where the code rounds them; the binary error of floats is
  not modelled. Delays are clock ticks; that a delay is rounded to hundredths of a second before it is compared
  with the limit is not modelled.
- One `schedule` call is one step. The locks are not held across a suspension inside it, so no
  other step can come in between; within it the replica states are a snapshot.
- A request's mutable attributes (recorded prefill length, stamps) are maps beside the immutable
  request. Loads, running blocks and request rates that do not enter a decision are not modelled.
- In the allocator the exception handlers never run.
- Tree nodes are addressed by their creation number in one store instead of by reference; a node's
  value is always a copy of its key and is not kept apart. `load` and `depth` are left out.
- Access times of one tree operation are one instant.
- Balance types other than `dualmap`, and the branches of selection and cost that only they use.
- The choice of the GPU in Preble scheduling (load costs, virtual eviction, allocation sets), node
  stealing, TTFT overload detection and all cost figures of the histogram: float heuristics. The
  chosen GPU is an input.
- `LPRadixCache.evict`, `_evict_by_node`, `migrate_request_between_gpus`: not used by the
  schedulers modelled here.
- Changing the detector's parameters while it runs (`set_params`).
- HTTP client, metrics, logging, process launching, dataset preparation, plotting, argument parsing
  and the baseline routers: input and output, or easy members.
