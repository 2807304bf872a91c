# Decode context parallelism: a verified model of the data plane and its bookkeeping

The repository serves MLA models with the KV cache sharded over `D` decode-context-parallel
(DCP) ranks, token-interleaved in runs of `I`. What it adds to vLLM and LMCache is index
arithmetic, in-place buffer choreography, a racing GPU kernel, collectives that all ranks must
enter alike, and per-request bookkeeping. This project models those parts in Dafny and proves
what they promise. GPU kernels for attention and top-k, NCCL, vLLM's scheduler and LMCache's
server are foreign; they appear as contracts.

| file | part of the system |
|---|---|
| `Seqs.dfy` | sequences, prefix sums, concatenation, permutations |
| `Regions.dfy` | stretches of buffers and copying into them |
| `Sharding.dfy` | local and global positions, local lengths, ownership |
| `Compaction.dfy` | the mapping kernel's racing compaction (atomic add, then stores) |
| `CkvGather.dfy` | lengths, starts, messages, slots; the gather refinement |
| `CkvBuilder.dfy` | the metadata builder, capacity, eligibility, agreement between ranks |
| `CkvArena.dfy` | packing, padding and receiving in the shared arena |
| `StreamRuns.dfy` | all ranks' streams over many layers, with a non-atomic all-gather |
| `Attention.dfy` | exact-real attention, merging, cross-rank correction, the ping-pong fold |
| `GatherPath.dfy` | the gather path as a whole and its equality with the stock DCP path |
| `TopkMerge.dfy` | the DCP top-k merge and exactly when it is exact |
| `TopkRemap.dfy` | ids by position, finalizing on each rank, unpacking the candidates |
| `ChunkPlan.dfy` | chunk planning, workspace sizes, the closing assertions |
| `ChunkTables.dfy` | the planner's cumulative-length and token-to-request tables |
| `Reorg.dfy` | `reorg_kvcache` on what the ranks really gather |
| `ContextPrefill.dfy` | chunked context attention from sharded caches to final output |
| `QueryWorkspace.dfy` | the in-workspace query all-gather |
| `StoreFutures.dfy` | store and retrieve futures and the events that outlive them |
| `PreemptRestore.dfy` | the one-shot restore of preempted requests |
| `LmCacheMapping.dfy` | storing and reading ranks, chunk boundaries, store and restore |

Conventions. Attention is in exact reals: a key has a positive weight, the exponential of its
score, and a value; the denominator stands for the exponential of the log-sum-exp. Weights and
values may depend on the query row (`ContextPrefill` pairs every key with its row). A score is a
real or minus infinity. A tile of the compaction kernel is one atomic add followed by one store
per lane, under every interleaving; the all-gather is one transfer per pair of ranks. Errors that
the code raises are outcomes (`ok`, `Outcome`, `Option`), not preconditions.

Where the code and its documentation differ, the model follows the code:

* The top-k merge is documented as exact. Masked scores (minus infinity) and padding are packed
  alike, so a selection may take padding instead of a masked token. `TopkMerge.MergeExactIff` gives
  the exact condition, and `TopkMerge.MaskedTokenLost` an input for every `k` above 1, with four
  ranks, on which even a selector that orders equal scores by position loses a token.
* The chunk planner asserts that the chunk size is a multiple of the number of ranks. For interleave
  1 that is what the later assertions need; in general it is too weak for both kinds of them.
  The closing assertions of `reorg_kvcache` hold if and only if the chunk size is a multiple of
  `D * I` or one chunk is enough (`ChunkPlan.ClosesExactly`), and the workspace assertions hold if
  and only if the first chunk's padded tokens fit one rank's share (`ChunkPlan.WorkspaceExactly`),
  which whole stripes guarantee and one chunk alone does not. Together: the context computation
  returns if and only if chunks are whole stripes, or one chunk is enough and the contexts, each
  rounded up to whole stripes, fit the workspace (`ContextPrefill.ComputePrefillContext`,
  `ChunkPlan.OneChunkFitsExactly`). `ChunkPlan.AssertTooWeak` and `ChunkPlan.PaddingOverflows` are
  plans that the planner makes from its own sizes and that fail one of either kind.
* The storer predicate is documented for MLA with DCP. With more than one pipeline stage and more
  than one rank per stage, the last stage has no storing rank (`LmCacheMapping.OneStorerExactly`).
* The one-at-a-time guard of the preempt restore has no timeout: while the active request does not
  call again, every other preempted request is turned away (`PreemptRestore.OthersWaitForActive`).

## Model

| member | source | states |
|---|---|---|
| Sharding.TokenPlace | gather/overlay/vllm/model_executor/layers/sparse_attn_indexer.py:68-82 | run r of round q belongs to rank r as that rank's q-th run, and both position maps say so |
| Sharding.GlobalOfLocal | gather/overlay/vllm/model_executor/layers/sparse_attn_indexer.py:68-82 | local to global and back is the identity on every rank, and the global token is owned by that rank |
| Sharding.LocalOfGlobal | gather/overlay/vllm/model_executor/layers/sparse_attn_indexer.py:68-82 | global to local and back, on the owner, is the identity for every token |
| Sharding.LocalLenIsCount | gather/test_ckv_gather_runtime.py:20-22 | the closed-form local length, for any interleave, counts the tokens below the length that the rank owns |
| Sharding.LensSum | gather/overlay/vllm/v1/attention/backends/mla/b12x_mla_sparse.py:608-614 | the local lengths of all ranks add up to the global length |
| Sharding.LocalIsRank | gather/overlay/vllm/v1/attention/backends/mla/b12x_mla_sparse.py:236-239 | a token's local position is the number of tokens its owner holds before it |
| Sharding.InRange | gather/overlay/vllm/v1/attention/backends/mla/b12x_mla_sparse.py:252-252 | the kernel's local test `local < req_len` holds if and only if the token is below the request's global length |
| Sharding.InRangeLocal | gather/overlay/vllm/v1/attention/backends/mla/b12x_mla_sparse.py:252-252 | a local position is live if and only if the token it stands for is below the global length |
| Sharding.OwnedSize | gather/overlay/vllm/v1/attention/backends/mla/b12x_mla_sparse.py:719-729 | a row's per-token local length is the number of positions up to it that the rank owns |
| Sharding.ClampIsIdle | gather/overlay/vllm/v1/attention/backends/mla/b12x_mla_sparse.py:1731-1735 | cutting valid counts off at the per-token local length never drops a distinct causal winner |
| Compaction.LaneTarget | gather/overlay/vllm/v1/attention/backends/mla/b12x_mla_sparse.py:257-258 | the cumulative-sum offset of a valid lane is inside its tile's range and is the place of that lane's slot |
| Compaction.ReachableInv | gather/overlay/vllm/v1/attention/backends/mla/b12x_mla_sparse.py:255-266 | every interleaving of atomic adds and stores keeps the counter, the reserved ranges, the stored cells and the untouched -1 tail consistent |
| Compaction.StoresInBounds | gather/overlay/vllm/v1/attention/backends/mla/b12x_mla_sparse.py:260-266 | no store of any reachable state leaves the row |
| Compaction.RangesDisjoint | gather/overlay/vllm/v1/attention/backends/mla/b12x_mla_sparse.py:260-261 | the ranges that two tiles reserved never overlap |
| Compaction.Compacted | gather/overlay/vllm/v1/attention/backends/mla/b12x_mla_sparse.py:302-326 | when all tiles are done, whatever the schedule, the prefix is a permutation of the valid slots and the tail is all -1 |
| Compaction.LaunchRow | gather/overlay/vllm/v1/attention/backends/mla/b12x_mla_sparse.py:302-326 | the launch on a real row, with an arbitrary scheduler, terminates with that prefix, count and tail |
| Compaction.Perform | gather/overlay/vllm/v1/attention/backends/mla/b12x_mla_sparse.py:257-266 | one kernel step on the counter, registers and row is one step of the transition system |
| CkvGather.TotalFits | gather/overlay/vllm/v1/attention/backends/mla/b12x_mla_sparse.py:639-644 | no rank's total exceeds the common padded size |
| CkvGather.PaddedExact | gather/overlay/vllm/v1/attention/backends/mla/b12x_mla_sparse.py:641-644 | the padded size is the least whole number of pages that holds every rank's total |
| CkvGather.MessageAt | gather/overlay/vllm/v1/attention/backends/mla/b12x_mla_sparse.py:1243-1250 | a packed record is the one at the page and offset that the block table names for the local token |
| CkvGather.MessageTail | gather/overlay/vllm/v1/attention/backends/mla/b12x_mla_sparse.py:1251-1252 | behind the local tokens a message is zero bytes |
| CkvGather.SlotInRange | gather/overlay/vllm/v1/attention/backends/mla/b12x_mla_sparse.py:253-253 | every live token's slot is below `D * padded` |
| CkvGather.SlotInjective | gather/overlay/vllm/v1/attention/backends/mla/b12x_mla_sparse.py:253-253 | two live (request, token) pairs never share a slot |
| CkvGather.SlotReads | gather/overlay/vllm/v1/attention/backends/mla/b12x_mla_sparse.py:1242-1262 | reading a live token's slot of the gathered region yields that token's record of the sharded cache |
| CkvGather.LaneMeaning | gather/overlay/vllm/v1/attention/backends/mla/b12x_mla_sparse.py:230-253 | a lane keeps exactly the non-negative ids below the request's global length, and maps them to their slot |
| CkvGather.GatherRefines | gather/overlay/vllm/v1/attention/backends/mla/b12x_mla_sparse.py:204-326 | end to end, for every batch, layout, block table, top-k row and tile schedule, the records read through the compacted slots are, as a multiset, those of the row's live ids |
| CkvBuilder.CapacityBound | gather/overlay/vllm/v1/attention/backends/mla/b12x_mla_sparse.py:953-967 | a batch within the request and token limits is padded to at most the local capacity, and all regions fit the arena |
| CkvBuilder.CapacityExact | gather/overlay/vllm/v1/attention/backends/mla/b12x_mla_sparse.py:953-960 | the capacity is the least whole number of pages that holds an even share of the tokens, rounded up, and one interleave run per request |
| CkvBuilder.CollectiveAgreement | gather/overlay/vllm/v1/attention/backends/mla/b12x_mla_sparse.py:1179-1210 | all ranks compute the same padded size and the same verdict; the one rank-dependent test never rejects |
| CkvBuilder.EligibleAlways | gather/overlay/vllm/v1/attention/backends/mla/b12x_mla_sparse.py:1184-1210 | eligibility of a built batch, in terms of the settings and the batch alone, for every batch |
| CkvBuilder.EligibleExactly | gather/overlay/vllm/v1/attention/backends/mla/b12x_mla_sparse.py:1184-1210 | the same within the request and token limits, where the capacity never rejects |
| CkvBuilder.MetadataBuilder.Build | gather/overlay/vllm/v1/attention/backends/mla/b12x_mla_sparse.py:598-645 | for a long enough pure prefill fills the persistent tables in place with every rank's lengths and exclusive starts and this rank's offsets, and returns this rank's total and the least page-rounded size that holds all; otherwise leaves the tables alone |
| CkvBuilder.MetadataBuilder.FillRank | gather/overlay/vllm/v1/attention/backends/mla/b12x_mla_sparse.py:615-630 | one row of both tables, leaving the rows of other ranks filled |
| CkvBuilder.MetadataBuilder.FillLocalCu | gather/overlay/vllm/v1/attention/backends/mla/b12x_mla_sparse.py:632-638 | this rank's cumulative lengths, from its row of the table |
| CkvArena.Arena.PackLocal | gather/overlay/vllm/v1/attention/backends/mla/b12x_mla_sparse.py:1243-1252 | after packing and zeroing, every local token is the record of its page and offset, the front of the arena is the padded message, and the rest is untouched |
| CkvArena.Arena.ReceiveAll | gather/overlay/vllm/v1/attention/backends/mla/b12x_mla_sparse.py:104-137 | the all-gather fills the gathered region rank-major and touches nothing else |
| CkvArena.Arena.GatherCkv | gather/overlay/vllm/v1/attention/backends/mla/b12x_mla_sparse.py:1212-1275 | refuses exactly ineligible batches, touching nothing; otherwise leaves the packed message and the gathered region in one arena without overlap |
| StreamRuns.ReachableInv | gather/overlay/vllm/v1/attention/backends/mla/b12x_mla_sparse.py:1233-1275 | the invariant of all ranks' streams: local message, transfer counters, delivered slices, in every reachable state |
| StreamRuns.AttendReadsItsLayer | gather/overlay/vllm/v1/attention/backends/mla/b12x_mla_sparse.py:1233-1275 | whenever a rank attends to a layer, its gathered region holds exactly every rank's message of that layer, however far the others drifted |
| StreamRuns.NeverStuck | gather/overlay/vllm/v1/attention/backends/mla/b12x_mla_sparse.py:104-137 | no reachable state is stuck before all ranks have run all layers |
| StreamRuns.RunsEnd | gather/overlay/vllm/v1/attention/backends/mla/b12x_mla_sparse.py:104-137 | every run ends: the steps are bounded by three per rank and layer and one per pair of ranks and layer, and all layers are done if and only if that many have been made |
| GatherPath.GatherEqualsStock | gather/overlay/vllm/v1/attention/backends/mla/b12x_mla_sparse.py:1682-1736 | for distinct causal ids, attending with local heads through the gathered slots equals the stock path: each rank's winners in any order, clamped at its per-token length, corrected across ranks, also when ranks own nothing |
| GatherPath.GatherEqualsUnclamped | gather/overlay/vllm/v1/attention/backends/mla/b12x_mla_sparse.py:1682-1730 | without the clamp the two agree for all ids |
| GatherPath.ClampIdleIff | gather/overlay/vllm/v1/attention/backends/mla/b12x_mla_sparse.py:1731-1736 | the clamp and the mask behind it change nothing if and only if no rank has more winners than its per-token length |
| GatherPath.ClampKeepsWinners | gather/overlay/vllm/v1/attention/backends/mla/b12x_mla_sparse.py:1719-1736 | on the stock path the minimum with the per-token length keeps every winner |
| GatherPath.AttendingReadsItsRow | gather/overlay/vllm/v1/attention/backends/mla/b12x_mla_sparse.py:1682-1707 | in every reachable state of the group, a rank attending to a row reads exactly that row's records of its current layer |
| TopkMerge.TopKMeans | gather/overlay/vllm/model_executor/layers/sparse_attn_indexer.py:825-835 | what a valid top-k is, entry by entry and in terms of the scores themselves |
| TopkMerge.TopKScoresUnique | gather/overlay/vllm/model_executor/layers/sparse_attn_indexer.py:825-835 | any two valid top-k selections of a row have the same score multiset |
| TopkMerge.MergeSelects | gather/overlay/vllm/model_executor/layers/sparse_attn_indexer.py:836-866 | the merge yields distinct tokens of the row, or -1 |
| TopkMerge.MergeDominates | gather/overlay/vllm/model_executor/layers/sparse_attn_indexer.py:825-835 | no token left out scores strictly higher than a selected one |
| TopkMerge.MergeExact | gather/overlay/vllm/model_executor/layers/sparse_attn_indexer.py:825-866 | merging the ranks' local top-k lists is a valid top-k of the full row, -1 only when the row is shorter than k |
| TopkMerge.MergeExactIff | gather/overlay/vllm/model_executor/layers/sparse_attn_indexer.py:496-531 | exact for every way of breaking ties if and only if there are enough unmasked tokens or every rank's shard holds k tokens |
| TopkMerge.MaskedTokenLost | gather/overlay/vllm/model_executor/layers/sparse_attn_indexer.py:825-866 | for every k above 1: four ranks with logits, two masked tokens, and a position-ordered selection that takes padding and loses the second token |
| TopkMerge.UnmaskedRow | gather/overlay/vllm/model_executor/layers/sparse_attn_indexer.py:825-835 | a row with no masked score always meets the condition |
| TopkRemap.GatherIdsByPosition | gather/overlay/vllm/model_executor/layers/sparse_attn_indexer.py:1216-1227 | positions are overwritten in place by the ids at them; under the condition the row ends as a top-k of the full score row |
| TopkRemap.FinalizeRemap | gather/overlay/vllm/model_executor/layers/sparse_attn_indexer.py:305-346 | every entry of the row ends as -1 or the local index of an owned token that leads back to the selected id, and owned ids are never dropped |
| TopkRemap.KeepExact | gather/overlay/vllm/model_executor/layers/sparse_attn_indexer.py:341-346 | an entry becomes -1 exactly for padding and for tokens of other ranks |
| TopkRemap.SurvivesOnce | gather/overlay/vllm/model_executor/layers/sparse_attn_indexer.py:341-346 | a selected token survives on exactly one rank, as a local index that maps back to it |
| TopkRemap.OwnershipConserved | gather/overlay/vllm/model_executor/layers/sparse_attn_indexer.py:341-346 | the non-negative entries over all ranks total the valid selections |
| TopkRemap.NamedCounts | gather/overlay/vllm/model_executor/layers/sparse_attn_indexer.py:341-346 | the count in that total is the number of non-negative entries |
| TopkRemap.TilesCoverOnce | gather/overlay/vllm/model_executor/layers/sparse_attn_indexer.py:206-224 | every candidate cell is written by exactly one lane of one tile |
| TopkRemap.UnpackTiled | gather/overlay/vllm/model_executor/layers/sparse_attn_indexer.py:197-224 | the tiled flat-address kernel fills both tables with the buffer words that the addresses name |
| TopkRemap.UnpackSlices | gather/overlay/vllm/model_executor/layers/sparse_attn_indexer.py:401-406 | so does the slice-copy fallback |
| TopkRemap.UnpackersAgree | gather/overlay/vllm/model_executor/layers/sparse_attn_indexer.py:377-406 | both unpackers always produce the same tables |
| TopkRemap.UnpackedEntry | gather/overlay/vllm/model_executor/layers/sparse_attn_indexer.py:206-224 | round trip: entry j that a rank packed for a row, id and score bits, stands at that rank's column j of the row |
| TopkRemap.UnpackCandidates | gather/overlay/vllm/model_executor/layers/sparse_attn_indexer.py:377-406 | either unpacker, on the all-gather of the packed tensors, puts every rank's entries in their columns |
| Attention.AttendOne | gather/overlay/vllm/model_executor/layers/attention/mla_attention.py:160-187 | attention to one key is its value, with its weight as the denominator; to none, nothing |
| Attention.AttendMore | gather/overlay/vllm/model_executor/layers/attention/mla_attention.py:160-187 | one more key adds its weight to the denominator and its weighted value to the weighted total |
| Attention.AttendWithin | gather/overlay/vllm/model_executor/layers/attention/mla_attention.py:160-187 | the output lies between the smallest and the largest value attended to |
| Attention.MergeWeighs | gather/overlay/vllm/model_executor/layers/attention/mla_attention.py:2604-2611 | a merge keeps the total weight and the weighted total of its inputs |
| Attention.MergeAttend | gather/overlay/vllm/model_executor/layers/attention/mla_attention.py:2604-2611 | merging two partial results is attention over both key lists |
| Attention.CombineAttend | gather/overlay/vllm/model_executor/layers/attention/mla_attention.py:1128-1141 | the cross-rank correction of all partials is attention over all keys, also with empty ranks |
| Attention.AttendPermuted | gather/overlay/vllm/v1/attention/backends/mla/b12x_mla_sparse.py:255-256 | attention depends on the selected set only, not on its order |
| Attention.MergeAttnStates | gather/overlay/vllm/model_executor/layers/attention/mla_attention.py:2604-2611 | needs a destination that is none of its inputs, and fills it with the merge of both |
| Attention.MergeAndSwap | gather/overlay/vllm/model_executor/layers/attention/mla_attention.py:2600-2613 | merges into the merge buffer, swaps the roles, and never aliases the two |
| Attention.FoldChunks | gather/overlay/vllm/model_executor/layers/attention/mla_attention.py:2596-2615 | for any chunk count, with skipped chunks, the final output and denominator are one-shot attention over all chunks |
| ChunkPlan.ChunkSizes | gather/overlay/vllm/model_executor/layers/attention/mla_attention.py:2100-2110 | the chunk size is positive and page-aligned, every request's share fits the workspace, and one page more would not |
| ChunkPlan.WorkspaceClamp | gather/overlay/vllm/model_executor/layers/attention/mla_attention.py:1844-1867 | the workspace is eight full contexts or four pages per request, capped at 64K tokens, and at least a page per request |
| ChunkPlan.WithContextCounts | gather/overlay/vllm/model_executor/layers/attention/mla_attention.py:2082-2082 | the shares are counted over the requests that have context |
| ChunkPlan.SpanBounds | gather/overlay/vllm/model_executor/layers/attention/mla_attention.py:2175-2197 | the local index range of a chunk holds the tokens of whole stripes, on every rank alike |
| ChunkPlan.PaddedBound | gather/overlay/vllm/model_executor/layers/attention/mla_attention.py:2162-2167 | no rank is longer than the padded local context |
| ChunkPlan.TakenIsShare | gather/overlay/vllm/model_executor/layers/attention/mla_attention.py:2376-2379 | what the reorganisation takes from a rank is the rank's share of the chunk's span |
| ChunkPlan.TakenTotal | gather/overlay/vllm/model_executor/layers/attention/mla_attention.py:2367-2393 | over all ranks that is exactly the span's tokens |
| ChunkPlan.ClosesExactly | gather/overlay/vllm/model_executor/layers/attention/mla_attention.py:2398-2400 | the closing assertions hold in every chunk if and only if the chunk size is a whole number of stripes or one chunk is enough |
| ChunkPlan.FirstChunkTooLong | gather/overlay/vllm/model_executor/layers/attention/mla_attention.py:2398-2398 | otherwise the first chunk already gathers more tokens than planned |
| ChunkPlan.AssertTooWeak | gather/overlay/vllm/model_executor/layers/attention/mla_attention.py:2174-2174 | a plan of the planner's own making that passes its assertion and the workspace ones and fails a closing one |
| ChunkPlan.ChunkFits | gather/overlay/vllm/model_executor/layers/attention/mla_attention.py:2678-2685 | with whole stripes every chunk passes the workspace assertions |
| ChunkPlan.WorkspaceExactly | gather/overlay/vllm/model_executor/layers/attention/mla_attention.py:2678-2685 | for any chunk size, all chunks pass them if and only if the first chunk's padded tokens fit one rank's share |
| ChunkPlan.OneChunkFitsExactly | gather/overlay/vllm/model_executor/layers/attention/mla_attention.py:2678-2685 | when one chunk is enough, that is if and only if the contexts, rounded up to whole stripes, total at most the workspace |
| ChunkPlan.WorkspaceHoldsIff | gather/overlay/vllm/model_executor/layers/attention/mla_attention.py:1957-1971 | on the tensor the builder allocates, the three assertions say that a message fits one rank's share |
| ChunkPlan.PaddingOverflows | gather/overlay/vllm/model_executor/layers/attention/mla_attention.py:2680-2680 | a plan of the planner's own making for which one chunk is enough and the workspace assertion fails |
| ChunkPlan.SkippedIff | gather/overlay/vllm/model_executor/layers/attention/mla_attention.py:2643-2645 | a chunk has no padded tokens exactly when it lies behind every context; with whole stripes none does |
| ChunkTables.RepeatsAt | gather/overlay/vllm/model_executor/layers/attention/mla_attention.py:2147-2149 | entry k of the repeated indices names the request whose cumulative range holds k |
| ChunkTables.FillTables | gather/overlay/vllm/model_executor/layers/attention/mla_attention.py:2131-2151 | the filled tables hold the cumulative lengths and attribute every token to its request, with a zero tail |
| ChunkTables.ContextLensAddUp | gather/overlay/vllm/model_executor/layers/attention/mla_attention.py:2119-2129 | a request's chunk lengths add up to its context |
| Reorg.UnpadRequest | gather/overlay/vllm/model_executor/layers/attention/mla_attention.py:2368-2393 | the inner loop concatenates the request's pieces of all ranks |
| Reorg.ReorgKvCache | gather/overlay/vllm/model_executor/layers/attention/mla_attention.py:2331-2401 | the result is the un-padded requests in order; it returns exactly when there is a segment and the closing assertions hold |
| Reorg.GatheredAt | gather/overlay/vllm/model_executor/layers/attention/mla_attention.py:2666-2688 | where a rank's padded chunk of a request lies in the all-gathered workspace |
| Reorg.RequestHoldsSpan | gather/overlay/vllm/model_executor/layers/attention/mla_attention.py:2364-2393 | for any chunk size, an un-padded request holds exactly the tokens of the chunk's span, each once |
| Reorg.RequestHoldsChunk | gather/overlay/vllm/model_executor/layers/attention/mla_attention.py:2364-2396 | with whole stripes that is exactly `[i * mcc, min(L, (i + 1) * mcc))` |
| Reorg.RequestIsStretch | gather/overlay/vllm/model_executor/layers/attention/mla_attention.py:2394-2401 | and each request is the stretch of the planner's cumulative lengths |
| Reorg.NeverEmpty | gather/overlay/vllm/model_executor/layers/attention/mla_attention.py:2396-2397 | a chunk that is not skipped always has a segment to concatenate |
| Reorg.ContextCovered | gather/overlay/vllm/model_executor/layers/attention/mla_attention.py:2642-2710 | all chunks together hold a request's context, each token once |
| ContextPrefill.ChunkPasses | gather/overlay/vllm/model_executor/layers/attention/mla_attention.py:2398-2400 | under the stripe condition a chunk's un-padded tensor has exactly the planned lengths |
| ContextPrefill.FirstChunkFails | gather/overlay/vllm/model_executor/layers/attention/mla_attention.py:2398-2400 | otherwise the first chunk's is longer than planned |
| ContextPrefill.RunVerdict | gather/overlay/vllm/model_executor/layers/attention/mla_attention.py:2678-2710 | in a chunk that a run reaches, both kinds of assertions pass if and only if the whole run completes |
| ContextPrefill.GatherIntoWorkspace | gather/overlay/vllm/model_executor/layers/attention/mla_attention.py:2666-2689 | the local gather in front and the all-gather behind it in one tensor, or a failed assertion and nothing written |
| ContextPrefill.UnpadChunk | gather/overlay/vllm/model_executor/layers/attention/mla_attention.py:2698-2710 | un-padding succeeds exactly under the stripe condition and gives every row its request's tokens of the chunk |
| ContextPrefill.GatherChunk | gather/overlay/vllm/model_executor/layers/attention/mla_attention.py:2643-2710 | one iteration, workspace and closing assertions included, succeeds exactly if the run completes and gives every row its request's tokens |
| ContextPrefill.ComputePrefillContext | gather/overlay/vllm/model_executor/layers/attention/mla_attention.py:2617-2759 | from the sharded caches through the workspace to the final output: returns if and only if chunks are whole stripes, or one is enough and fits the workspace; then every row's output and denominator are one-shot attention over its whole context |
| QueryWorkspace.StageFits | gather/overlay/vllm/v1/attention/backends/mla/b12x_mla_sparse.py:1371-1381 | the staged tuple chunk lies inside the rows that the same chunk overwrites |
| QueryWorkspace.LocalChunk | gather/overlay/vllm/v1/attention/backends/mla/b12x_mla_sparse.py:1371-1383 | the message is the joined query chunk, and staging changes no other row |
| QueryWorkspace.AllGatherInto | gather/overlay/vllm/v1/attention/backends/mla/b12x_mla_sparse.py:1385-1396 | the scratch area holds all messages rank-major |
| QueryWorkspace.PlaceChunk | gather/overlay/vllm/v1/attention/backends/mla/b12x_mla_sparse.py:1397-1402 | every rank's heads of every token of the chunk are in place, and rows outside the chunk are untouched |
| QueryWorkspace.GatherChunk | gather/overlay/vllm/v1/attention/backends/mla/b12x_mla_sparse.py:1369-1403 | one iteration assembles the chunk's rows from the staged message |
| QueryWorkspace.GatherQuery | gather/overlay/vllm/v1/attention/backends/mla/b12x_mla_sparse.py:1359-1403 | for every token count and scratch size the loop ends with all rows assembled and later rows untouched, or refuses exactly when one gathered row does not fit |
| QueryWorkspace.ViewIsAllGather | gather/overlay/vllm/v1/attention/backends/mla/b12x_mla_sparse.py:1405-1412 | the returned view of a row is the unchunked all-gather along heads |
| QueryWorkspace.HeadInPlace | gather/overlay/vllm/v1/attention/backends/mla/b12x_mla_sparse.py:1398-1402 | head `r * heads + h` of row t is head h of rank r's token t |
| QueryWorkspace.AllGatherQueryInWorkspace | gather/overlay/vllm/v1/attention/backends/mla/b12x_mla_sparse.py:1277-1412 | the whole routine: it gathers if and only if the token count, topology, heads, mode, query, group and scratch conditions hold, and each refusal has its own condition and changes nothing |
| StoreFutures.PendingPairs | base/patches/patch_chunked_store_futures.py:38-51 | filtering keeps every pending future beside its own event |
| StoreFutures.PendingOrder | base/patches/patch_chunked_store_futures.py:38-51 | pending futures keep their order of submission |
| StoreFutures.Splits | base/patches/patch_chunked_store_futures.py:38-51 | a list splits into consumed and pending futures, nothing lost or doubled |
| StoreFutures.WorkerAdapter.SubmitStore | base/patches/patch_chunked_store_futures.py:88-92 | appends future and event, overwriting nothing in flight, and un-finishes the request |
| StoreFutures.WorkerAdapter.PollRequest | base/patches/patch_chunked_store_futures.py:38-51 | the inner loop's pending lists and the results it takes |
| StoreFutures.WorkerAdapter.PollStoreFutures | base/patches/patch_chunked_store_futures.py:28-61 | raises exactly on misaligned lists; otherwise both maps, the report and the taken results are those of the poll |
| StoreFutures.WorkerAdapter.SubmitRetrieve | base/patches/patch_ipc_event_lifetime.py:80-81 | records a retrieve's future and event together |
| StoreFutures.WorkerAdapter.PollRetrieves | base/patches/patch_ipc_event_lifetime.py:105-110 | finished retrieves leave both maps in step |
| StoreFutures.WorkerAdapter.Clear | base/patches/patch_ipc_event_lifetime.py:92-95 | the clear path drops all futures with all events |
| StoreFutures.ReachableInv | base/patches/patch_chunked_store_futures.py:28-92 | over every run of submit, complete, poll and clear: lists aligned pairwise, every submitted future tracked, taken or dropped |
| StoreFutures.MismatchUnreachable | base/patches/patch_chunked_store_futures.py:31-36 | the mismatch error cannot be reached |
| StoreFutures.EventLifetime | base/patches/patch_ipc_event_lifetime.py:51-54 | an event is held, beside its own future, exactly while that future is unconsumed |
| StoreFutures.TakenOnce | base/patches/patch_chunked_store_futures.py:40-51 | each result is taken once, and only when its transfer is done |
| StoreFutures.ReportedIffDrained | base/patches/patch_chunked_store_futures.py:53-61 | a poll reports a request if and only if it drained in that poll; if all its transfers were done before, it is reported |
| StoreFutures.RetrieveEventLifetime | base/patches/patch_ipc_event_lifetime.py:72-81 | over every run, as long as its future is neither consumed nor dropped, a retrieve's event is held if and only if the request was not submitted again |
| StoreFutures.RetrieveReleased | base/patches/patch_ipc_event_lifetime.py:105-110 | a consumed retrieve was done, and its event is released with it |
| PreemptRestore.Connector.MatchPreempted | base/patches/patch_preempt_safe_restore.py:39-117 | sets, reply, tracker and whether a lookup is submitted, after a call, for every answer of the adapter |
| PreemptRestore.ReachableInv | base/patches/patch_preempt_safe_restore.py:42-86 | in every reachable state submitted equals active, at most one request is active, and none of them is finished |
| PreemptRestore.SubmittedOnce | base/patches/patch_preempt_safe_restore.py:51-64 | a request's lookup is submitted at most once ever: after a call that submits it no later call can |
| PreemptRestore.WaitsOnlyIfActive | base/patches/patch_preempt_safe_restore.py:77-81 | only the active request is told to wait |
| PreemptRestore.FinishedForGood | base/patches/patch_preempt_safe_restore.py:47-48 | a finished request always gets `(0, False)`, so it restores at most once |
| PreemptRestore.FinalAnswerRetires | base/patches/patch_preempt_safe_restore.py:54-88 | a call leaves the request finished if and only if it neither waits nor is turned away, submissions that raise included, and a newly finished request frees the guard |
| PreemptRestore.LookupAnswered | base/patches/patch_preempt_safe_restore.py:69-112 | for a lookup in flight: the reply and the sets for every answer, in terms of the call's own values; it loads exactly when tokens were found in whole chunks of a known positive size that the tracker takes |
| PreemptRestore.TurnedAway | base/patches/patch_preempt_safe_restore.py:47-58 | a finished request, or one that meets another's lookup, gets `(0, False)` and changes nothing |
| PreemptRestore.SubmissionRaised | base/patches/patch_preempt_safe_restore.py:59-75 | a submission that raises gets `(0, False)` and finishes the request |
| PreemptRestore.RestoreExact | base/patches/patch_preempt_safe_restore.py:94-112 | tokens are asked for exactly when more whole chunks were found than are computed; computed plus loaded is the larger of found and computed, and what was found is chunk-aligned |
| PreemptRestore.OthersWaitForActive | base/patches/patch_preempt_safe_restore.py:52-58 | as long as the active request does not call, all others are turned away and nothing changes |
| LmCacheMapping.KvExact | base/patches/patch_dcp_lmcache.py:82-93 | key, key count and storer of every rank, in terms of its stage and its place in it |
| LmCacheMapping.OneStorerExactly | base/patches/patch_dcp_mla_store.py:39-47 | every shard has exactly one storing rank if and only if there is one pipeline stage or one rank per stage |
| LmCacheMapping.LastStageUnstored | base/patches/patch_dcp_mla_store.py:39-47 | otherwise the last stage is never stored |
| LmCacheMapping.ReadersCount | base/patches/patch_dcp_lmcache.py:167-169 | a shard has `tp / dcp` readers, its storer among them, and the extra count is one less |
| LmCacheMapping.BoundariesExactly | base/patches/patch_dcp_lmcache.py:113-116 | token chunks are slot chunks on every rank if and only if nothing is sharded or a chunk is whole interleave runs per rank |
| LmCacheMapping.MisalignedLosesTokens | base/patches/patch_dcp_lmcache.py:113-116 | otherwise the first rank owns tokens of the first chunk that its stored slots do not hold |
| LmCacheMapping.RestoreRebuilds | base/patches/patch_dcp_lmcache.py:82-93 | storing then restoring under (chunk, kv rank) keys rebuilds every rank's local prefix, for any request with the same first chunks |

## Left out

- Integer width: kernels use 32-bit indices; positions, slots and lengths are unbounded here.
- Kernel numerics: FP8 and NVFP4 quantisation, RoPE, softmax rounding and NaN scores; attention is in exact reals and a record or a head vector is an opaque value.
- Foreign code: `get_dcp_local_seq_lens` is modelled by its closed form for any interleave; `cp_gather_cache`, the all-gathers, top-k selection, `merge_attn_states`, `concat_mla_q` and `triton_filter_and_convert_dcp_index` by contracts.
- Applying `_merge_dcp_topk_global` and `_dcp_global_topk_remap` one after the other: each is modelled on its own, since the second expects rank-local ids.
- Attention.FoldChunks: one output coordinate of one head; other coordinates and heads are independent copies.
- ContextPrefill.ComputePrefillContext: gathers all chunks first and folds them afterwards; the code alternates. The reorganised tensor is a fresh value in both, so only peak memory differs.
- ContextPrefill.GatherIntoWorkspace: makes the assertions before the local gather; the code makes them after it, but a failed one abandons the workspace. The dequantising gather is the plain one here.
- CkvArena.Arena.GatherCkv: the messages of the other ranks are a parameter of the collective; `StreamRuns` models how they arrive over time. Shape and dtype refusals of the cache tensor are left out.
- StreamRuns.ReachableInv: packing and zero-padding are one step, because both precede the exchange on the rank's own stream.
- CkvBuilder.MetadataBuilder.Build: the cache block size and the page size of the arena are one constant, 64; the other fields of the metadata are left out.
- QueryWorkspace.AllGatherQueryInWorkspace: one element is a head vector of the fixed dimension; dtype and dimension refusals of the query tensors are left out, and the pointer-overlap test becomes the requirement that the two buffers are distinct.
- Compaction.LaunchRow: one row of the launch; rows use disjoint memory and separate counters.
- TopkMerge.MergeExact: any valid selection is allowed in both rounds, where the kernels may fix an order among equal scores.
- StoreFutures.WorkerAdapter.PollStoreFutures: the error log line for a failed store is left out; requests are visited in any order.
- LmCacheMapping.RestoreRebuilds: keys stand for content hashes of chunk prefixes; sessions, eviction and time-outs of the cache server are left out.
- LmCacheMapping.ReadersCount: the world size passed to the extra count is taken to be the KV world size; its caller is not part of this model.
- PreemptRestore.Connector.MatchPreempted: only the branch for preempted requests; logging is left out.
- The workspace registry and its growth error, the decode metadata, the projection and reduce-scatter in the workspace, FP4 and ROCm branches, warm-up, graph capture and the non-DCP planner paths: they would only add easy members.
- Patch application itself (text replacement, markers, backups), launchers, benchmarks, HTTP clients and containers: input and output plumbing.
