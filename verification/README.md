# Verified model of the repository's algorithmic kernels

A Dafny 4.11 model of the self-contained algorithms behind a tiered mixture-of-experts
inference engine: the expert-cache simulators, the byte-level BPE tokenizer and its trimmed
test vocabulary, the image layout and attention-visibility arithmetic, the lazy-greedy expert
placement, the DAG scheduler, the trace and interval tools, the EVT1 trace format, the two-lane
pipelined prefill and the chunked KV prefix store. `dafny verify dfyconfig.toml` checks it.

| part | files |
|---|---|
| expert caches | `Paging`, `BeladyPolicies`, `ScanSentinel`, `Recency`, `Lru`, `LruCaches`, `PinnedPolicies`, `FrequencyPinned`, `FrequencyCounts`, `RepinnedList`, `ScoredMisses` |
| tokenizer | `ByteEncoding`, `Bpe`, `EmittedIds`, `VocabTrim` |
| images | `VisionLayout`, `VisionPlan`, `ImageVisibility` |
| placement and scheduling | `LazyGreedy`, `CostTables`, `BestPicks`, `Scheduler`, `SchedulerBuild`, `SchedulerPath`, `SchedulerExact`, `SchedulerWork`, `SchedulerRun` |
| traces | `TraceTracks`, `Intervals`, `TimeSplit`, `Concurrency`, `Evt1`, `Evt1Window`, `Evt1Reader`, `Evt1Files`, `Evt1Tables` |
| serving | `TwoLanePrefill`, `PromptPrefill`, `KvStore` |
| shared | `Prelude`, `Arithmetic`, `PriorityQueue`, `Sorting` |

How the model is built:

- Loops that update variables are methods with invariants, proved against a recursive
  specification or an outright property; the Python and Rust objects that update their fields
  (`LRU`, `TwoTier`, `Tracks`, the task list, the prefill state) are classes.
- A *schedule* of a cache is any sequence of loads, evictions and serves; OPT is proved minimal
  over all of them, prefetching included, so no policy enters the statement.
- Floats are `real`, times are integers or `real`; square root is a function with its defining
  equation. Python's `heapq` and Rust's `BinaryHeap` are multisets from which a least entry is
  taken; `sorted` is the stable sorted permutation.
- Where the code does not do what its text promises for every input, the exact condition is
  proved, with an input that fails: `ScanSentinel.AlwaysLeastIff` (the naive scan is optimal on all
  traces of a length exactly when no index reaches its sentinel, or it evicts at most once, or has
  one slot), `PinnedPolicies.SameMissesIff`, `VisionLayout.AlwaysFitsIff`,
  `VisionLayout.AlwaysSafeIff`, `ImageVisibility.WholeImageVisibleIff`, `BestPicks.BestPickIff` (the
  lazy greedy always places a best expert exactly on the tables without the measured link),
  `TraceTracks.KeepsApartIff`, `TraceTracks.DrawnApartIff`, `TwoLanePrefill.OldCountLeaks`.
- The order in which Python walks a set is free where it does not matter, and a parameter where it
  picks a victim.

## Model

| member | source | states |
|---|---|---|
| Paging.FarthestIsLeast | scripts/belady_bound.py:4-14 | a run that always evicts a resident with the farthest next use fetches no more than ANY schedule with the same capacity, prefetching included, and some schedule fetches exactly as much |
| Paging.LeadIsPaidFor | scripts/belady_bound.py:4-14 | at every point of any schedule, the keys it holds that are needed before a time and the run lacks are paid for by extra fetches |
| Paging.RunIsSchedule | scripts/belady_bound.py:52-80 | a farthest-use run is itself a schedule with as many fetches as misses |
| Paging.FarthestRunsAgree | scripts/belady_bound.py:66-79 | all tie-breaks of farthest-use eviction have the same miss count after every access |
| BeladyPolicies.NextUseTable | scripts/belady_bound.py:56-62 | the backward pass gives for every access the next position of the same key, or the end |
| BeladyPolicies.EvictFarthest | scripts/belady_bound.py:72-77 | the lazily invalidated heap always yields a resident whose next use is maximal, and stays complete |
| BeladyPolicies.SimOpt | scripts/belady_bound.py:52-80 | the miss count is the least number of fetches of any schedule |
| BeladyPolicies.Belady | scripts/policy2.py:86-108 | the same for the tuple-heap variant with a single slot for S = 0; the scored misses are those at or after t0, and are the same for every tie-break |
| BeladyPolicies.ScanBelady | scripts/polsim.py:51-70 | for every trace the naive scan makes the run of its own victim rule and counts that run's misses from the start on; at the safe lengths, and wherever the sentinel is sound at every eviction, the run is a farthest-use run and, from start 0, its count is the least number of fetches |
| BeladyPolicies.ScanIsFarthestIff | scripts/polsim.py:63-68 | the scan's victim is always a farthest one exactly when no pending use lies at or beyond the sentinel 10^9 while another resident has none |
| BeladyPolicies.SafeSentinel | scripts/polsim.py:66 | on traces no longer than 10^9, or than one more than the slots, or with one slot, the sentinel is sound at every eviction |
| ScanSentinel.AlwaysLeastIff | scripts/polsim.py:51-70 | those lengths are exactly the ones at which every run of the scan, on every trace, fetches the least; otherwise it can drop a key that is used again and fetch once more than needed |
| BeladyPolicies.BisectRight | scripts/polsim.py:65 | splits a use list at a position |
| BeladyPolicies.NextFromList | scripts/polsim.py:65-66 | the use list and bisection give the key's next use |
| Recency.ByLastUseIs | scripts/simcache.py:33-38 | moving each key to the end leaves every key of a stream once, one before another exactly as their last uses are |
| Lru.OrderIsYoungest | scripts/simcache.py:33-38 | LRU of size n holds the n most recently used keys, oldest first |
| Lru.SmallerIsSuffix | scripts/simcache.py:33-38 | the order of a smaller LRU cache is a suffix of a larger one's after every access |
| Lru.MissesFallWithCapacity | scripts/belady_bound.py:40-50 | LRU misses never rise with capacity |
| Lru.LruIsSchedule | scripts/belady_bound.py:40-50 | LRU is a schedule: its misses are the fetches of one |
| Lru.MissLadder | scripts/belady_bound.py:84-97 | distinct keys <= OPT <= LRU, with equality once the capacity holds all keys |
| LruCaches.LruCache.Access | scripts/simcache.py:33-38 | a hit exactly when resident; the order becomes one LRU step of the old order |
| LruCaches.TwoTier.Access | scripts/simcache.py:53-65 | the back tier's order followed by the front tier's makes one LRU step of the joint size; tiers stay disjoint; the front tier is an LRU cache by itself |
| LruCaches.RunTwoTier | scripts/simcache.py:53-65 | on every stream the hits and misses are those of one LRU cache of size n1 + n2 |
| LruCaches.RunLru | scripts/simcache.py:33-38 | hit sequence of LRU of size n |
| LruCaches.SimLru | scripts/belady_bound.py:40-50 | miss count of LRU |
| LruCaches.InsertThenEvict | scripts/policy_sim.py:34-46 | inserting before evicting gives the same misses as LRU for S >= 1, and misses every access for S = 0; the scored misses are exactly those at token t0 or later |
| PinnedPolicies.RunPinned | scripts/policy_sim.py:49-66 | the pinned/LRU split computes the split run |
| PinnedPolicies.PinnedLru | scripts/policy2.py:56-84 | with a fixed pinned set the single list that skips pinned keys computes the list run |
| PinnedPolicies.KeyAgrees | scripts/policy_sim.py:55-65 | with fewer pins than slots one access keeps split and list describing each other: same residents, same order of unpinned keys, same misses |
| PinnedPolicies.RunAgrees | scripts/policy_sim.py:49-66 | the same over a whole trace |
| PinnedPolicies.SameMissesIff | scripts/policy_sim.py:58-62 | the two programs have the same misses on every trace exactly when there are fewer pins than slots |
| ScoredMisses.PinnedScored | scripts/policy_sim.py:49-66 | the scored misses of the split are its misses less those of the tokens before t0 |
| ScoredMisses.ListScored | scripts/policy2.py:56-84 | the list's counts are the numbers of requests whose key is not resident, in all and of tokens from t0 on |
| RepinnedList.PinnedLruRepinned | scripts/policy2.py:56-84 | with re-pinning the returned counts are those of a run of the policy: every key counted, the most frequent pinned and the counts decayed at the first request of every due token, the list served with the pins of the moment; and the misses are the fetches of a schedule, so never below OPT |
| ScoredMisses.RepinScored | scripts/policy2.py:56-84 | of every run of the policy with re-pinning the two counts are those numbers too |
| ScoredMisses.RepinsAt | scripts/policy2.py:62-70 | the pins change at the first request of a token that is a positive multiple of the period, to the most frequent keys by then, that request's own counted, and at no other |
| RepinnedList.LosesPinIff | scripts/policy2.py:72-83 | a request evicts a pinned resident exactly when it misses on a cache full of them |
| RepinnedList.PinnedSurvive | scripts/policy2.py:62-83 | with fewer pins than slots no request of a run evicts a key pinned at the time |
| FrequencyPinned.Access | scripts/policy_sim.py:76-93 | one request computes the step of the policy, with its three victim searches; the list stays the residents without the pinned ones, and a pinned resident is lost exactly when a miss finds every slot pinned |
| FrequencyPinned.Repin | scripts/policy_sim.py:95-101 | re-pinning gives the order its two passes describe, which is the residents without the new pins |
| FrequencyPinned.MostCommon | scripts/policy_sim.py:95 | n keys none of which counts less than a key left out |
| FrequencyPinned.RunFlfu | scripts/policy_sim.py:69-106 | for every pin fraction the returned counts are those of a run of the policy: each token's requests served, then at each re-pin the most frequent keys pinned, the order rebuilt and the counts decayed; and the misses are the fetches of a schedule, so never below OPT |
| FrequencyPinned.RequestsKeep | scripts/policy_sim.py:76-93 | at every request of a token the list, the residents and the pins fit together, and with fewer pins than slots none finds every slot pinned |
| FrequencyPinned.PinnedSurvive | scripts/policy_sim.py:76-101 | with fewer pins than slots a key pinned and resident before a token of a run is resident after it, re-pin included |
| FrequencyPinned.PinsFit | scripts/policy_sim.py:70 | there are fewer pins than slots exactly for a pin fraction below one |
| FrequencyCounts.PinCountIs | scripts/policy_sim.py:70 | the number of pins is the largest whole number not above S * pin_frac, and none for a fraction that is not positive |
| FrequencyCounts.RunCounts | scripts/policy_sim.py:73-105 | over a whole run the count of any key starts at 0, grows by its occurrences in each token, and at a re-pin is multiplied by the decay, to nothing below a quarter |
| FrequencyCounts.RepinsFade | scripts/policy_sim.py:95-105 | so after several re-pins, if it was never forgotten between, it is the sum of the occurrences of each period, faded by the decay once for every re-pin since |
| ScoredMisses.FlfuScored | scripts/policy_sim.py:69-106 | the scored misses of a run are its misses less those before t0 |
| FrequencyPinned.FlfuIsSplit | scripts/policy_sim.py:76-93 | a request is the step of `run_pinned` unless a miss finds every slot pinned |
| ByteEncoding.Gpt2Table | scripts/gen_tool_prompt_vectors.py:88-100 | the table maps every byte to its code point |
| ByteEncoding.CodepointIs | scripts/gen_joyai_pretok_vectors.py:72-83 | the code points in numbers: 0 to 32 from 256 on, 127 to 160 from 289 on, 173 at 323, every other byte at itself |
| ByteEncoding.CodepointInjective | scripts/gen_joyai_pretok_vectors.py:72-83 | two bytes never share a code point |
| ByteEncoding.ByteEncodeInjective | crates/v4flash-core/src/tokenizer.rs:449-492 | byte encoding loses nothing |
| ByteEncoding.ByteEncodeConcat | scripts/gen_tool_prompt_vectors.py:103-104 | encoding distributes over concatenation |
| ByteEncoding.EncodedHasNoBlank | scripts/gen_tool_prompt_vectors.py:584 | no encoded text holds a space or newline, so the corpus separator and merge separator are unambiguous |
| Bpe.BestOfIsLeast | crates/v4flash-core/src/tokenizer.rs:377-420 | the scan finds the leftmost adjacent pair of least rank |
| Bpe.MergeByHeap | crates/v4flash-core/src/tokenizer.rs:296-372 | merging over a linked list with a lazily invalidated heap yields exactly the pieces of rescanning for the lowest rank |
| Bpe.MergePair | crates/v4flash-core/src/tokenizer.rs:339-352 | one heap merge is one greedy merge, and every mergeable neighbour pair stays in the heap |
| Bpe.BpeEmitPiece | crates/v4flash-core/src/tokenizer.rs:296-372 | appends the ids of the greedy encoding |
| Bpe.BpeEmitPieceGreedy | crates/v4flash-core/src/tokenizer.rs:377-420 | appends the same ids |
| EmittedIds.PieceIds | crates/v4flash-core/src/tokenizer.rs:296-420 | a piece from bytes to ids: a symbol per byte; one after another the lowest-rank pair, the leftmost on a tie, is joined until no pair has a rank; then each symbol gives its own id, or, when it is no token, the ids of its bytes that are, in order |
| VocabTrim.FromSparseParts | crates/v4flash-core/src/tokenizer.rs:188-222 | the loops build the whole vocabulary: a merge has a rank exactly when it is listed, namely its last place in the list; a text has an id exactly when it is listed, namely that of its last entry; the text of every id, with gaps empty; and the BOS, EOS and control-token lookups |
| VocabTrim.FirstListedMerges | crates/v4flash-core/src/tokenizer.rs:205-206 | of the pairs of a piece the one listed first merges, the leftmost of equal ones |
| VocabTrim.NothingListed | crates/v4flash-core/src/tokenizer.rs:205-206 | a piece without a listed pair is done |
| VocabTrim.ListOrderDecides | crates/v4flash-core/src/tokenizer.rs:205-206 | with the merges of b c and a b listed in either order, abc becomes a, bc or ab, c |
| VocabTrim.TextOfId | crates/v4flash-core/src/tokenizer.rs:188-222 | the text of a token's id is the token |
| VocabTrim.IdsSpellPiece | crates/v4flash-core/src/tokenizer.rs:188-222 | the texts of a piece's ids spell its byte encoding, when characters and merge results are tokens |
| VocabTrim.TrimKeepsNames | scripts/gen_tool_prompt_vectors.py:583-603 | a trimmed vocabulary finds the control tokens under the same ids when the generator lists them |
| VocabTrim.GreedyKept | scripts/gen_tool_prompt_vectors.py:603 | dropping merges whose result does not occur in the corpus changes no greedy merge of symbols that do |
| VocabTrim.TrimKeepsPiece | scripts/gen_tool_prompt_vectors.py:583-603 | every piece whose encoding occurs in the corpus gets the same parts and the same ids from the trimmed vocabulary |
| VocabTrim.TrimKeepsCorpus | scripts/gen_joyai_pretok_vectors.py:106-108 | every slice of every covered text does |
| VisionLayout.SolveIs | scripts/gen_vision_layout_vectors.py:37-64 | the fitted grid in numbers, branch by branch, without the square root |
| VisionLayout.SolveWithinTwo | scripts/gen_vision_layout_vectors.py:37-64 | in all three branches the fitted grid costs at most two tokens more than the budget |
| VisionLayout.SolveTotal | scripts/gen_vision_layout_vectors.py:37-64 | from a budget of eight no branch raises, and for every downsampling ratio exactly the grids that keep a cell are not empty |
| VisionLayout.AlwaysFitsIff | scripts/gen_vision_layout_vectors.py:37-64 | the fit works for every image exactly when the ratio is at least two and the budget at least eight |
| VisionLayout.SafeResize | scripts/gen_vision_layout_vectors.py:67-75 | returns the image's own grid if it fits, and otherwise the first of at most three solves that does; it fits under the limit less the compress pads |
| VisionLayout.AlwaysSafeIff | scripts/gen_vision_layout_vectors.py:37-75 | every image, rounded up to whole patches, gets a grid that is not empty exactly when the ratio is at least two and the limit at least thirteen |
| VisionLayout.PermIsPermutation | scripts/gen_vision_layout_vectors.py:97-118 | the kept indices are a permutation of all h * w aligner rows |
| VisionLayout.PermFollowsSlots | scripts/gen_vision_layout_vectors.py:111-115 | they are in one-to-one order with the image slots of the body |
| VisionLayout.BuildImageBlock | scripts/gen_vision_layout_vectors.py:97-118 | length is the grid's count plus the compress pad; the body starts at and spans a multiple of four; the filled lists and transposition give the interleaved body |
| VisionPlan.Plan | scripts/gen_vision_layout_vectors.py:78-94 | the sides it plans for: the width capped at eight heights, both enlarged by the root of 147456 over the area where that is more, and then the image's own whole-patch grid if it costs at most 381 tokens and the first fitting solve if not |
| VisionPlan.KeepsItsSides | scripts/gen_vision_layout_vectors.py:78-94 | an image at most eight times as wide as high, of at least 147456 pixels, whose own grid costs at most 381 tokens, keeps it: 14 * ceil(height / 14) by 14 * ceil(width / 14) |
| VisionPlan.EnlargedArea | scripts/gen_vision_layout_vectors.py:81-84 | an image with fewer pixels is enlarged to the largest whole sides of its ratio with at most 147456: one more on both would be over, and the ratio is kept to less than one pixel |
| VisionPlan.PlanBlock | scripts/gen_vision_layout_vectors.py:78-118 | every non-empty image gets a block of at most MAX_N_TOKEN wherever it starts, whose grid is the plan's: h newlines, rows of w cells, and h * w distinct kept indices |
| ImageVisibility.GetImageVisible | scripts/gen_image_visibility_vectors.py:27-53 | both scans compute the bounded distances to the last start and next end |
| ImageVisibility.VisibleInImage | scripts/gen_image_visibility_vectors.py:27-53 | inside an image these are the distances to its own ends |
| ImageVisibility.VisibleOutside | scripts/gen_image_visibility_vectors.py:27-53 | outside images they are zero |
| ImageVisibility.GetWindow | scripts/gen_image_visibility_vectors.py:56-65 | a row lists exactly the keys its window and visible spans allow, one after another, with -1 in place of those past its reach |
| ImageVisibility.TextRowSees | scripts/gen_image_visibility_vectors.py:56-65 | a text row sees exactly its causal window |
| ImageVisibility.ImageRowSees | scripts/gen_image_visibility_vectors.py:56-65 | for an image of any length, an image row sees exactly the keys from the farther of its window and its capped reach back to the nearer of its image's end and its capped reach ahead, at most window + limit of them |
| ImageVisibility.FittingRowSees | scripts/gen_image_visibility_vectors.py:56-65 | a row of an image shorter than the limit sees exactly its causal window and its image, and nothing after it |
| ImageVisibility.WholeImageVisibleIff | scripts/gen_image_visibility_vectors.py:27-65 | all rows of an image see all of it exactly when its end is less than limit after its start, or just limit after it and the window is longer than the limit |
| ImageVisibility.LegalIff | scripts/gen_image_visibility_vectors.py:118-119 | for images of any length, any window and any limit, a cut is legal exactly when no row before it sees a key at or after it |
| LazyGreedy.EvaluateLoop | scripts/sim.py:34-46 | the loops compute the mean cost per token summed over layers, and per layer the mean cost and mean picks on either tier |
| LazyGreedy.BuildWhere | scripts/sim.py:97-99 | every expert is listed with exactly the tokens that pick it |
| LazyGreedy.SavingsIsDrop | scripts/sim.py:102-107 | a gain is exactly what placing the expert takes off the layer's cost |
| LazyGreedy.GainRises | scripts/sim.py:108-124 | a candidate's gain is at most the table's rise above what it was at any earlier placement |
| LazyGreedy.PlacementDrops | scripts/sim.py:102-107 | and exactly what it takes off `evaluate` |
| LazyGreedy.RepushFreshens | scripts/sim.py:122-124 | a re-push turns a stale entry fresh and adds none, so it cannot go on between two placements |
| LazyGreedy.TopIsBest | scripts/sim.py:122-125 | an entry that passes the re-push test saves as much as any candidate, up to the slack and however much the cost table lets savings rise |
| LazyGreedy.SteadyPlacesBest | scripts/sim.py:108-132 | where savings do not rise no run, turn by turn, places an expert that saves less than some candidate, up to the slack |
| LazyGreedy.Greedy | scripts/sim.py:92-135 | the placements are those of a run of the loop, turn by turn, to its end; at every trajectory point the running total is `evaluate` of the sets so far, both budgets hold and tiers are disjoint; every placement is as good as any candidate and none worth more than the threshold is left, up to the slack and the rise of the cost table |
| LazyGreedy.Place | scripts/sim.py:126-132 | the pick counters stay the counts of the sets |
| CostTables.LinearDiminishes | scripts/sim.py:10-28 | lin73 and lin98 have diminishing savings on both tiers |
| CostTables.LeastIsLeast | scripts/sim2.py:6-15 | a claim-capped cell is the least cost of any counts not above it |
| CostTables.CappedDiminishes | scripts/sim2.py:6-18 | the claim-capped lin73 table has diminishing savings on both tiers |
| CostTables.HostOnlyIff | scripts/sim.py:10-28 | on the host tier the savings of each of the five tables rise by exactly 0 (linear) or 0.1 us (measured) |
| CostTables.CappedHostOnlyIff | scripts/sim2.py:6-17 | and so do those of the five claim-capped tables |
| CostTables.ShippedRunsAreSteady | scripts/sim.py:144-168 | every run of the two scripts meets what the greedy's best-candidate result needs, with that rise |
| BestPicks.BestPickIff | scripts/sim.py:108-132 | on the host tier every run of a shipped table, claim-capped or not, always places a best candidate exactly when the table has not the measured link |
| BestPicks.MeasuredMisses | scripts/sim.py:92-135 | for two layers in which one token picks the same six experts, every complete run on a measured table places an expert for 92.6 us while another one would save 92.7 |
| Scheduler.EventLoop | scripts/sched_sim2.py:61-73 | the tasks run form a schedule: each once, ready when its last predecessor ends, started then or when its resource is handed over, no overlap on a resource; a task joins the queue when its last predecessor is served, and the earliest ready is served first, the first to join of equal ones; nothing due is left |
| Scheduler.EveryTaskRuns | scripts/sched_sim2.py:65-73 | in an acyclic graph with one source every task runs |
| Scheduler.EndsBeforeLast | scripts/sched_sim2.py:74 | with one sink everything ends before it does |
| Scheduler.BusyWithinTotal | scripts/sched_sim2.py:83-84 | busy time is all the work there is for the resource and at most the total |
| Scheduler.MaxEnd | scripts/sched_sim2.py:73 | the end of the last predecessor |
| SchedulerBuild.Dag.Add | scripts/sched_sim2.py:21 | appends one task with no edges |
| SchedulerBuild.Dag.Dep | scripts/sched_sim2.py:15-16 | records the edge at both ends and counts it |
| SchedulerBuild.Dag.Layer | scripts/sched_sim2.py:28-51 | appends exactly the tasks of one layer of a sub-batch: their resources, durations and edges |
| SchedulerBuild.Build | scripts/sched_sim2.py:20-59 | builds exactly the planned graph: every task with its resource, duration and predecessors |
| SchedulerBuild.BuildHangs | scripts/sched_sim2.py:20-59 | that graph has the root as its only source and the last step's end as its only sink, no cycle, and work as soon as there is a step |
| SchedulerRun.Simulate | scripts/sched_sim2.py:17-84 | on exactly the planned graph every task runs once, in that order; the total is the end of the last task and the latest end; for every sub-batch it is at least steps times its path in the configuration's numbers, link and round trip included; with one sub-batch and no misses it is steps times the longest of its three ways through a layer; and every resource is busy for exactly the durations of its tasks, in the configuration's numbers, at most the total |
| SchedulerPath.RunTakes | scripts/sched_sim2.py:20-59 | however tasks wait for each other, the end of the last is at least steps * (the first layer's attention of the sub-batches before, then layers * (attention + rtt + 26000 b / 1.5e6 + 6 b remote_share * 0.088 + 0.02) + 1.4 + tail), for every sub-batch |
| SchedulerExact.RunTakesExactly | scripts/sched_sim2.py:20-74 | with one sub-batch and no misses the end of the last is exactly steps times the layers' local, remote or own-expert way, whichever is longest, the head and the tail |
| SchedulerExact.PathIsTimeIff | scripts/sched_sim2.py:20-74 | and that is the bound exactly when there is no step or layer or the remote way is the longest |
| SchedulerWork.RunIsBusy | scripts/sched_sim2.py:83-84 | the work of every resource in the configuration's numbers, misses included |
| TraceTracks.FirstFit | scripts/evt2perfetto.py:543-552 | no two slices on a sub-track overlap, and as many slices as there are sub-tracks overlap pairwise |
| TraceTracks.FewestLanes | scripts/evt2perfetto.py:516-521 | no way of separating the slices uses fewer |
| TraceTracks.Tracks.AddSlice | scripts/evt2perfetto.py:536-539 | records a slice with its arguments unless an end is NaN or precedes the start |
| TraceTracks.Tracks.Tid | scripts/evt2perfetto.py:525-531 | one thread number per label, announced once |
| TraceTracks.Tracks.Finish | scripts/evt2perfetto.py:541-558 | every pending slice becomes one event, with its arguments, on the first sub-track that is free when it starts, which makes a fewest separation, and nothing stays pending; slices of equal times keep their order |
| TraceTracks.ThreadIsSubTrack | scripts/evt2perfetto.py:553-554 | two slices share a thread exactly when they share a sub-track or one track is named like the other's sub-track |
| TraceTracks.ThreadsApart | scripts/evt2perfetto.py:516-521 | without such names no thread shows overlapping slices |
| TraceTracks.KeepsApartIff | scripts/evt2perfetto.py:516-554 | a set of tracks keeps overlapping slices on different threads, whatever is pending, exactly when no track is named like a numbered sub-track of another |
| TraceTracks.StreamsCollide | scripts/evt2perfetto.py:553 | two streams of one device for which it does not: one called like the other's sub-track |
| TraceTracks.DrawnApartIff | scripts/evt2perfetto.py:541-558 | under the 1 ns floor the events of a finished track stay apart on every sub-track exactly when no slice under 1 ns is followed there within that nanosecond |
| TraceTracks.ShownTimes | scripts/evt2perfetto.py:533-556 | times are microseconds from the start of the trace: a slice starting there has ts 0, 1000 ns are 1, and a slice of 1 ns or more ends where its ts and dur say |
| TraceTracks.ShortSliceOverlaps | scripts/evt2perfetto.py:554 | two pending slices that do not overlap, are put on one sub-track, and are drawn overlapping |
| Intervals.Merge | scratch/prefill_trace/lib.py:32-40 | the same points as sorted intervals with gaps |
| Intervals.Union | scratch/prefill_trace/lib.py:17-29 | the measure of the covered points |
| Intervals.TotIsMeasure | scripts/final5.py:29 | the summed lengths of intervals without overlap are their measure |
| Intervals.Sub | scripts/final5.py:17-28 | exact set difference |
| TimeSplit.KeepLeaves | scripts/leaves.py:4-13 | keeps, each once, exactly the slices that no slice behind them starts inside of, by start and of equal starts the longest first; in order and without overlap, whatever the slices |
| TimeSplit.LeavesContainNone | scripts/leaves.py:4-13 | no kept slice contains a slice of positive length with another start or end, equal starts included |
| TimeSplit.Win | scripts/final5.py:8-10 | on such leaves the spans cover exactly the window's ticks at which a wanted leaf runs: looking back one leaf is enough |
| TimeSplit.SplitCall | scripts/final5.py:32-39 | busy and blocked are the numbers of ticks at which a device runs, and at which none does and the host waits; with host time they add up to the wall time, and both computations of host time agree |
| TimeSplit.SplitTrace | scripts/final5.py:1-39 | the same from raw slices through the leaf filter, for every trace |
| TimeSplit.Partition | scripts/final5.py:52 | a list's total is what a cut takes plus what it leaves |
| Concurrency.Conc | scratch/prefill_trace/b2bw.py:31-39 | the sweep integrates to the summed clipped lengths and its busy time is the measure of their union |
| Concurrency.NetIsDepth | scratch/prefill_trace/b2bw.py:32 | the running sum of start and end events is the number of intervals covering a tick |
| Concurrency.NetOfSorted | scratch/prefill_trace/b2bw.py:32 | in any order of equal events |
| Concurrency.ClippedCovers | scratch/prefill_trace/b2bw.py:32 | clipping keeps exactly the window's part |
| Evt1Reader.Records | scripts/evt2perfetto.py:76-122 | for every chunking of the file, with a string table or without: record i is delivered exactly when no record up to i is past the stop and its time is in [lo, hi], in file order; the string table is what the string records read say; it fails exactly at one of those that is malformed; and it is what one pass over the whole file does |
| Evt1Window.WalkDelivers | scripts/evt2perfetto.py:97-118 | one pass over a list of records does so |
| Evt1Window.TimeIsTime | scripts/evt2perfetto.py:108 | a record's time is that of its first time field that is not NaN, and NaN if there is none |
| Evt1Window.ParseIs | scripts/evt2perfetto.py:97-101 | the bytes of a file are its records one after another, kind and count in two bytes each and then eight bytes a value, and a rest too short for one |
| Evt1.WithoutTable | scripts/evt2perfetto.py:105-107 | without a string table nothing fails, and the records are those a reader with one delivers when it does not fail |
| Evt1Reader.Drain | scripts/evt2perfetto.py:97-118 | what is complete in a buffer does not depend on what follows |
| Evt1.ParseJoin | crates/v4flash-kernels/src/het/evtrace.rs:511-521 | reading back written records |
| Evt1.RawHead | scripts/evt2perfetto.py:113-114 | the bytes sliced out of a file are the record's encoding |
| Evt1Files.ReadRecords | scripts/evtrace.py:41-73 | one pass over a file keeps, in order and at their places, all records but the string definitions, and its table is what those say |
| Evt1Files.ReadAllIs | scripts/evtrace.py:41-73 | so does the pass over a list of records |
| Evt1Tables.ReadFile | scripts/evtrace.py:41-73 | every kind's records in file order as dictionaries of named fields, with the texts of string ids from the table the whole file leaves; it fails exactly when a string record is malformed or a string id is infinite |
| Evt1Tables.RowIs | scripts/evtrace.py:58-66 | field i of a row holds value i of its record, the last of equal names, up to the shorter of names and values, and role and pid are the file's |
| Evt1Tables.RowsAreAt | scripts/evtrace.py:66 | the rows of a kind are those of its records, in file order |
| Evt1Tables.TextsLookedUp | scripts/evtrace.py:67-72 | a row with a string-id field gains its text and nothing else, and every other row stays as it was |
| Evt1Tables.ResolvableIff | scripts/evtrace.py:67-72 | the lookups succeed exactly when no string id of a row is infinite |
| Evt1Tables.TextIs | scripts/evtrace.py:67-72 | a text is what the table says of the id, and `?` for a missing, NaN or unknown one |
| Evt1Files.ReadersAgree | scripts/evt2perfetto.py:76-122 | without a window the streaming reader delivers exactly the timed records of the whole-file reader, with its string table, and fails on the same files |
| Evt1Files.Cut | scripts/evt2perfetto.py:276-289 | a written cut reads as exactly the records before the stop whose time is from <= t <= to, at their places, with every string defined by then; it raises exactly where the code does |
| Evt1Files.CutIsInWindow | scripts/evt2perfetto.py:276-289 | every record of a written cut has a time with from <= t <= to |
| Evt1Files.KeptAgain | scripts/evt2perfetto.py:276-289 | reading a cut again with the same window keeps every record |
| Evt1Files.StrRoundTrip | crates/v4flash-kernels/src/het/evtrace.rs:235-249 | a string record decodes to its id and text, cut at 660 bytes |
| TwoLanePrefill.BoundaryCount | scripts/ced_edit.py:487-502 | the number of completed rows after p positions is p / ratio |
| TwoLanePrefill.ArenaRowIff | crates/v4flash-kernels/src/het/forward_prefill.rs:7135-7150 | the multi-stream arena's check of a row holds exactly when its store has one row per boundary before the row |
| TwoLanePrefill.StoreIs | scripts/ced_edit.py:487-502 | a store fed every position holds one row per boundary, each pooling its own positions |
| TwoLanePrefill.State.PreMoe | crates/v4flash-kernels/src/het/forward_prefill.rs:7130-7176 | a layer writes its own store or counts one by position; it fails exactly when a store is missing or too short |
| TwoLanePrefill.State.Layer | crates/v4flash-kernels/src/het/forward_prefill.rs:3377-3450 | lending a source's store for both lanes gives it back unchanged |
| TwoLanePrefill.State.RunRange | scripts/ced_edit.py:119-398 | a range that its mode fits never fails on a ready state; what attention reads does not depend on the lane cut; rows leave at the right depth |
| PromptPrefill.PushRows | scripts/ced_edit.py:651-664 | the ring holds the last SWA_WINDOW rows entering the decoder, in order, from either lane |
| PromptPrefill.ReplaySegment | scripts/ced_edit.py:756-832 | the replay reads the store the source-only pass wrote and leaves it as it was |
| TwoLanePrefill.CausalRows | scripts/ced_edit.py:487-492 | the rows a position may read pool no later position |
| PromptPrefill.Prefill | scripts/ced_edit.py:589-832 | for every chunking and lane cut no call fails; the reads it makes are, in order, chunk by chunk and layer by layer: without ced every layer at every position, with ced every encoder layer at every position and then every decoder layer at exactly the last min(t, 128); each reads exactly (p + 1) / ratio rows of positions up to p; stores end holding the prompt, and the head gets the last position's row after all layers |
| TwoLanePrefill.OldCountLeaks | scripts/ced_edit.py:482-486 | the replaced formula is right for lane A exactly when lane B completes no row |
| TwoLanePrefill.OldCountReadsTheFuture | scripts/ced_edit.py:489-492 | otherwise it read a row pooling a later position |
| PromptPrefill.V41Sound | crates/v4flash-kernels/src/config.rs:135-150 | the shipped layer tables satisfy what the above needs |
| KvStore.LcpIsLongest | scripts/kvstore_analysis/sim.py:28-30 | a common prefix of length n exists exactly up to the computed length |
| KvStore.WriteChunks | scripts/kvstore_analysis/sim.py:59-63 | afterwards the keys are exactly the whole chunks of all prompts seen; bytes are new keys times chunk size |
| KvStore.RestoredBetween | scripts/kvstore_analysis/sim.py:38-57 | today's reuse <= the chunked restore <= the longest common prefix, for every prompt |
| KvStore.TailChunksStored | scripts/kvstore_analysis/sim.py:59-67 | every whole chunk below any restore point is stored |
| KvStore.EncTails | scripts/kvstore_analysis/sim.py:66-67 | encoder tails at exactly the multiples of K strictly between restore point and end |
| KvStore.Replay | scripts/kvstore_analysis/sim.py:38-68 | one prompt: deepest usable tail, writes, and totals |
| KvStore.Run | scripts/kvstore_analysis/sim.py:32-71 | one after another every prompt takes today's reuse, and the deepest full or encoder tail that ends within it and the prefix it shares, with the encoder tails at the multiples of K its end leaves; over all prompts restored totals are ordered and every byte written is a chunk stored once, a full tail or an encoder tail |

## Left out

- Kernels, GPU and FFI code, network, server, disk and environment reading, logging, JSON and perfetto encoding of event arguments, plotting and statistics: no unbounded claim, or outside libraries.
- IEEE rounding: every float is exact. The placement's 1e-9 slack and the scheduler's times are `real`.
- BeladyPolicies.ScanBelady: for capacity 1 and up; with capacity 0 the source removes a victim that does not exist.
- BeladyPolicies.SimOpt: for capacity 1 and up; with capacity 0 the source's victim loop pops an empty heap.
- PinnedPolicies.PinnedLru: for one slot and up, as `RepinnedList.PinnedLruRepinned`; with none the source looks for a victim in an empty list.
- FrequencyPinned.RunFlfu: for one slot and up; with none the source looks for a victim in an empty set.
- Bpe.MergeByHeap: merge ranks are unbounded naturals, not 32-bit.
- VocabTrim.TrimKeepsPiece: the pre-tokenizer that cuts a text into pieces is not modelled; the statement is for every slice.
- VisionLayout.SafeResize: the pixel operations around it and the vision tower are not modelled.
- LazyGreedy.Greedy: the result holds for any cost table with its rise; `CostTables` gives the rise of the shipped ones. `greedy2` is the same method with its threshold, over all layers. Picks are indexed by layer first, and the total equals `evaluate` for tokens without repeated picks, which is what a top-k router produces.
- LazyGreedy.EvaluateLoop: `evaluate2` counts the same on disjoint tiers and is not modelled apart.
- Scheduler.EventLoop: durations are non-negative. `cnt` only has to differ between queue entries, so its order is free.
- SchedulerRun.Simulate: the Poisson draws are a list, zero past its end; the token rate and the link coverage are not computed.
- TraceTracks.Tracks.Finish: slices that compare equal may be taken in any order; instants and counters are not modelled.
- TimeSplit.SplitCall: the attribution of host time to named gaps is not modelled.
- Concurrency.Conc: for intervals that end no earlier than they start and a window of positive length.
- Evt1Files.Cut: choosing the files of the same boot and reading the first record's time are not modelled; JSON is any encoding that decodes to what was encoded; text is bytes, before UTF-8 decoding.
- Evt1.TimeField: only the digits 0 to 9 count as digits of a name; `\d` in the source also matches those of other scripts.
- Evt1Tables.ReadFile: the header is taken as decoded; folding device counters into steps (`merge_step_dev`) is not modelled.
- TwoLanePrefill.State.PreMoe: the multi-stream arena is not modelled beyond its row check (`ArenaRowIff`), nor the clamp of a count to the scratch stride.
- PromptPrefill.Prefill: tensors, experts, the raw window, image spans and the multi-stream arena are not modelled; a row is its position and the layers it has been through. Lane cuts and chunk sizes are arbitrary.
- KvStore.Run: the chunk key holds the prefix itself; collisions of the 64-bit hash are not modelled.
- The policies `LFU`, `LRUPinned`, `Partition`, `lru2q` and the probation list of `polsim.py`: no claim is made about them beyond their counts.
