# Verified models of the verl fork's scheduling, layout and state-machine kernels

This Dafny project models the parts of the repository in which indices, queues and in-place state are the
point, and proves what they promise. Tensors are sequences (or sequences of rows) over an abstract element
type; a collective among ranks is an exchange of values between the ranks of one world.

- **Length balancing** (`KarmarkarKarp*.dfy`, `GreedyPartition.dfy`, `MicroBatches.dfy`): the largest-differencing
  partitioner as mutable sets and states in a priority queue, proved against value-level merges; the greedy
  partitioner; dynamic micro-batching and its undoing.
- **Activation offloading** (`Offload*.dfy`): the handler's fields under any legal sequence of pushes, pops and
  commits. `OffloadRuns.Expected` predicts the whole state from the calls made so far; the safety theorems say
  exactly which legal runs succeed, and that these never leave that prediction.
- **Context-parallel packing** (`PackedSeqs.dfy`): zig-zag slices written in place on every rank, and unpacking.
- **Pipeline stages and layer placement** (`PipelineShards.dfy`, `LayerPlacement.dfy`, `LayerMerging.dfy`): the search for
  stage sizes and its closed form; layer maps, offsets, renumbering, file numbers and global ranks.
- **Fused weights** (`Blocks.dfy`, `WeightLayout.dfy`): the interleaved attention layout and the gate-up layout,
  written by the loader and taken apart by the saver, the converters and the mergers.
- **Agent loop** (`ServerHeap.dfy`, `StickyCache.dfy`, `ServerManager.dfy`, `ToolAgentLoop.dfy`): the load
  balancer's heap and sticky cache; the multi-turn token loop.
- **Sequence parallelism, buffers and dynamic sampling** (`Ulysses.dfy`, `MemoryBuffers.dfy`, `GroupFilter.dfy`,
  `DapoAccumulator.dfy`).
- **Reasoner** (`RewardScore.dfy`, `SelectPaths.dfy`): path scoring and path selection.

`Arithmetic.dfy`, `Sequences.dfy`, `Sorting.dfy` and `Wrappers.dfy` hold shared vocabulary. Code that updates state is modelled
by methods and classes over arrays and fields, each proved equal to a function or to a stated property; the
lemmas are about those functions.

Where the code and what it is meant for part ways, the model follows the code and gives the exact condition:

- `PackedSeqs.WritableIffPackable`: with context parallelism a row shorter than half its padded length makes a
  slice assignment fail, except when a single token is left for the last rank, which is then repeated.
- `OffloadSafety.BackwardPerformed`, `OffloadRecovery.CycleSucceedsIff`: a backward commit raises if tensors of the group
  it brings back share a key but differ in size; `ViewCannotReturn` saves a tensor and a shorter view of its start.
- `OffloadSafety.DeliveredFaithfulIff`: a saved tensor that shares its key with an earlier one of its group comes
  back as a reshaped copy of the earlier one; `TransposedAlias` is a run in which that is the wrong contents.
- `PipelineShards.SplittableByRemainder`: the search raises an index error on inputs that pass both its checks;
  `FiveLayersOnFourStages` is the smallest case.
- `LayerPlacement.OffsetsAgreeIff`: the layer map and the offsets differ for a virtual pipeline on one stage, as in
  `TwoChunksOnOneStage`.
- `LayerMerging.NumberedInOrderIff`: a state dict without layers still moves the layer numbers on by one, as in
  `EmptyChunkShifts`.
- `WeightLayout.ConvertQkvShard`: with fewer query groups than ranks the code divides by zero, as in `OneHeadTwoRanks`; and
  with fewer key-value heads than ranks, heads are lost unless they divide the ranks (`KeptOnceIff`).
- `OffloadLeftovers.CycleSurvivesIff`: a tensor that is never taken back keeps its tag, and a later push that is given the
  same tag fails, as in `LeftoverRefusesPush`.
- `ToolAgentLoop.FaithfulIff`: a run in which nothing is said returns the prompt as its response; `BoundedIff`: without a
  turn limit the loop need not end.
- `GreedyPartition.GreedySizesPass`: the greedy equal mode fails its own closing assert unless k divides n, as in
  `OneLengthTwoBins`.
- `Ulysses.RoundTripIff`: the two exchanges are inverse exactly if fewer rows than there are ranks were cut off, and these
  were zero; `PaddingRowLost` and `PaddingTooLong` break one condition each, and in `PaddingKept` padding stays on. Calls
  that leave the number of true rows at its default are not affected (`RoundTripByDefault`).

A `requires` states what the callers in the repository guarantee; error returns (`Result`, `Option`, `Outcome`)
stand for exceptions and failing asserts. The heap of the partitioner is modelled by "remove the least state",
which `RunIgnoresHeapLayout` and `InitialLive` justify; Python's sorts are modelled by one insertion sort, which
`Sorting.SortInOrder` and `Sorting.SortStable` justify. `dafny verify dfyconfig.toml` checks the project.

## Model

| member | source | states |
|---|---|---|
| KarmarkarKarp.PartLessTotal | verl/utils/seqlen_balancing.py:29-34 | `Set.__lt__` orders any two different sets one way only |
| KarmarkarKarp.PartLessTransitive | verl/utils/seqlen_balancing.py:29-34 | `Set.__lt__` is transitive, so with totality it is a strict total order |
| KarmarkarKarp.PartLessIs | verl/utils/seqlen_balancing.py:29-34 | a set is less if its sum is, then if it has fewer items, then if its first differing item is the smaller pair |
| KarmarkarKarp.SortDescendingIsDescending | verl/utils/seqlen_balancing.py:44 | the sorted sets are in descending order |
| KarmarkarKarp.SortDescendingPermutes | verl/utils/seqlen_balancing.py:44 | sorting keeps exactly the sets it was given |
| Sorting.SortInOrder | verl/utils/seqlen_balancing.py:44 | an insertion sort by any total preorder puts its input in order (used for every sort of the repository modelled here) |
| Sorting.SortStable | reasoner/common/paths.py:37 | and elements that tie keep the order they came in |
| KarmarkarKarp.DescendingUnique | verl/utils/seqlen_balancing.py:58 | any two descending arrangements of the same sets are equal, so the choice of sorting algorithm cannot matter |
| KarmarkarKarp.MergeWellFormed | verl/utils/seqlen_balancing.py:55-58 | merging keeps the width k, the sums in step with the items, and the largest set first |
| KarmarkarKarp.CrossMergeGap | verl/utils/seqlen_balancing.py:56-57 | pairing large sets with small ones leaves any two merged sets within the larger of the operands' spreads |
| KarmarkarKarp.MergeSpread | verl/utils/seqlen_balancing.py:55-62 | a merged state is never more unbalanced than the more unbalanced of its operands |
| KarmarkarKarp.MergeItems | verl/utils/seqlen_balancing.py:55-58 | a merged state holds exactly the items of both operands |
| KarmarkarKarp.UnusedLast | verl/utils/seqlen_balancing.py:36-44 | in a well-formed state the empty sets are exactly those from position Filled on |
| KarmarkarKarp.MergeFilled | verl/utils/seqlen_balancing.py:55-58 | merging p and q non-empty sets gives exactly min(k, p+q) non-empty sets |
| KarmarkarKarp.MergeEvenlyFilled | verl/utils/seqlen_balancing.py:55-58 | if all sets of one operand hold m items and of the other n, all sets of the merge hold m+n |
| KarmarkarKarpRun.RunConserves | verl/utils/seqlen_balancing.py:98-103 | the final state holds every item as often as the queued states did together |
| KarmarkarKarpRun.RunSpread | verl/utils/seqlen_balancing.py:98-103 | a run ends no more unbalanced than its most unbalanced starting state |
| KarmarkarKarpRun.RunFilled | verl/utils/seqlen_balancing.py:98-103 | a run ends with exactly min(k, number of non-empty sets queued) non-empty sets |
| KarmarkarKarpRun.RunEven | verl/utils/seqlen_balancing.py:98-103 | evenly filled states end in an evenly filled state whose sets have the item counts added up |
| KarmarkarKarpRun.LiveHasNoTies | verl/utils/seqlen_balancing.py:64-68 | two queued states that hold something and share no item never tie |
| KarmarkarKarpRun.PopTwoMostUnbalanced | verl/utils/seqlen_balancing.py:64-68 | of two states popped and the rest, each has a difference of largest and smallest sum that is no less than those of all after it, and the greater first set where differences are equal |
| KarmarkarKarpRun.StepIsTurn | verl/utils/seqlen_balancing.py:98-103 | so a turn merges, of the two most unbalanced states, the second into the first, and leaves the others |
| KarmarkarKarpRun.RunIgnoresHeapLayout | verl/utils/seqlen_balancing.py:98-103 | the outcome depends on which states are queued, not on how the heap arranges them |
| KarmarkarKarpResult.InitialLive | verl/utils/seqlen_balancing.py:84-96 | the queue that is built from a length list is one without ties |
| KarmarkarKarpResult.ItemsByLength | verl/utils/seqlen_balancing.py:85-93 | the items are queued by ascending length, and by index where lengths are equal |
| KarmarkarKarpResult.BalancedExactCover | verl/utils/seqlen_balancing.py:136-149 | every index is in exactly one of the returned partitions, once |
| KarmarkarKarpResult.BalancedShape | verl/utils/seqlen_balancing.py:107-111 | there are k non-empty partitions, of n/k indices each in equal mode |
| KarmarkarKarpResult.BalancedLoads | verl/utils/seqlen_balancing.py:98-112 | any two partitions' total lengths differ by at most the largest length, or in equal mode by the widest gap inside one sorted group of k |
| KarmarkarKarpResult.SortIndicesSorted | verl/utils/seqlen_balancing.py:144 | a partition is listed in ascending order |
| KarmarkarKarpResult.FinalNonEmpty | verl/utils/seqlen_balancing.py:94-106 | in unequal mode exactly the first min(k, n) partitions are non-empty |
| KarmarkarKarpObjects.PartSet.Add | verl/utils/seqlen_balancing.py:20-22 | adding appends the item and adds its value to the sum |
| KarmarkarKarpObjects.PartSet.Merge | verl/utils/seqlen_balancing.py:24-27 | merging appends the other set's items and sum and leaves the other set alone |
| KarmarkarKarpObjects.SortSets | verl/utils/seqlen_balancing.py:44 | the same objects, rearranged so that their values are the sorted values |
| KarmarkarKarpObjects.State.constructor | verl/utils/seqlen_balancing.py:37-44 | a new state owns k fresh sets that carry the items, largest first |
| KarmarkarKarpObjects.State.Merge | verl/utils/seqlen_balancing.py:55-58 | the in-place merge of two states that share no object has the value of the merge function |
| KarmarkarKarpObjects.State.GetPartitions | verl/utils/seqlen_balancing.py:46-53 | the index lists of the sets, in order |
| KarmarkarKarpObjects.LeastIndex | verl/utils/seqlen_balancing.py:99 | a scan finds the state that `heappop` returns: the one with the greatest difference of largest and smallest sum, then with the greatest first set |
| KarmarkarKarpObjects.MergeLeastTwo | verl/utils/seqlen_balancing.py:98-103 | one turn of the loop pops the two states that come first in that sense, merges the second into the first in place and pushes the first |
| KarmarkarKarpObjects.MergeAll | verl/utils/seqlen_balancing.py:98-105 | the loop over objects ends in the state that the value-level run predicts |
| KarmarkarKarpObjects.Partition | verl/utils/seqlen_balancing.py:13-112 | `karmarkar_karp` on any input: when it succeeds, what it returns, and which error it ends in otherwise |
| KarmarkarKarpObjects.FinalSizesPass | verl/utils/seqlen_balancing.py:107-111 | the closing assert of equal mode holds of every result |
| KarmarkarKarpObjects.FinalStatePasses | verl/utils/seqlen_balancing.py:136-146 | every condition asserted of the partitions holds of what `karmarkar_karp` returns |
| KarmarkarKarpObjects.CheckAndSort | verl/utils/seqlen_balancing.py:136-146 | the checks pass exactly on k non-empty partitions that cover all indices, and then copies sorted in ascending order come back |
| KarmarkarKarpObjects.BalancedPartitions | verl/utils/seqlen_balancing.py:133-149 | the public function succeeds exactly when n >= k >= 1 and, in equal mode, k divides n; its result is the balanced one, every partition in ascending order |
| GreedyPartition.FirstMin | verl/utils/seqlen_balancing.py:120-123 | the bin picked is the first of those with the least sum |
| GreedyPartition.Lightest | verl/utils/seqlen_balancing.py:120-123 | the inner loop finds that bin |
| GreedyPartition.Greedy | verl/utils/seqlen_balancing.py:114-131 | `greedy_partition` on any input: its partitions, and exactly when it fails and how |
| GreedyPartition.GreedyExactCover | verl/utils/seqlen_balancing.py:119-125 | at every moment each index placed so far is in exactly one bin |
| GreedyPartition.GreedyAscends | verl/utils/seqlen_balancing.py:119-125 | and every bin lists its indices in the order in which they were placed |
| GreedyPartition.GreedySpread | verl/utils/seqlen_balancing.py:119-125 | at every moment, without bias, any two bins' sums differ by at most the largest length |
| GreedyPartition.GreedyLoads | verl/utils/seqlen_balancing.py:114-131 | the same for the loads of the returned partitions |
| GreedyPartition.LightestHasFewest | verl/utils/seqlen_balancing.py:115-123 | with the bias `sum+1` the lightest bin is one with the fewest items |
| GreedyPartition.GreedyCounts | verl/utils/seqlen_balancing.py:115-125 | at every moment of equal mode any two bins' item counts differ by at most one |
| GreedyPartition.GreedyEqualSizes | verl/utils/seqlen_balancing.py:126-130 | when k divides n every bin of equal mode ends with n/k items |
| GreedyPartition.GreedySizesPass | verl/utils/seqlen_balancing.py:126-130 | the closing assert holds exactly when k divides n |
| GreedyPartition.OneLengthTwoBins | verl/utils/seqlen_balancing.py:126-130 | one length over two bins makes it fire |
| MicroBatches.CeilDivIsCeiling | verl/utils/seqlen_balancing.py:185-186 | for a positive divisor `ceildiv` is the quotient rounded up |
| MicroBatches.RoundUpIsLeastMultiple | verl/utils/seqlen_balancing.py:188-189 | for a positive divisor the result is the least multiple not below a |
| MicroBatches.CountIsLeast | verl/utils/seqlen_balancing.py:205-219 | the count is the least multiple of the divisor that leaves room for all tokens (or has a micro-batch per row) and is at least the minimum and every peer's count; no other number is |
| MicroBatches.NegativeDivisor | verl/utils/seqlen_balancing.py:188-189 | a negative divisor rounds down, to the greatest multiple below the count less one |
| MicroBatches.RanksAgree | verl/utils/seqlen_balancing.py:208-217 | ranks that synchronise their counts cut their batches into equally many micro-batches |
| MicroBatches.SortHeavySorted | verl/utils/seqlen_balancing.py:226-232 | the workload sort puts larger sums of squared lengths first, and larger least indices first where these are equal |
| MicroBatches.SortHeavyPermutes | verl/utils/seqlen_balancing.py:226-232 | and keeps exactly the partitions it was given |
| MicroBatches.Rearrange | verl/utils/seqlen_balancing.py:191-244 | exactly when the rearrangement succeeds; then its micro-batches are the rows of the index lists, which together are a permutation of all rows, and as many as the least number that holds all tokens and meets the options |
| MicroBatches.GetReverseIdx | verl/utils/seqlen_balancing.py:246-252 | the loop of assignments computes the reverse map |
| MicroBatches.ReverseIsInverse | verl/utils/seqlen_balancing.py:246-252 | on a permutation the reverse map is its two-sided inverse |
| MicroBatches.Restore | verl/utils/seqlen_balancing.py:264-267 | row i of the data comes to stand at position i of the flattened order |
| MicroBatches.RoundTrip | verl/utils/seqlen_balancing.py:191-267 | row results computed per micro-batch, concatenated and restored, are the row results in the original order, for every accepted batch |
| OffloadWindow.BuildWindowMap | verl/utils/activation_offload.py:189-199 | the constructor's loop with its running constant builds the closed-form window map |
| OffloadWindow.WindowWidth | verl/utils/activation_offload.py:189-199 | windows are L//G layers wide, the first L%G of them one layer wider |
| OffloadWindow.WindowIncreasing | verl/utils/activation_offload.py:193-199 | later groups have strictly later windows |
| OffloadWindow.WindowAtLeast | verl/utils/activation_offload.py:193-199 | a group's window does not close before the group's own layer, and closes after it if there are fewer groups than layers |
| OffloadWindow.WindowLast | verl/utils/activation_offload.py:193-199 | the last group's window closes with the last layer |
| OffloadWindow.ClosedIff | verl/utils/activation_offload.py:262-274 | after c forward commits exactly the first Closed(c) groups have closed windows |
| OffloadWindow.ClosedAtEnd | verl/utils/activation_offload.py:262-274 | all windows are closed exactly when all layers have been committed |
| OffloadWindow.OffloadableIff | verl/utils/activation_offload.py:258-272 | every group is copied after it was saved if there are fewer groups than layers; otherwise only group 0 is |
| OffloadWindow.CopyBeforeClose | verl/utils/activation_offload.py:258-274 | a group is copied no later than its window closes |
| OffloadObject.AsyncDoubleBufferGroupOffloadHandler.constructor | verl/utils/activation_offload.py:172-199 | a new handler is in the initial state, with the window map of its plan |
| OffloadObject.AsyncDoubleBufferGroupOffloadHandler.TensorPush | verl/utils/activation_offload.py:204-224 | the fields after a push, the tag handed out, and when the assert fails |
| OffloadObject.AsyncDoubleBufferGroupOffloadHandler.TensorPop | verl/utils/activation_offload.py:226-234 | the fields after a pop, the tensor handed back, and when an assert fails |
| OffloadObject.AsyncDoubleBufferGroupOffloadHandler.BulkOffloadGroup | verl/utils/activation_offload.py:236-254 | the loop over the saved states replaces the group's tensors by (key, shape) and keeps one copy per key |
| OffloadObject.AsyncDoubleBufferGroupOffloadHandler.BulkReloadGroup | verl/utils/activation_offload.py:283-298 | the loop puts a reshaped copy back into every replaced slot, or fails on a missing copy or shape |
| OffloadObject.AsyncDoubleBufferGroupOffloadHandler.OnGroupCommitForward | verl/utils/activation_offload.py:256-280 | the fields after a forward commit, and when a window lookup or an assert fails |
| OffloadObject.AsyncDoubleBufferGroupOffloadHandler.OnGroupCommitBackward | verl/utils/activation_offload.py:300-316 | the fields after a backward commit, and when a lookup or an assert fails |
| OffloadSafety.PushKeeps | verl/utils/activation_offload.py:204-224 | a legal push leads from the state predicted for the calls so far to the state predicted with the push |
| OffloadSafety.ForwardFirst | verl/utils/activation_offload.py:258-274 | the first commit of a cycle copies group 0, and group 1 too when each layer is its own group |
| OffloadSafety.ForwardLater | verl/utils/activation_offload.py:256-280 | any later forward commit copies the next group exactly when a window closes |
| OffloadSafety.BackwardPerformed | verl/utils/activation_offload.py:283-316 | a due backward commit succeeds exactly if same-key tensors of the group whose window closes have equal element counts; then exactly that group is reloaded |
| OffloadSafety.BackwardFails | verl/utils/activation_offload.py:297 | otherwise the reshape of a copy fails, whatever else the state holds |
| OffloadSafety.PopKeeps | verl/utils/activation_offload.py:226-234 | a pop in its group's turn finds its tensor on the device |
| OffloadSafety.StepSafe | verl/utils/activation_offload.py:204-316 | in any coherent state a legal call fails exactly if it is a backward commit whose group cannot be reshaped; otherwise it leads to the predicted state |
| OffloadSafety.RunSafe | verl/utils/activation_offload.py:204-316 | the same over every legal run, however many cycles it spans and whether or not a cycle takes every tensor back: it succeeds exactly if every due backward commit does, and then ends as predicted |
| OffloadSafety.FreshRunSafe | verl/utils/activation_offload.py:172-316 | a new handler survives exactly those legal runs, and answers every pop with the delivered tensor |
| OffloadSafety.CycleCloses | verl/utils/activation_offload.py:300-316 | a finished cycle has brought every field but the running tag index back to its initial value |
| OffloadRecovery.ReturnFeasibleIff | verl/utils/activation_offload.py:283-316 | going backwards over any stretch of commits succeeds exactly if sizes agree in the groups whose windows lie there |
| OffloadRecovery.CycleSucceedsIff | verl/utils/activation_offload.py:204-316 | a whole cycle succeeds exactly if, in every offloaded group, tensors that share a key have equally many elements |
| OffloadRecovery.ViewCannotReturn | verl/utils/activation_offload.py:297 | a saved tensor and a shorter view of its start: the backward commit fails |
| OffloadLeftovers.SavingSurvivesIff | verl/utils/activation_offload.py:204-280 | a forward half that begins with any leftovers of earlier cycles survives exactly if no push is given the tag of one |
| OffloadLeftovers.ReturningSurvivesIff | verl/utils/activation_offload.py:226-316 | a backward half, taking back any of the tensors held, survives exactly if what it brings back has the sizes of the copies, leftovers included |
| OffloadLeftovers.CycleSurvivesIff | verl/utils/activation_offload.py:204-316 | so a whole cycle with leftovers survives exactly under both conditions, and ends where the next one may begin |
| OffloadLeftovers.LeftoverRefusesPush | verl/utils/activation_offload.py:215-216 | one tensor never taken back: the first push of the next cycle trips the assert |
| OffloadSafety.DeliveredFaithfulIff | verl/utils/activation_offload.py:236-298 | every tensor comes back with its own shape and contents exactly if saved tensors of one offloaded group that share a key share their row-major contents |
| OffloadRecovery.TransposedAlias | verl/utils/activation_offload.py:19-21 | a legal run that succeeds and hands back the matrix for its transposed view |
| OffloadSafety.KeyIdentifiesStart | verl/utils/activation_offload.py:19-21 | views of equal or disjoint storages share a key exactly when they start at the same element with the same type |
| OffloadSafety.ForwardHalfReleases | verl/utils/activation_offload.py:262-274 | after the forward half, with fewer groups than layers, no tensor of an offloaded group is held on the device |
| PackedSeqs.PaddedIsLeast | verl/models/mcore/util.py:18-21 | the padded length is the least multiple of the alignment that holds the tokens (what the alignment is, `PaddedRounds` says) |
| PackedSeqs.PaddedRounds | verl/models/mcore/util.py:18-21 | lengths are padded to the next multiple of tp without context parallelism, and of 2 * tp * cp with it |
| PackedSeqs.BoundariesRound | verl/models/mcore/util.py:22-25 | `cu_seqlens_padded` adds up lengths that are rounded up in this way |
| PackedSeqs.BufferRoom | verl/models/mcore/util.py:28-29 | the buffers of all ranks together have as many places as the last boundary says |
| PackedSeqs.HalvesFill | verl/models/mcore/util.py:37-38 | a rank's share divides without remainder into two halves, and 2*cp halves make up the padded length |
| PackedSeqs.AssignSlice | verl/models/mcore/util.py:42-44 | a slice assignment succeeds exactly on a matching or one-element right-hand side, and changes nothing else |
| PackedSeqs.ScatterCompress | verl/models/mcore/util.py:41-41 | masked reading followed by masked writing keeps masked positions and blanks the others |
| PackedSeqs.WritableIffPackable | verl/models/mcore/util.py:42-54 | a row can be written on every rank exactly if it is empty, at least half its padded length, or leaves one single token to the last rank |
| PackedSeqs.StartIsQuotient | verl/models/mcore/util.py:39-39 | `cu_seqlens_padded[i] // cp_size` is the sum of the earlier rows' shares |
| PackedSeqs.StartsTile | verl/models/mcore/util.py:29-39 | each row starts where the stretches of the rows before it end |
| PackedSeqs.PackedAt | verl/models/mcore/util.py:29-54 | the rows' segments fill the buffer in order, without gap or overlap |
| PackedSeqs.WriteRow | verl/models/mcore/util.py:42-54 | the two slice assignments of a row fill its own stretch of the buffer only |
| PackedSeqs.PackInto | verl/models/mcore/util.py:32-54 | the loop over the rows fills the preallocated buffer, or stops at the first row that does not fit |
| PackedSeqs.WriteIsSegment | verl/models/mcore/util.py:42-54 | for packable lengths the writes store the front slice and the mirrored back slice of the padded row |
| PackedSeqs.PackRank | verl/models/mcore/util.py:9-67 | packing on one rank: when it succeeds, and that it then stores the rank's segments in a buffer of that many places |
| PackedSeqs.HeldToken | verl/models/mcore/util.py:32-54 | which token of which row stands at which place of a rank's buffer |
| PackedSeqs.PackSucceedsIff | verl/models/mcore/util.py:32-54 | all ranks pack exactly when there are rows and all have packable lengths |
| PackedSeqs.JoinChunks | verl/models/mcore/util.py:104-114 | the loop over the ranks fills `tmp` with the front halves in rank order and the back halves in reverse |
| PackedSeqs.CutsJoin | verl/models/mcore/util.py:98-115 | chunks cut symmetrically from one sequence join to that sequence |
| PackedSeqs.Unpack | verl/models/mcore/util.py:69-117 | every output row is its values, read from the gathered buffers, put at the masked positions |
| PackedSeqs.PackUnpackRoundTrip | verl/models/mcore/util.py:9-117 | a batch packed on every rank and unpacked from the gathered buffers gives each row's masked positions back, blanks elsewhere |
| PackedSeqs.PackAndUnpack | verl/models/mcore/util.py:9-117 | the whole exchange, in place: it succeeds exactly on packable batches and then restores the masked rows |
| PackedSeqs.SingleTokenRefused | verl/models/mcore/util.py:42-44 | one token on two context-parallel ranks without tensor parallelism cannot be written |
| PipelineShards.AdmissibleIff | verl/model_merger/megatron_model_merger.py:53-56 | a middle size passes the test of the search exactly if it is at least ceil(L/pp) and leaves two layers for the ends |
| PipelineShards.DistanceGrows | verl/model_merger/megatron_model_merger.py:60 | larger middles are farther from their first stage |
| PipelineShards.SortKeepsLeastFirst | verl/model_merger/megatron_model_merger.py:64 | a stable sort of candidates in ascending distance keeps the first one first |
| PipelineShards.SearchFinds | verl/model_merger/megatron_model_merger.py:50-64 | the search has a candidate exactly if ceil(L/pp)*(pp-2) <= L-2, and then returns the split with that middle |
| PipelineShards.GetDynamicPipelineShards | verl/model_merger/megatron_model_merger.py:35-66 | on all integers: when the function succeeds, the stages it returns, and which error it raises otherwise |
| PipelineShards.StagesSum | verl/model_merger/megatron_model_merger.py:65 | the closing assert: the stages add up to the layers |
| PipelineShards.StagesShape | verl/model_merger/megatron_model_merger.py:50-66 | every stage has a layer, the ends differ by at most one and are no larger than the middles |
| PipelineShards.StagesOptimal | verl/model_merger/megatron_model_merger.py:35-66 | no split of the layers over as many stages has a smaller largest stage |
| PipelineShards.SplittableByRemainder | verl/model_merger/megatron_model_merger.py:50-64 | the search fails exactly if layers are left over and more stages lack one of them than twice the full rounds |
| PipelineShards.FiveLayersOnFourStages | verl/model_merger/megatron_model_merger.py:64 | five layers on four stages pass both input checks, yet the candidate list is empty |
| LayerPlacement.CalcLayerMap | verl/models/mcore/loader.py:12-33 | the nested loops succeed exactly on even layouts and map every layer, and nothing else, to its home |
| LayerPlacement.HomeOfLayer | verl/models/mcore/saver.py:32-53 | a home's layer number determines the home |
| LayerPlacement.LayersRunOn | verl/models/mcore/loader.py:12-33 | layer numbers run on within a chunk, then to the next pipeline rank, then to the next chunk of the first rank |
| LayerPlacement.LayerOfHome | verl/models/mcore/saver.py:32-53 | every layer number is the number of a home |
| LayerPlacement.OffsetsAgreeIff | verl/utils/megatron_utils.py:874-901 | the layer map and `get_transformer_layer_offset` place every layer alike, except for a virtual pipeline on a single stage |
| LayerPlacement.TwoChunksOnOneStage | verl/utils/megatron_utils.py:874-901 | one stage with two chunks of one layer: the map and the offset disagree about layer 1 |
| LayerPlacement.OffsetIsPrefix | verl/utils/megatron_utils.py:799-873 | for the stages of the shard search the offset of a rank is the prefix sum of the stage sizes |
| LayerPlacement.StagesTileLayers | verl/model_merger/megatron_model_merger.py:261-263 | the stretches that the ranks' prefix sums start cover the layers of the model, each exactly once |
| LayerMerging.Renumber | verl/model_merger/megatron_model_merger.py:266-316 | the loops over state dicts and keys give every key the number of layers in the state dicts before it, plus its own number, if no state dict without layers comes before |
| LayerMerging.NumbersKeyByKey | verl/model_merger/megatron_model_merger.py:266-316 | entry by entry: start, plus the sizes of the state dicts before, plus the local number |
| LayerMerging.NumberedInOrderIff | verl/model_merger/megatron_model_merger.py:266-316 | consecutive state dicts are numbered on exactly if no state dict without layers stands before one with layers |
| LayerMerging.EmptyChunkShifts | verl/model_merger/megatron_model_merger.py:310 | a state dict without layers, read first, moves layer 0 to number 1 |
| LayerMerging.MergedLayers | verl/model_merger/megatron_model_merger.py:258-316 | over all ranks, with one state dict each, every layer of the model is given its number, by one rank only |
| LayerMerging.RankNumberOf | verl/model_merger/megatron_model_merger.py:258-316 | local layer y of a rank is given the number of layers of the ranks before it, plus y |
| LayerPlacement.PositiveTiles | verl/model_merger/megatron_model_merger.py:261-263 | consecutive stretches of positive sizes cover their total, each number in one stretch only |
| LayerPlacement.FilesTile | verl/model_merger/megatron_model_merger.py:328-350 | across the ranks each of the file numbers (one per layer below 30 layers, else two) is written, by one chunk only |
| LayerPlacement.FilesInOrder | verl/model_merger/megatron_model_merger.py:336-349 | file numbers run on through the chunks of a rank and then to the first chunk of the next rank |
| LayerPlacement.GlobalRankInverse | verl/models/mcore/saver.py:16-30 | different coordinates have different global ranks, all within the world |
| LayerPlacement.RankAtInverse | verl/models/mcore/saver.py:16-30 | every rank of the world is the rank of some coordinates |
| LayerPlacement.NeighboursApart | verl/models/mcore/saver.py:16-30 | neighbouring tensor ranks are one apart, context ranks tp, data ranks tp * cp and pipeline ranks tp * cp * dp |
| Blocks.FlattenOfCut | verl/models/mcore/loader.py:290-297 | cutting a tensor into equal blocks and concatenating them gives the tensor |
| Blocks.ChunkEven | verl/models/mcore/loader.py:290-292 | `torch.chunk` of a length that divides evenly gives equal blocks |
| WeightLayout.InterleavedInjective | verl/models/mcore/loader.py:276-297 | the interleaved layout loses nothing: different q, k, v are laid out differently |
| WeightLayout.ShardsJoin | verl/models/mcore/loader.py:284-297 | the ranks' shards concatenated are the same interleaved layout for every tensor-parallel size |
| WeightLayout.ShardRow | verl/models/mcore/loader.py:284-297 | row by row: which query, key or value row stands where in which rank's shard |
| WeightLayout.SizesExact | verl/models/mcore/loader.py:277-293 | the integer divisions in the size computations are exact |
| WeightLayout.LoadPartition | verl/models/mcore/loader.py:294-297 | a rank's groups are copied behind each other into its part of the new weight |
| WeightLayout.LoadQkv | verl/models/mcore/loader.py:276-297 | the loader's nest gives every rank the layout of its own heads |
| WeightLayout.SplitJoins | verl/models/mcore/saver.py:276-282 | lists of pieces that split a tensor's groups concatenate to the q, k, v laid out as that tensor |
| WeightLayout.ConvertQkvShard | verl/utils/megatron_utils.py:404-446 | both branches, for any number of query groups: it fails exactly if no group is left for a rank; otherwise the q, k, v are those whose layout is the given tensor, or, with fewer key-value heads than ranks, those of the ranks kept (the saver has the same nest) |
| WeightLayout.OneHeadTwoRanks | verl/utils/megatron_utils.py:431-437 | one key-value head on two ranks: the divisor of the second branch is zero |
| WeightLayout.KeptOnceIff | verl/utils/megatron_utils.py:444-446 | keeping shared heads by the test of the second branch gives every head once exactly if the heads divide the ranks |
| WeightLayout.SharedRestoredIff | verl/utils/megatron_utils.py:430-450 | what ranks that share heads hold is converted back to the original q, k, v exactly in that case |
| WeightLayout.ShapeSizes | verl/model_merger/megatron_model_merger.py:228-246 | the sizes derived from a shard's shape are those of its query groups, and the divisibility assert holds |
| WeightLayout.ConcatAcrossTp | verl/utils/megatron_utils.py:605-637 | it fails exactly if ranks outnumber key-value heads; otherwise the q, k, v returned are exactly those whose layout is the shards joined (also the legacy merger, and with one rank the model merger) |
| WeightLayout.LoadThenSave | verl/models/mcore/loader.py:276-297 | merging what was loaded returns the original q, k, v; converting it on another number of ranks does exactly if these do not outnumber the key-value heads |
| WeightLayout.GateUpInjective | verl/models/mcore/loader.py:220-226 | different gate and up rows are sharded differently |
| WeightLayout.GateUpRow | verl/models/mcore/loader.py:220-226 | row by row: rank i holds m gate rows from the i*m-th on and then the same rows of the up projection |
| WeightLayout.LoadGateUp | verl/models/mcore/loader.py:208-228 | every rank is given its gate rows and then its up rows |
| WeightLayout.ConvertGateUpShard | verl/utils/megatron_utils.py:452-469 | the gate and up rows returned are those whose shards joined are the given tensor |
| WeightLayout.ConcatGateUp | scripts/legacy_model_merger.py:483-493 | the gate and up rows returned are those that are sharded as given |
| WeightLayout.LoadThenSaveGateUp | verl/models/mcore/saver.py:211-224 | loading and saving or merging on the same ranks returns the original gate and up rows |
| WeightLayout.GateUpDependsOnRanks | verl/models/mcore/loader.py:217-226 | unlike the attention layout, the joined gate-up rows depend on the number of ranks |
| ServerHeap.RootIsLeast | verl/experimental/agent_loop/agent_loop.py:48-49 | in a heap no entry has a lower count than the first, nor as low a count and a lower hash |
| ServerHeap.SwapUp | verl/experimental/agent_loop/agent_loop.py:50 | bubbling an entry up keeps the heap property everywhere but at that entry |
| ServerHeap.SwapDown | verl/experimental/agent_loop/agent_loop.py:50 | letting the smaller child rise keeps it everywhere but at the hole |
| ServerHeap.SiftUp | verl/experimental/agent_loop/agent_loop.py:50 | the sift after `heapreplace` restores the heap in place, keeping its entries |
| ServerHeap.Heapify | verl/experimental/agent_loop/agent_loop.py:39 | the constructor's heap holds the given entries in heap order |
| ServerHeap.RaiseBalanced | verl/experimental/agent_loop/agent_loop.py:49 | raising the least entry keeps all counts within one of each other and adds one to their total |
| ServerHeap.NearAverage | verl/experimental/agent_loop/agent_loop.py:48-50 | balanced counts are the average rounded down or up |
| StickyCache.AccessOk | verl/experimental/agent_loop/agent_loop.py:45-51 | a request keeps the keys distinct and the cache within its size, and makes its own entry the most recent |
| StickyCache.AccessKeeps | verl/experimental/agent_loop/agent_loop.py:41-51 | another request leaves a key in the cache with its server while fewer distinct others than places have come |
| StickyCache.Sticky | verl/experimental/agent_loop/agent_loop.py:45-51 | over any run a request is served like the previous one with its id if fewer other ids than cache places came between |
| StickyCache.HeldIff | verl/experimental/agent_loop/agent_loop.py:41-51 | an id is in the cache exactly if fewer distinct other ids than places have been requested since its last request |
| StickyCache.StickyIff | verl/experimental/agent_loop/agent_loop.py:45-51 | so the next request with an id keeps its server in exactly these cases, and is sent to the least loaded one otherwise |
| StickyCache.StickyBoundTight | verl/experimental/agent_loop/agent_loop.py:41-51 | with as many other ids as places the server can change |
| ServerManager.AsyncLLMServerManager.constructor | verl/experimental/agent_loop/agent_loop.py:33-41 | all servers start unloaded, in heap order, with an empty cache |
| ServerManager.AsyncLLMServerManager.ChooseServer | verl/experimental/agent_loop/agent_loop.py:43-52 | hits cost nothing and keep their server, misses raise the least loaded server, of the lowest hash among these; the cache moves as an LRU cache; both error cases |
| ServerManager.AsyncLLMServerManager.RaiseRoot | verl/experimental/agent_loop/agent_loop.py:49-50 | the in-place increment and `heapreplace` keep the heap, the balance and the count of misses |
| ServerManager.AsyncLLMServerManager.ServeAll | verl/experimental/agent_loop/agent_loop.py:43-52 | every run of requests moves the heap by raising its least loaded server or not at all, keeps it balanced, and serves the next request with an id by the same server exactly as long as the id is held, else by the least loaded one |
| ServerManager.AsyncLLMServerManager.LoadsEven | verl/experimental/agent_loop/agent_loop.py:48-50 | in every reachable state each server's count is the average of the misses, rounded down or up |
| ToolAgentLoop.Run | verl/experimental/agent_loop/tool_agent_loop.py:46-113 | a run goes on as long as the tokens stay below the budget, no set limit is reached and replies come, and ends with the first turn at which one of these fails; it returns what the closing lines make of the tokens said, and two turns per reply plus two |
| ToolAgentLoop.ShouldStop | verl/experimental/agent_loop/tool_agent_loop.py:67-97 | the breaks of the loop body, as one condition (in numbers of tokens: `GoesOnIff`) |
| ToolAgentLoop.GoesOnIff | verl/experimental/agent_loop/tool_agent_loop.py:67-97 | a turn does not end the run exactly if budget is left before and after its reply, no set limit is reached and the reply comes |
| ToolAgentLoop.RunsPastIff | verl/experimental/agent_loop/tool_agent_loop.py:58-101 | a run gets past n turns exactly if each of them goes on in this sense |
| ToolAgentLoop.MaskAligned | verl/experimental/agent_loop/tool_agent_loop.py:64-100 | the mask has one entry for every response token |
| ToolAgentLoop.TurnStandsAt | verl/experimental/agent_loop/tool_agent_loop.py:63-101 | each turn's tokens and then its reply's stand behind those of the turns before |
| ToolAgentLoop.TurnMarkedAt | verl/experimental/agent_loop/tool_agent_loop.py:64-100 | the mask has ones where model tokens stand and zeros where reply tokens stand |
| ToolAgentLoop.FaithfulIff | verl/experimental/agent_loop/tool_agent_loop.py:103-111 | the prompt comes back unchanged and response and mask are the clipped transcript, unless nothing was said, the prompt is not empty and the budget is positive |
| ToolAgentLoop.EmptyGenerationLeaksPrompt | verl/experimental/agent_loop/tool_agent_loop.py:103-104 | a run of one empty generation returns the prompt as the response, with an empty mask |
| ToolAgentLoop.RepliesUncut | verl/experimental/agent_loop/tool_agent_loop.py:95-100 | every tool reply that was appended ends within the response budget |
| ToolAgentLoop.OnlyModelTokensCut | verl/experimental/agent_loop/tool_agent_loop.py:106-110 | whatever the final clipping removes was said by the model |
| ToolAgentLoop.TurnsWithinLimits | verl/experimental/agent_loop/tool_agent_loop.py:70-74 | both turn limits hold, with one model turn more than user turns |
| ToolAgentLoop.NonEmptyGenerationsEnd | verl/experimental/agent_loop/tool_agent_loop.py:58-68 | if every generation has a token, the run ends within as many turns as the response may have tokens |
| ToolAgentLoop.TurnLimitEnds | verl/experimental/agent_loop/tool_agent_loop.py:70-71 | a set limit on assistant turns ends every run by that turn |
| ToolAgentLoop.UserTurnLimitEnds | verl/experimental/agent_loop/tool_agent_loop.py:73-74 | a set limit on user turns ends every run one model turn later |
| ToolAgentLoop.SilenceNeverEnds | verl/experimental/agent_loop/tool_agent_loop.py:58-101 | without turn limits, empty generations whose tools reply with nothing keep the loop going for any time |
| ToolAgentLoop.BoundedIff | verl/experimental/agent_loop/tool_agent_loop.py:58-101 | the number of turns has a bound, whatever is generated and replied, exactly if a turn limit is set or no response token is allowed |
| Ulysses.CatOfSplitHeads | verl/utils/ulysses.py:91-101 | splitting a tensor along the heads and concatenating the pieces gives the tensor |
| Ulysses.ExchangeTwice | verl/utils/ulysses.py:93 | exchanging twice gives every rank its own pieces back |
| Ulysses.HeadsToSeqIs | verl/utils/ulysses.py:82-101 | after scattering heads each rank has the whole joined sequence for its block of heads |
| Ulysses.SeqToHeadsIs | verl/utils/ulysses.py:82-101 | after scattering tokens each rank has its block of tokens with all heads |
| Ulysses.PadExact | verl/utils/ulysses.py:51-53 | the padding computed is exactly what is missing to the next multiple |
| Ulysses.GatherSeqIs | verl/utils/ulysses.py:28-43 | for any `unpadded_dim_size`, `gather_seq_scatter_heads` gives each rank the rows kept of the whole sequence, for its block of heads |
| Ulysses.KeptExactly | verl/utils/ulysses.py:40-42 | with the least padding that fills the ranks, exactly the true rows are kept |
| Ulysses.PaddingKept | verl/utils/ulysses.py:40 | two tokens on two ranks with two rows each: the padding is not removed |
| Ulysses.GatherHeadsIs | verl/utils/ulysses.py:45-54 | `gather_heads_scatter_seq` gives each rank its block of the zero-padded sequence with all heads |
| Ulysses.ThereAndBackIs | verl/utils/ulysses.py:28-54 | applying both keeps the rows kept and pads them with zero rows to the next multiple, dealt out over the ranks |
| Ulysses.RoundTripIff | verl/utils/ulysses.py:28-54 | for any `unpadded_dim_size`, the two undo each other exactly if fewer rows than there are ranks were cut off, and these were zero |
| Ulysses.RoundTripByDefault | verl/utils/ulysses.py:28-54 | with the default of 0, as in every call of the repository, they always do |
| Ulysses.PaddingTooLong | verl/utils/ulysses.py:28-54 | one token on two ranks with two rows each: zero padding rows, and yet a row per rank goes missing |
| Ulysses.PaddingRowLost | verl/utils/ulysses.py:28-54 | one token over two ranks: a non-zero padding row does not come back |
| Ulysses.PadSliceGatherUnpad | verl/utils/ulysses.py:187-230 | padding, slicing over the ranks, gathering and unpadding give back every sequence |
| Ulysses.SlicePadsAlike | verl/utils/ulysses.py:67-80 | slicing with its own padding is slicing the padded sequence |
| GroupFilter.VariancePositiveIff | recipe/dapo/dapo_ray_trainer.py:185-187 | the deviation of a metric is positive exactly if its values are not all the same |
| GroupFilter.MetricsOfGrouped | recipe/dapo/dapo_ray_trainer.py:179-183 | the dictionary collects for each prompt its own group's values |
| GroupFilter.FilterKeepsGroups | recipe/dapo/dapo_ray_trainer.py:179-201 | on whole groups the filter keeps exactly the groups that are non-constant or single, whole and in order, and counts them |
| GroupFilter.KeptAreGrouped | recipe/dapo/dapo_ray_trainer.py:189-193 | what is kept are whole groups of different prompts, all informative |
| GroupFilter.KeptInOrder | recipe/dapo/dapo_ray_trainer.py:189-201 | kept are exactly the groups of one row or of two rows that differ in the metric, in order |
| DapoAccumulator.RepeatedAt | verl/protocol.py:557-589 | interleaved repetition puts n copies of each prompt next to each other |
| DapoAccumulator.NewGroupsGrouped | recipe/dapo/dapo_ray_trainer.py:123-128 | a round's rows are whole groups of n, one per fresh uid |
| DapoAccumulator.CollectMetrics | recipe/dapo/dapo_ray_trainer.py:179-183 | the loop over the rows builds the dictionary of values per prompt, its keys in order of appearance |
| DapoAccumulator.SelectRows | recipe/dapo/dapo_ray_trainer.py:196-201 | the index loop and the selection keep the rows of the kept prompts, in order |
| DapoAccumulator.Filter | recipe/dapo/dapo_ray_trainer.py:179-201 | the filtered rows and the number of kept prompts of a round |
| DapoAccumulator.RayDAPOTrainer.Accumulate | recipe/dapo/dapo_ray_trainer.py:194-202 | the batch grows by whole informative groups and the counter by their number |
| DapoAccumulator.RayDAPOTrainer.GenerationRound | recipe/dapo/dapo_ray_trainer.py:81-221 | a round trains on exactly the first train_batch_size groups, or asks for another round, or gives up, each exactly when due; the invariant holds throughout |
| DapoAccumulator.TrainedBatch | recipe/dapo/dapo_ray_trainer.py:220-221 | the truncated batch has exactly n rows for each of train_batch_size different prompts, all informative |
| MemoryBuffers.PaddedIsLeast | verl/utils/memory_buffer.py:31-34 | the padded size is the least multiple of the alignment that holds all elements |
| MemoryBuffers.PaddedTo128Bits | verl/utils/memory_buffer.py:31-34 | in bits: padding fills up to the next multiple of 128 |
| MemoryBuffers.RegionFits | verl/utils/memory_buffer.py:77-91 | a region lies within the buffer and ends before the next one of its type begins |
| MemoryBuffers.RegionsTight | verl/utils/memory_buffer.py:48-59 | the first region of a type starts at 0, and less than an alignment unit lies between a region and the next, or the end |
| MemoryBuffers.RegionsApart | verl/utils/memory_buffer.py:77-91 | regions are aligned and no two share an element |
| MemoryBuffers.MemoryBuffer.Get | verl/utils/memory_buffer.py:24-29 | a view is given exactly if it ends within the buffer |
| MemoryBuffers.BuildMemoryBuffer | verl/utils/memory_buffer.py:42-60 | one buffer of zeros per element type, of the size its parameters add up to |
| MemoryBuffers.BuildMemoryReference | verl/utils/memory_buffer.py:77-91 | for buffers of any sizes: it succeeds exactly if every region fits, and hands out those regions |
| MemoryBuffers.BuffersSuffice | verl/utils/memory_buffer.py:42-91 | buffers built for the parameters always suffice |
| MemoryBuffers.BuildFromModule | verl/utils/memory_buffer.py:62-75 | every parameter becomes a view that reads its own values, nothing outside the views changes, and no assert fails |
| MemoryBuffers.WrapModule | verl/utils/memory_buffer.py:95-100 | a wrapped module's parameters all read their own values from the new buffers, which hold zeros everywhere else |
| RewardScore.FlattenReasoningPath | reward_func.py:269-288 | the explicit-stack loop terminates and lists the triplets of every nested list from left to right |
| RewardScore.TripletsFlattened | reward_func.py:269-288 | a list of k atom triples flattens to exactly those: subject, relation, object, in the order given |
| RewardScore.NestingIgnored | reward_func.py:269-288 | a nested list that is no triple counts as its items put in its place, and an atom as nothing |
| RewardScore.PendingReversed | reward_func.py:287 | pushing a list's items in reverse leaves their triplets pending in order |
| RewardScore.FirstPerKeyOk | reward_func.py:258-266 | deduplication keeps one triplet per normalised key and invents none |
| RewardScore.FirstsKept | reward_func.py:258-266 | kept are exactly the triplets with no earlier one of the same lower-cased, stripped fields, in their order |
| RewardScore.UniqueTriplets | reward_func.py:258-266 | the loop with its `seen` set keeps the first triplet of every key |
| RewardScore.LoweredHas | reward_func.py:209-222 | triplets are compared by the lower case of all three fields |
| RewardScore.CountMatches | reward_func.py:209-222 | the count is the number of different extracted triplets, up to case, among the reference triplets, and at most their number |
| RewardScore.EvaluatePathMatch | reward_func.py:194-223 | the score is that count over the length of the reference, and lies in [0, 1] |
| RewardScore.DedupLosesNothing | reward_func.py:258-266 | where stripping leaves lower-cased fields alone, deduplication loses nothing that could match |
| RewardScore.F1IsShare | reward_func.py:161-178 | the F1 score is the share of common answers in both sets together |
| RewardScore.F1Bounds | reward_func.py:161-178 | it lies in [0, 1], is symmetric, and is 1 exactly for equal sets |
| SelectPaths.DedupOk | reasoner/common/paths.py:28-34 | deduplication keeps a path for every triple list, once |
| SelectPaths.DedupKeepsFirsts | reasoner/common/paths.py:28-34 | kept are exactly the paths with no earlier path of the same triples, in input order |
| SelectPaths.SortOk | reasoner/common/paths.py:36-37 | the sort keeps exactly the paths, once each, and puts scored paths before unscored ones and better scores first |
| SelectPaths.SortKeepsTies | reasoner/common/paths.py:36-37 | paths with equal scores keep their order |
| SelectPaths.RankedUnique | reasoner/common/paths.py:28-37 | the ranking is the only arrangement with the best scores first and ties in input order |
| SelectPaths.RankedCount | reasoner/common/paths.py:28-37 | there are as many candidates as different triple lists |
| SelectPaths.ScanOk | reasoner/common/paths.py:42-51 | no pick only repeats triples of an earlier one, and a scan that does not fill up passes over nothing but repetitions of a pick |
| SelectPaths.PassedOverCovered | reasoner/common/paths.py:44-46 | a candidate is passed over only if all its triples are triples of one pick made before it |
| SelectPaths.TopUpOk | reasoner/common/paths.py:52-57 | backfilling adds missing candidates until there are k picks or none is missing |
| SelectPaths.TopUpTakesBest | reasoner/common/paths.py:52-57 | what backfilling adds are the best-ranked of the missing candidates |
| SelectPaths.Select | reasoner/common/paths.py:21-58 | the function for every k and both modes, in terms of the ranking, the scan and the backfill |
| SelectPaths.ChosenCount | reasoner/common/paths.py:28-58 | exactly min(k, number of different paths) paths come back, all from the input and no two alike |
| SelectPaths.ChosenCovers | reasoner/common/paths.py:42-58 | with fewer diverse picks than k, all triples of every input path are triples of one pick |

## Left out

- Tensor libraries, process groups, streams, devices, element casts, autograd, model building, checkpoint and file
  I/O, tokenizers, HTTP and configuration objects: calls into them are parameters or value copies.
- Floating point: metrics and scores are exact reals, so rounding in `np.std` or in the scores is not captured;
  path scores that are not a number are not modelled.
- GroupFilter.VariancePositiveIff: exact reals; in floating point `np.std` of equal values can round to a positive number, so
  that a constant group of several trajectories is kept.
- Negative sequence lengths in the balancing functions: lengths are sums of an attention mask.
- `log_seqlen_unbalance`, `prepare_dynamic_batch` and the copying of non-tensor columns.
- MicroBatches.RanksAgree: the all-reduce is a maximum over the counts of the group, with no failing ranks.
- KarmarkarKarpObjects.LeastIndex: finds the least state by a scan; the partitioner's heap array itself is not modelled.
- More offload groups than layers, recomputation pushes during the backward pass, fake tensors, and the push and pop of
  the synchronous handler.
- The address of a reloaded tensor: it keeps its key here. Nothing is assumed of the keys of leftovers in OffloadLeftovers.
- Device memory as such: streams and events are not modelled, so overlap of copies with computation is not either.
- `remove_left_padding`, `recover_left_padding` and the dictionary variant of unpacking: single masked copies.
- 32-bit overflow of cumulative lengths in packing.
- WeightLayout.LoadQkv: models the branch for at least as many key-value heads as ranks, with one query group per key-value
  head; the loader's layout for fewer, which cuts a rank's rows into as many pieces as there are query heads, is left out.
- WeightLayout.ConvertQkvShard: a rank's rows that do not divide evenly among its query groups, and tensors of other sizes,
  are left out.
- Intermediate sizes that the ranks do not divide.
- Interleaved pipelines with uneven stages, and splits that count the embedding or loss as a layer.
- LayerMerging.Renumber: keys are their layer numbers; renaming, splitting of tensors and spreading keys over files are not
  modelled.
- ServerManager.AsyncLLMServerManager.ChooseServer: entries are array values rather than shared list objects, and two
  servers with equal hashes count as tied instead of being compared themselves.
- ServerHeap.SiftUp: exchanges neighbours where the library moves a hole; the array after each sift is the same.
- Shuffling of the servers and hashing: the handles come in any order with any hashes.
- ToolAgentLoop.Run: model output, parsing and tool calls are a script of rounds; truncation of tool text and the cap on
  parallel calls happen before it.
- Hand-over of gradients in the sequence-parallel exchanges, position ids, and head counts that the group does not divide.
- Everything of a DAPO step outside generating, filtering, accumulating and truncating; training without group filtering.
- `pad_dataproto_to_divisor` and chunking: the accumulator uses repetition, selection, concatenation and slicing only.
- Element types whose width does not divide 128 bits, and the per-pipeline-stage lists of buffers.
- Extraction of triplets and answers from text; lower-casing and stripping are arbitrary functions.
- RewardScore.FlattenReasoningPath: atoms carry their text, so strings and other atoms are not told apart.
- SelectPaths.Select: a path is its triples and score; precomputed embeddings are not compared.
