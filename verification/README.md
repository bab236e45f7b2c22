# Verification of Sol-Attn and its request layer

This project models the sparse attention of Sol-H3 over the real numbers and proves what its
fast, streamed, split, cached and concurrent forms keep of one simple operator. Scores may be
-inf; exp2 and log2 are abstract functions with the usual laws; rounding is not modelled.

The simple operator is `MixedOperator.Reference`: for one query row, softmax over the keys of the
exact blocks and one summary term for each approximate block. Everything numerical is proved equal
to it.

How the files hang together:

- `Basics`, `Exponential`, `Words`: lists and options; exp2 and log2 by their laws; 32-bit words as
  numbers.
- `MixedOperator`, `Routing`, `RouteCompaction`, `ChosenBlocks`: the operator, the routing rule,
  and the ballot compaction that turns a route into index lists and masks.
- `PlainSoftmax`: the operator and the rule as running sums of scores, measures and values.
- `OnlineSoftmax`, `ForwardSm120`: the SM120 row. `ScaledSoftmax`, `TritonForward`, `Sm100Pairs`:
  the Triton and SM100 rows. All equal the reference, hence each other.
- `KvProgram`, `WarpMachine`: the SM120 instruction stream, and four warps, the TMA unit, parity
  barriers and shared scratch that execute it in any interleaving. `Sm90Scan` builds the SM90
  stream, mask scan included, for the same machine.
- `KernelMeaning`: reads the tiles that those warps consume as softmax terms and so joins the
  concurrent half to the numerical one. `SplitMerge`: SM90 splits and partition merging. `Sm90Row`:
  the SM90 row through its splits, on the same tiles.
- `WireMap`, `MappedNeighbors`, `PlanCache`, `ByteCache`: the mapped-neighbour compiler and the
  request's caches.
- `GateStatistics`, `SparseAttention`, `Qualification`, `SparseRequest`, `StreamedAttention`: the
  arithmetic gate, one sparse call inside a request, and two-pass streaming. `PlainAttention`: what a
  call computes, in its arguments alone.
- `Receipts`, `ReceiptRuns`: completion receipts over whole runs of requests and forwards.
- `GroupedGather`, `MixedMeasure`: the fused gather with summaries, and representative rows.

Two properties that one might expect are false of the code; for both the exact condition is proved.
A receipt is accepted in any run exactly if it was published in the current request under the active
evaluation number and nothing has been published there under another number since
(`ReceiptRuns.AcceptedExactly`; `ReceiptRuns.AcceptedByBlocks` says the same by where blocks begin).
So a forward's own receipt may be refused: a forward nested in it after its first block, which
publishes, restarts the record (`ReceiptRuns.PublishedIsAccepted` says exactly when, `ReceiptRuns.NestedForwardLosesReceipts`
gives a run). And another forward's receipt may be accepted: one that ends without beginning a block
leaves its evaluation number to the next (`ReceiptRuns.AcceptedIsFresh`,
`ReceiptRuns.BlocklessForwardsShareReceipts`). The structural test of receipts is also wider than what
is published, by two families of which an item each is given; the record closes the gap
(`Receipts.WellFormedIsPublishable`).

`dafny verify dfyconfig.toml` checks the project.

## Model

| member | source | states |
|---|---|---|
| KernelMeaning.EveryWarpComputesReference | sol_h3/_vendor/sol_attn/sm120/mainloop.py:354-677 | In every interleaving of the four warps and for all four prefetch settings, once the kernel can go no further, the tiles any warp has taken from the K stage, and from the V stage, stand for softmax terms whose quotient is the two-pass reference |
| KernelMeaning.StreamMeans | sol_h3/_vendor/sol_attn/sm120/mainloop.py:354-664 | The prescribed K/V tile stream, read as terms of a row, is the group-wise fold of the routed blocks |
| KernelMeaning.TilesMean | sol_h3/_vendor/sol_attn/sm90/mainloop.py:1754-1884 | What an SM90 split consumes stands for exactly the terms of its own range of groups |
| KernelMeaning.SplitsCover | sol_h3/_vendor/sol_attn/sm90/mainloop.py:1735-1753 | The splits' group ranges cut the block range of a tile into consecutive pieces, whatever the number of splits |
| KernelMeaning.CombineStreams | sol_h3/_vendor/sol_attn/sm90/split_combine.py:450-550 | Splits whose output and log-sum-exp are those of the tiles they consumed, as SplitRow proves of them, combine to the two-pass reference, empty splits included |
| KvProgram.KernelAccepted | sol_h3/_vendor/sol_attn/sm120/mainloop.py:354-677 | For every route and both prefetch flags, each K and V load is requested exactly once although two far-apart places may issue it, in the order the consumers wait for it, and nothing is left over |
| KvProgram.GroupRun | sol_h3/_vendor/sol_attn/sm120/mainloop.py:362-677 | One group leaves the stages empty, or holding the next group's KC exactly when the next prologue will not load it |
| KvProgram.GroupShares | sol_h3/_vendor/sol_attn/sm120/mainloop.py:430-600 | Every group's stream holds the exchange of its routing data: all row sums and warp 0's reading of them, masks, count and each index published, and each read by all that use it |
| WarpMachine.RunKeeps | sol_h3/_vendor/sol_attn/sm120/mainloop.py:354-677 | The invariant of the concurrent machine (stages, phase parities, both kinds of barriers, scratch) holds in every reachable state |
| WarpMachine.RunIsSafe | sol_h3/_vendor/sol_attn/sm120/mainloop.py:354-677 | In every run each wait yields the prescribed tile, the tile stays in place until that warp releases it, and no scratch read sees another group's data |
| WarpMachine.LoadOverwritesNothing | sol_h3/_vendor/sol_attn/sm120/mainloop.py:510-526 | A copy is only issued into a stage that none of the four warps still holds |
| WarpMachine.ReadAgrees | sol_h3/_vendor/sol_attn/sm120/mainloop.py:430-600 | A scratch cell holds for its reader what the reader's own group wrote; warp 0's count of the previous group is the previous group's |
| WarpMachine.NoRace | sol_h3/_vendor/sol_attn/sm120/mainloop.py:430-508 | Two warps are never both about to touch a scratch cell that one of them is about to write |
| WarpMachine.NeverStuck | sol_h3/_vendor/sol_attn/sm120/mainloop.py:354-677 | No deadlock: a run that is not finished can always continue |
| WarpMachine.RunsAreBounded | sol_h3/_vendor/sol_attn/sm120/mainloop.py:354-677 | Every run ends, without any scheduling assumption |
| WarpMachine.EveryRunEnds | sol_h3/_vendor/sol_attn/sm120/mainloop.py:354-677 | Every run can be continued to one that can go no further, so the statements about such runs are not empty |
| WarpMachine.EveryWarpIsFed | sol_h3/_vendor/sol_attn/sm120/mainloop.py:417-428 | A stream that one thread accepts feeds all four warps the same tiles in order, and every copy issued has landed and been released by all |
| WarpMachine.KernelFeedsEveryWarp | sol_h3/_vendor/sol_attn/sm120/mainloop.py:354-677 | Every warp consumes KC of each group, then K of its exact blocks in order, and V as VC and the same blocks |
| Words.LanesBelowIsOnes | sol_h3/_vendor/sol_attn/sm120/mainloop.py:443-445 | 0x7FFFFFFF >> (31 - lane) is 2^lane - 1 in every lane |
| Words.RankIsCount | sol_h3/_vendor/sol_attn/sm120/mainloop.py:487-489 | A lane's rank is the number of selected lanes before it |
| RouteCompaction.RanksIncrease | sol_h3/_vendor/sol_attn/sm120/mainloop.py:487-492 | Ranks of selected columns are distinct and increase with the column |
| RouteCompaction.PickedIsTheSelection | sol_h3/_vendor/sol_attn/sm120/mainloop.py:479-492 | The index list is strictly increasing and holds exactly the selected blocks |
| RouteCompaction.CompactWord | sol_h3/_vendor/sol_attn/sm120/mainloop.py:446-492 | Lanes storing in any order leave the ranked list and the column masks of one ballot word, and touch nothing else |
| RouteCompaction.Compact | sol_h3/_vendor/sol_attn/sm120/mainloop.py:441-505 | All ballot words of a step, appended at a base: list, count and masks |
| Routing.WarpTotal | sol_h3/_vendor/sol_attn/sm120/mainloop.py:451-456 | The four warps' partial sums add up to the column sum over the rows that exist |
| Routing.LaneDecision | sol_h3/_vendor/sol_attn/common/selector.py:131-142 | The lane's test is the rule: mean above threshold, diagonal neighbour, sink or mapped interval |
| Routing.AllSinkIsDense | sol_h3/sparse.py:373-377 | With every key in the sink the operator is dense biased softmax, whatever the scores |
| MixedOperator.RatioIsShiftFree | tools/mapped_neighbor_probe.py:370-395 | The two-pass quotient does not depend on the maximum subtracted |
| MixedOperator.StreamedWeight | tools/mapped_neighbor_probe.py:361-397 | However the blocks are cut into groups, the group-wise terms weigh as the reference's exact rows plus approximate blocks |
| MixedOperator.MassIsTokens | tools/mapped_neighbor_probe.py:390-394 | For any route the masses of exact rows and approximate blocks add up to the number of K/V tokens |
| MixedOperator.FlatIsDense | sol_h3/_vendor/sol_attn/preprocess.py:121-135 | If every approximated block is flat (equal scores, summed values), the operator equals dense attention |
| PlainSoftmax.ReferenceIsSoftmax | sol_h3/_vendor/sol_attn/sm120/mainloop.py:529-642 | By running sums over keys and blocks: the reference, and with it every row proved equal to it, weighs each key of an exact block by exp2 of its scaled score plus its measure, and each other block by exp2 of its summary score for each of its keys; its log-sum-exp has the same denominator |
| PlainSoftmax.MeasureMultiplies | sol_h3/_vendor/sol_attn/sm120/mainloop.py:634-642 | A key measure multiplies that key's weight by the measure's exponential |
| PlainSoftmax.UniformMeasure | sol_h3/_vendor/sol_attn/sm120/mainloop.py:634-642 | One measure on all keys is that log measure on the exact terms, and the approximate ones have none |
| PlainSoftmax.UniformMeasureShifts | sol_h3/_vendor/sol_attn/sm120/mainloop.py:1073-1094 | With every block exact, one measure on all keys leaves the output and adds to the log-sum-exp |
| PlainSoftmax.RouteIsRule | sol_h3/_vendor/sol_attn/common/selector.py:131-142 | A block is exact if the mean of its scaled summary scores over the rows exceeds the threshold, or it is within one of the tile's own, or in the sink or the mapped interval |
| OnlineSoftmax.BatchMax | sol_h3/_vendor/sol_attn/sm120/mainloop.py:1098-1136 | The running maximum bounds every score seen and is one of them |
| OnlineSoftmax.Accumulate | sol_h3/_vendor/sol_attn/sm120/mainloop.py:1138-1192 | The four lane sums and the output grow by the batch's weighted masses and values |
| OnlineSoftmax.Step | sol_h3/_vendor/sol_attn/sm120/mainloop.py:1098-1192 | After rescaling, the state stands for all earlier terms and the batch's, also when nothing was seen before |
| ForwardSm120.ApproxBatch | sol_h3/_vendor/sol_attn/sm120/mainloop.py:529-539 | The masked summary columns are exactly the group's approximate blocks |
| ForwardSm120.ExactBatch | sol_h3/_vendor/sol_attn/sm120/mainloop.py:634-642 | The masked, biased columns of a block are exactly its real keys with their measures |
| ForwardSm120.SkippedBatch | sol_h3/_vendor/sol_attn/sm120/mainloop.py:508-509 | The approximate step is skipped only if it had no column |
| ForwardSm120.FoldGroup | sol_h3/_vendor/sol_attn/sm120/mainloop.py:354-664 | One group folds its approximate and exact terms, whatever order the lanes stored in |
| ForwardSm120.Finalize | sol_h3/_vendor/sol_attn/sm120/mainloop.py:1195-1230 | Adding the lane sums only at the end still gives the reference and its log-sum-exp; absent rows give zero and -inf |
| ForwardSm120.ForwardRow | sol_h3/_vendor/sol_attn/sm120/mainloop.py:354-688 | The whole streaming row equals the two-pass mixed operator, and its log-sum-exp has the reference's denominator, with any lane order in each group |
| Sm90Scan.LowBit | sol_h3/_vendor/sol_attn/sm90/mainloop.py:1860-1864 | w & -w is the lowest set bit alone |
| Sm90Scan.BfindPow2 | sol_h3/_vendor/sol_attn/common/selector.py:11-29 | bfind of a single bit is its position |
| Sm90Scan.ClearLow | sol_h3/_vendor/sol_attn/sm90/exact.py:186 | w & (w - 1) clears the lowest set bit and nothing else |
| Sm90Scan.ScanIsTheSelection | sol_h3/_vendor/sol_attn/sm90/exact.py:124-186 | The scan visits every set bit of a 32-bit word once, in increasing order |
| Sm90Scan.TakeFirst | sol_h3/_vendor/sol_attn/sm90/mainloop.py:1849-1878 | The first exact block is removed from the words and the rest keep their order |
| Sm90Scan.RouteHasApprox | sol_h3/_vendor/sol_attn/sm90/mainloop.py:1894-1918 | The valid-bit masks detect exactly whether some valid column is not exact |
| Sm90Scan.ConsumeExactBlock | sol_h3/_vendor/sol_attn/sm90/mainloop.py:2206-2244 | One pass consumes one K and one V tile and refills the freed K stage with what comes next, if anything does |
| Sm90Scan.ConsumeExactBlocks | sol_h3/_vendor/sol_attn/sm90/exact.py:120-241 | The scan consumes the first block and every remaining set bit once, in order, with K one ahead, and ends with the next group's KC in the K stage exactly if there is a next group |
| Sm90Scan.RoutePart | sol_h3/_vendor/sol_attn/sm90/mainloop.py:1772-1839 | The prologue loads KC exactly if the previous group did not hand it over |
| Sm90Scan.MainLoop | sol_h3/_vendor/sol_attn/sm90/mainloop.py:1754-2140 | Over all groups of a split, and for four warps in any interleaving, of which three only arrive at the route-sum barrier: KC of each group, then the rows of its exact blocks, each loaded and consumed once, and each group's masks published between the two barriers |
| Sm90Row.CorrectFull | sol_h3/_vendor/sol_attn/sm90/mainloop.py:817-825 | Where all blocks are full, adding the batch's growth of the row sums 63 times more counts every summary 64 times |
| Sm90Row.CorrectTail | sol_h3/_vendor/sol_attn/sm90/mainloop.py:778-793 | With a partial last block, each valid column is added once for each further key of its block |
| Sm90Row.FoldSummaries | sol_h3/_vendor/sol_attn/sm90/mainloop.py:1934-2020 | Online softmax that counts each summary once, then either correction, stands for the summaries with all their keys |
| Sm90Row.BlockBatch | sol_h3/_vendor/sol_attn/sm90/exact.py:35-80 | Masking only the first exact block of a group and the last block of the sequence, or none if all are full, still gives every block exactly its keys |
| Sm90Row.BuildMask | sol_h3/_vendor/sol_attn/sm90/mainloop.py:560-635 | Two ballots over the lanes' decisions have a bit exactly for each real, exact block |
| Sm90Row.FoldScan | sol_h3/_vendor/sol_attn/sm90/exact.py:120-241 | The row folds the block taken out first and then every set bit, one behind the scan |
| Sm90Row.FoldRouteGroup | sol_h3/_vendor/sol_attn/sm90/mainloop.py:1894-2140 | One group folds its approximate and exact terms; the approximate step is left out only if it had no column |
| Sm90Row.FinalizeSplit | sol_h3/_vendor/sol_attn/_vendor/flash_attn/cute/softmax.py:122-164 | The normalised output and natural log-sum-exp of all terms seen, or -inf if none was |
| Sm90Row.SplitRow | sol_h3/_vendor/sol_attn/sm90/mainloop.py:1735-2172 | A split writes the attention over exactly the tiles that every warp consumes in its stream |
| Sm90Row.ForwardRow90 | sol_h3/_vendor/sol_attn/sm90/mainloop.py:1697-2172 | One row through any number of splits and the combine kernel is the two-pass reference with its log-sum-exp |
| SplitMerge.RangesTile | sol_h3/_vendor/sol_attn/sm90/mainloop.py:1738-1753 | The splits' ranges are consecutive pieces of the group range, each of the rounded-up share, trailing ones possibly short or empty |
| SplitMerge.EachGroupOnce | sol_h3/_vendor/sol_attn/sm90/mainloop.py:1738-1753 | Every route group belongs to exactly one split |
| SplitMerge.LastValid | sol_h3/_vendor/sol_attn/sm90/split_combine.py:450-462 | The largest log-sum-exp and the last split that is not empty |
| SplitMerge.CombineRow | sol_h3/_vendor/sol_attn/sm90/split_combine.py:463-550 | The scaled sum of the splits is the attention over all their terms; a split with -inf contributes nothing, whatever its buffer holds |
| SplitMerge.CombineSplits | sol_h3/_vendor/sol_attn/sm90/split_combine.py:463-550 | Splitting the key range and combining gives the unsplit reference |
| SplitMerge.SummaryIsUnique | sol_h3/partitioned.py:38-50 | A normalised output and log-sum-exp are determined by the terms |
| SplitMerge.MergePartitions | sol_h3/partitioned.py:36-50 | Merging equals attention over the union of the keys with each partition's log measure; a partition or measure of -inf contributes nothing |
| SplitMerge.MergeIsWeightedMean | sol_h3/partitioned.py:36-50 | In its inputs alone: the mean of the outputs weighted by exp of log-sum-exp plus measure, with the sum of the weights as exp of its log-sum-exp |
| SplitMerge.LiveIsNonEmpty | sol_h3/partitioned.py:41-47 | There is a union to attend to exactly if some partition has keys and a measure above -inf |
| MixedOperator.Permuted | sol_h3/partitioned.py:38-50 | Terms in another order weigh the same |
| SplitMerge.RegroupingIsFree | sol_h3/partitioned.py:38-50 | However partitions are put into groups and ordered, the attention over the groups' unions is that over the union of all |
| SplitMerge.MeasuredGroup | sol_h3/partitioned.py:38-50 | A measure on a merged group is that measure on each of its partitions |
| SplitMerge.MergeByGroups | sol_h3/partitioned.py:38-50 | A merge of merges, with measures inside groups and on groups, is the attention over all partitions under the sums of their measures |
| SplitMerge.MergeBothWays | sol_h3/partitioned.py:38-50 | It returns the same output and log-sum-exp as one merge of all partitions in any order |
| SplitMerge.PartitionedRow | sol_h3/partitioned.py:187-222 | The kernel on every partition followed by the merge is attention over the measured union of their terms |
| ScaledSoftmax.RowIsReference | sol_h3/_vendor/sol_attn/triton_ref/fwd.py:172-175 | At the end of a row the divisor is positive and the quotient is the reference |
| TritonForward.FoldColumns | sol_h3/_vendor/sol_attn/triton_ref/fwd.py:109-139 | Either form's approximate step, also for a group without approximate blocks met while the maximum is still -inf |
| TritonForward.MinimumIsNext | sol_h3/_vendor/sol_attn/triton_ref/fwd.py:141-149 | The repeated minimum finds the exact blocks in increasing order |
| TritonForward.FoldExactBlocks | sol_h3/_vendor/sol_attn/triton_ref/fwd.py:141-170 | The exact loop folds the keys of exactly the selected blocks, and never meets an empty block |
| TritonForward.Decide | sol_h3/_vendor/sol_attn/triton_ref/fwd.py:97-107 | The program's scaled 64-row sum decides as the routing rule does |
| TritonForward.ForwardRow32 | sol_h3/_vendor/sol_attn/triton_ref/fwd.py:242-354 | Groups of 32, in both forms, give the same value as the reference and so as SM120's groups of 64 |
| ChosenBlocks.ChosenIsIncreasing | sol_h3/_vendor/sol_attn/sm100/mainloop.py:905-996 | The exact list of a range is increasing and holds exactly its exact blocks |
| Sm100Pairs.PairBatch | sol_h3/_vendor/sol_attn/sm100/mainloop.py:1303-1384 | A pair contributes the keys of its blocks; a duplicated odd peer adds neither mass nor value |
| Sm100Pairs.FoldPairs | sol_h3/_vendor/sol_attn/sm100/mainloop.py:1182-1206 | Pairing the list uses every exact block once |
| Sm100Pairs.PairedTotal | sol_h3/_vendor/sol_attn/sm100/mainloop.py:834-935 | The four warps' scaled partial sums, added in pairs, are the scaled sum over the rows that exist |
| Sm100Pairs.FoldHalf | sol_h3/_vendor/sol_attn/sm100/mainloop.py:905-996 | A half appends its exact blocks at the cumulative count, leaving earlier entries, and folds its approximate columns |
| Sm100Pairs.FoldGroup256 | sol_h3/_vendor/sol_attn/sm100/mainloop.py:716-1384 | Two halves make one increasing list within 256 slots, and the group folds as any other |
| Sm100Pairs.ForwardRow256 | sol_h3/_vendor/sol_attn/sm100/mainloop.py:716-1530 | The whole row equals the reference, from an output accumulator with arbitrary contents |
| WireMap.Validate | sol_h3/mapped_neighbors.py:173-242 | Validation accepts exactly the well-formed tuples with a proper run map and reports the first fault otherwise |
| WireMap.AcceptedFields | sol_h3/mapped_neighbors.py:173-242 | An accepted value has just these nine entries within these bounds, and runs that follow one another in rows and in positions |
| WireMap.FieldsAreAccepted | sol_h3/mapped_neighbors.py:173-242 | Every such tuple is accepted, with just these fields |
| WireMap.HeaderFaults | sol_h3/mapped_neighbors.py:173-182 | Which of the four reasons a faulty header is refused for |
| WireMap.WireRoundTrip | sol_h3/mapped_neighbors.py:132-144 | The wire tuple rebuilt from a validated map validates to that map again |
| WireMap.SafeKeysAreExact | sol_h3/mapped_neighbors.py:98-129 | Two keys that pass the safety test and compare equal are identical, booleans and integers included |
| WireMap.UnsafeKeysCollide | sol_h3/mapped_neighbors.py:98-129 | Without the test different keys compare equal |
| MappedNeighbors.ReadRuns | sol_h3/mapped_neighbors.py:183-213 | The runs are accepted exactly if they cover the query rows in order at increasing positions inside the key range |
| MappedNeighbors.FirstFault | sol_h3/mapped_neighbors.py:183-213 | A refused list has a first faulty entry, and the reason tells whether its rows or its positions are at fault |
| MappedNeighbors.PositionsIncrease | sol_h3/mapped_neighbors.py:191-213 | In an accepted map positions strictly increase with rows |
| MappedNeighbors.MergeBlockIntervals | sol_h3/mapped_neighbors.py:244-256 | Merging keeps the covered blocks and leaves gaps between intervals |
| MappedNeighbors.RangeIsNeighbors | sol_h3/mapped_neighbors.py:295-304 | The interval computed for a run's share of a tile is exactly the blocks within one of a block those rows occupy |
| MappedNeighbors.SelectRanges | sol_h3/mapped_neighbors.py:287-305 | The two-pointer scan collects exactly the tile's neighbours, although it starts at a remembered run |
| MappedNeighbors.CompileTile | sol_h3/mapped_neighbors.py:287-315 | A tile is accepted exactly if its neighbour set is one interval of at most four blocks, and the interval is that set |
| MappedNeighbors.CompileMap | sol_h3/mapped_neighbors.py:277-326 | The single sweep compiles every tile so, or refuses for the first tile that cannot be |
| MappedNeighbors.PlannedHasRow | sol_h3/mapped_neighbors.py:277-326 | In a compiled plan each tile has an interval of at most four blocks, and a block lies in it only if some row of the tile has its position in that block or in one next to it |
| MappedNeighbors.RowIsPlanned | sol_h3/mapped_neighbors.py:277-326 | And always if so |
| MappedNeighbors.RefusalHasTile | sol_h3/mapped_neighbors.py:307-315 | A refusal is for the first tile with a block between two neighbours that is none, or with more than four neighbours in a row |
| MappedNeighbors.IdentityExactly | sol_h3/mapped_neighbors.py:275-276 | Nothing is compiled exactly for square maps of every row to itself |
| MappedNeighbors.IdentityIsDiagonal | sol_h3/mapped_neighbors.py:275-276 | In a square identity map a tile's neighbours are the blocks that the kernel's diagonal rule selects, so no intervals are needed |
| MappedNeighbors.CompiledIsUnique | sol_h3/mapped_neighbors.py:259-330 | The map alone decides the plan or the refusal |
| MappedNeighbors.TileHasNeighbor | sol_h3/mapped_neighbors.py:307-309 | No tile is without neighbours: the empty branch is unreachable |
| MappedNeighbors.SingleRunTile | sol_h3/mapped_neighbors.py:277-326 | A tile covered by one run is never refused |
| PlanCache.StoredKeeps | sol_h3/mapped_neighbors.py:147-156 | Storing keeps at most 64 truthful entries with distinct keys, the new one last |
| PlanCache.StoredExactly | sol_h3/mapped_neighbors.py:147-156 | A new entry pushes out the oldest of 64, a replaced one leaves its place, all others stay in order |
| PlanCache.Cache.Store | sol_h3/mapped_neighbors.py:147-156 | Assigning, moving to the end and evicting from the front is that store |
| PlanCache.Cache.ValidateWireMap | sol_h3/mapped_neighbors.py:159-242 | Cached validation returns or refuses as the uncached one does, and its effect on the cache |
| PlanCache.Cache.CompileDescriptor | sol_h3/mapped_neighbors.py:259-330 | Cached compilation returns or refuses as the uncached one does; the identity-changed error cannot occur |
| ByteCache.TrimmedIsLongestSuffix | sol_h3/mapped_neighbors.py:427-429 | Eviction keeps the longest recent suffix within both limits |
| ByteCache.TrimmedExactly | sol_h3/mapped_neighbors.py:427-429 | What is left has at most 64 entries and 4194304 bytes, and one entry more would exceed one of them |
| ByteCache.LastSurvives | sol_h3/mapped_neighbors.py:422-430 | An entry that fits by itself is never evicted by its own insertion |
| ByteCache.OversizedTakesAll | sol_h3/partitioned_request.py:184-191 | An entry beyond the budget empties the cache and leaves itself out |
| ByteCache.Lru.Insert | sol_h3/mapped_neighbors.py:425-430 | The byte counter equals the retained sizes, and an empty map is never popped |
| ByteCache.DeviceDescriptor | sol_h3/mapped_neighbors.py:375-430 | Hit or miss, the intervals of the plan asked for; refused exactly if uncached and over budget |
| ByteCache.KeyBias | sol_h3/partitioned_request.py:120-191 | The measure tensor of the range asked for, from the cache or new; refused exactly for ranges and measures that are not allowed |
| GateStatistics.MetricTiles | sol_h3/sparse.py:82-94 | Tiles of any rank and shape partition the elements in order, none above 262144 |
| GateStatistics.GatePartials | sol_h3/gate_metrics_triton.py:35-67 | The padded fused tiles of 2048 join to the statistics of the whole chunk |
| GateStatistics.ErrorAccumulator.Add | sol_h3/sparse.py:107-130 | A chunk counts once, fused or not |
| GateStatistics.ErrorAccumulator.Statistics | sol_h3/sparse.py:132-148 | The merged statistics are those of all samples seen |
| GateStatistics.PassesExactly | sol_h3/sparse.py:150-219 | The verdict on samples: errors at most 0.002 on average, their squares at most 0.005 squared of the larger of the references' squares and 1e-24, and no error beyond both 0.5 and four times every reference; refused otherwise |
| SparseAttention.SinkBlocksMeetRows | sol_h3/_vendor/sol_attn/interface.py:171-179 | The sink blocks are those that hold a sink row |
| SparseAttention.SinkRoundTrip | sol_h3/sparse.py:404-409 | A range of exact blocks survives the way through rows and back |
| SparseAttention.PortionIsCall | sol_h3/sparse.py:364-368 | A gate chunk's slice of the mapped intervals has the right tile count |
| SparseAttention.PortionIsSlice | sol_h3/sparse.py:364-377 | The kernel on whole tiles with their query origin gives that slice of the whole result |
| SparseAttention.AllSinkKernelIsDense | sol_h3/sparse.py:373-378 | With all keys as sink the kernel computes the dense reference for every row |
| Qualification.Gate | sol_h3/sparse.py:362-390 | The chunked gate's verdict is over every query row once |
| Qualification.SampleOfRow | sol_h3/sparse.py:362-387 | The two numbers compared for each row: the kernel on the row's chunk with every key a sink key, and the dense reference on the same queries |
| Qualification.QualifiesExactly | sol_h3/sparse.py:362-390 | A call qualifies exactly if these samples of all its rows meet the three limits |
| Qualification.VerdictIsWhole | sol_h3/sparse.py:362-390 | It is the verdict of one comparison of the whole outputs |
| Qualification.ExactQualifies | sol_h3/sparse.py:373-390 | In exact arithmetic every call passes |
| SparseRequest.Request.Attention | sol_h3/sparse.py:267-422 | A call is refused exactly if invalid or if its kind has not qualified and does not now; otherwise sparse rows with dense prefix rows, and its kind is then qualified |
| SparseRequest.SameKind | sol_h3/sparse.py:341-349 | Two calls are of one kind exactly if they agree in placement and layout, geometry, calibration, use of a map and query origin |
| PlainAttention.ValidArguments | sol_h3/sparse.py:267-312 | The arguments that are accepted, for mapped, weighted and plain calls |
| PlainAttention.RowsOfCall | sol_h3/sparse.py:404-422 | Whatever the provider computes, each row is the dense reference's or that of one kernel call with the call's own tensors, intervals and origin, whose sink is the prefix or the rows of the exact blocks |
| PlainAttention.SparseRowOfCall | sol_h3/sparse.py:404-422 | In exact arithmetic a sparse row is the mixed operator on the call's own scores, values and measures, and every block of the prefix, or of the range of exact blocks, is exact for it |
| PlainAttention.KernelRowTile | sol_h3/_vendor/sol_attn/interface.py:400-460 | Which scores, centroids, block sums, measures, threshold, sink and interval decide a row of a kernel call |
| PlainAttention.DenseIsSoftmax | sol_h3/sparse.py:222-243 | The dense reference is softmax of the query's scaled scores plus the keys' measures |
| SparseRequest.ExpectedRows | sol_h3/sparse.py:410-422 | The rows replaced are exactly those before the prefix's end in the whole sequence |
| StreamedAttention.ProjectKeys | sol_h3/streamed.py:192-199 | The chunked first pass fills K and V with the rows of one whole projection |
| StreamedAttention.ChunkIsSlice | sol_h3/sparse.py:410-422 | A chunk's call returns that slice of the unstreamed call |
| StreamedAttention.Streamed | sol_h3/streamed.py:181-223 | Refused exactly for a bad chunk size, a bad prefix, or a chunk of this run whose kind was not verified before and does not qualify; otherwise the output of one unstreamed call, with every chunk's kind verified |
| StreamedAttention.UnstreamedRows | sol_h3/sparse.py:404-422 | That output: dense rows of the prefix, then one kernel call on all rows with the prefix as sink |
| StreamedAttention.RejectedExactly | sol_h3/streamed.py:181-223 | A chunk is rejected exactly if no call of its origin and size has been verified and its own does not qualify |
| StreamedAttention.NeverRejected | sol_h3/streamed.py:181-223 | In exact arithmetic no chunk is rejected |
| StreamedAttention.StreamedRow | sol_h3/sparse.py:416-420 | Over all chunks the densely recomputed rows are exactly those before the prefix's end |
| Receipts.WellFormedIsPublishable | sol_h3/partitioned_history.py:390-502 | The validator's structural test accepts exactly what some successful call publishes, but for two families no call publishes |
| Receipts.PublishedIsWellFormed | sol_h3/partitioned_request.py:476-506 | Every published receipt passes the structural test |
| Receipts.PublishedFields | sol_h3/partitioned_request.py:476-506 | Route, mode, contract and every field of the receipt of a successful call |
| Receipts.SucceedsExactly | sol_h3/partitioned_request.py:560-760 | When a call publishes |
| Receipts.WellFormedExactly | sol_h3/partitioned_history.py:390-502 | The structural test, by the four ways of computing a block's attention |
| Receipts.DenseMeasureIsNeverPublished | sol_h3/partitioned_history.py:390-502 | A native dense receipt with a key measure passes that test, and no call publishes one |
| Receipts.ForeignContractIsNeverPublished | sol_h3/partitioned_history.py:390-502 | A sparse receipt under another kernel contract passes that test, and no call publishes one |
| Receipts.RouteIsDetermined | sol_h3/partitioned_history.py:476-502 | Fields are well-formed under one route only, so the record need not hold the route |
| ReceiptRuns.EventEffects | sol_h3/runtime.py:185-205 | Only the first block of a forward counts an evaluation; a forward gets the count of its request; only a successful call in a forward of the current request publishes |
| ReceiptRuns.AcceptedExactly | sol_h3/partitioned_history.py:504-517 | In every run, nested or not, a receipt is accepted exactly if it was published in the current request under the active evaluation number and nothing was published there under another number since |
| ReceiptRuns.SharedNumber | sol_h3/runtime.py:185-205 | Two forwards of a request have one evaluation number exactly if no block begins between their entries |
| ReceiptRuns.AcceptedByBlocks | sol_h3/partitioned_history.py:504-517 | So acceptance, told by blocks alone: no beginning block separates the publishing forward, or any that published since, from the active one |
| ReceiptRuns.AcceptedWasPublished | sol_h3/partitioned_history.py:504-517 | In every run an accepted receipt was published, route and all, in the same request under the same evaluation number |
| ReceiptRuns.PublishedIsAccepted | sol_h3/partitioned_request.py:509-535 | A receipt of the active forward is accepted exactly if, since it was last published, no forward separated from the active one by a block has published in the request |
| ReceiptRuns.AcceptedIsFresh | sol_h3/runtime.py:185-205 | Everything accepted is the active forward's own exactly if each receipt an unseparated other forward has left has been published by the active one too |
| ReceiptRuns.SeparatedForwardsAreFresh | sol_h3/runtime.py:185-205 | If a block separates the active forward from all others that published, only its own receipts are accepted |
| ReceiptRuns.BlocklessForwardsShareReceipts | sol_h3/runtime.py:192-205 | A forward without a block leaves its evaluation number, and so its receipts, to the next |
| ReceiptRuns.NestedForwardLosesReceipts | sol_h3/partitioned_request.py:524-531 | A forward nested after a block has begun and publishing restarts the record, and the outer forward's receipts are refused |
| ReceiptRuns.AcceptReceipts | sol_h3/partitioned_history.py:577-594 | A history is accepted exactly if it is not empty, each partitioned receipt is, and the rest is by the released rule |
| ReceiptRuns.AcceptedHistory | sol_h3/partitioned_history.py:577-594 | In an accepted history every item with one of the three routes was published in the current request under the active number |
| ReceiptRuns.ReleasedItems | sol_h3/partitioned_history.py:577-594 | The released rule is asked about exactly the items without one of the three routes |
| ReceiptRuns.PartitionedNeedNoRelease | sol_h3/partitioned_history.py:577-594 | A history of acceptable receipts with these routes is accepted whatever the released rule says |
| GroupedGather.GatherTile | sol_h3/grouped_kv_triton.py:26-49 | One program writes its window rows, keeps its sink rows, and reduces the tile of both in order |
| GroupedGather.GatherSummaries | sol_h3/grouped_kv_triton.py:26-49 | Programs in any order leave sink rows, fill window rows, and yield the summaries of the separate reducer, straddling and partial tiles included |
| GroupedGather.ReduceBlock | sol_h3/_vendor/sol_attn/preprocess.py:121-135 | The separate reducer's mean and sum over a padded tile |
| GroupedGather.ReducedExactly | sol_h3/_vendor/sol_attn/preprocess.py:121-135 | Both, by running sums over the rows |
| MixedMeasure.NearestIsMonotone | sol_h3/mixed_measure.py:60-61 | A larger coordinate never has an earlier nearest row, ties included |
| MixedMeasure.NearestExactly | sol_h3/mixed_measure.py:50-61 | Nearest in the axes' own coordinates: none nearer, and none before it as near |
| MixedMeasure.SameAspectIsOneToOne | sol_h3/mixed_measure.py:62-63 | For grids of one aspect ratio the one-to-one check cannot fail |
| MixedMeasure.GridAt | sol_h3/mixed_measure.py:64-66 | Row (y, x) of the grid is the y-th row index times the width plus the x-th column index |
| MixedMeasure.Representatives | sol_h3/mixed_measure.py:40-67 | Accepted exactly if the nearest prefix rows and columns of the source coordinates are distinct; then each source row is represented by the prefix row nearest on both axes, in native order |
| MixedMeasure.GatherIndices | sol_h3/mixed_measure.py:147-165 | All rows before the video, each prefix frame's representatives, all suffix rows: in order, without repetition, and the consistency check cannot fail |

## Left out

- Floating point: rounding, BF16 and FP32 conversion, NaN, fast-math and the order of reductions. Equalities are over the reals; no bitwise claim is made.
- KvProgram.KernelAccepted: the Q pipeline, and the reuse of the Q buffer as route scratch before the group loop and as output buffer after it, which rest on physical layouts.
- WarpMachine.RunIsSafe: a warp's 32 lanes act together, and a tile load, a GEMM and an accumulator coordinate are atomic; TMA descriptors, swizzles and fragment layouts are not modelled.
- ForwardSm120.ForwardRow: one row and one value coordinate at a time; rows of a tile share the route and are otherwise independent. The functions are loops over values rather than register arrays.
- Sm90Scan.MainLoop: the Q pipeline and the epilogue; mask words 2 and 3 are zero, as two words are built. A split without groups has an empty stream.
- Sm90Row.ForwardRow90: one row and one value coordinate; the several ways of reducing column sums over lanes (lane groups, static tail, 16 columns) are one sum over each warp's sixteen rows, and register layouts of scores and masks are not modelled.
- Sm100Pairs.ForwardRow256: the SM100 pipelines, TMEM and barriers; only the data flow of a row is modelled.
- SplitMerge.MergePartitions: shape and dtype checks of the outputs, and inputs without any key left, for which the source's result is not a number.
- PlanCache.Cache.CompileDescriptor: SHA-256 digests of maps and plans, which are functions of the fields modelled; a request without a cache.
- ByteCache.DeviceDescriptor: CUDA streams, events and graph capture.
- SparseRequest.Request.Attention: device, dtype and strides are one opaque value that the qualification key carries; loading the kernel, a prepared K/V workspace, and an inherited dense attention for prefix rows.
- GateStatistics.ErrorAccumulator.Add: the finiteness flag and tensor strides; elements are taken in logical order. The square root is a parameter.
- StreamedAttention.Streamed: module hooks and eligibility, the packed projection, the lifetime of buffers and exceptions; the projection is any row-local function.
- Receipts.WellFormedIsPublishable: digests are opaque strings; the arithmetic gate's verdict and the warm-up schedule are inputs of a call.
- ReceiptRuns.AcceptedWasPublished: request fields are values of a state machine, not object fields; threads are not modelled, and a call that raises changes nothing.
- MixedMeasure.Representatives: the ratio of an axis to the square root of the area is a parameter.
- Telemetry, node wiring, configuration, provenance, compile caches, exact threshold mode, weighted-measure planning, and history identity other than receipts.
