# One-pass sketches: a verified model

The repository computes HyperLogLog, Fast-AGMS and Count-Min sketches and a few basic
metrics of a stream of 32-bit items in one pass. It does so twice: as a network of
streaming stages in hardware, and as a multi-threaded C++ library behind two drivers and
a TCP server. This project models both and proves what they compute.

`dafny verify dfyconfig.toml` checks everything.

## What is modelled

**The hardware network.** A FIFO (`Streams.Queue`) keeps everything ever written to it and
how much has been read, so that each stage is a function from what it has consumed to what
it has produced. Where the source keeps state and works in place, there is a class with
the same fields and loops (`DistrFunnel`, `Collect`, `UCollect`, `Fold`, `Concat`,
`HllEstimator`, `BasicSketch`, `Composition`, `Aggregate`, and the stage methods in
`Stages`), each proved equal to its step function. `KernelSafety.Run` plays an arbitrary schedule:
source flits arrive at any time, any stage may idle for any number of cycles, and every
read of a `Collect` memory may miss any of the last three writes (`Collecting.Visibility`).
Widths, lane counts, row counts and bucket bits are parameters throughout.

The chain of results is: the funnel deals out exactly the items of each job, one after the
other in a circle (`Funnel.LanesPartitionJob`); the forwarding registers make the delayed
memory an ideal map (`Collecting.UnitRefinesIdeal`); each lane dumps the fold of its share
(`Collecting.CollectStepInv`); over a commutative monoid these shares combine to the sequential
sketch (`Joined.JoinedJobs`), although which lane got which item depends on timing; what such a
cell holds is said from the bits of the hashes alone in `CellValues` (the largest rank, set less
clear sign bits, a count); records are framed for every arrival order
(`Records.ComposeStepIff`); the network as a whole emits for job `j` the record of job `j`
(`KernelResults.KernelCorrect`), and nothing is missing once no stage can move
(`KernelResults.KernelComplete`). Every action that moves data decreases a measure of the work
left (`Liveness.WorkDecreases`) and every other one leaves it as it is (`Fairness.WorkStays`),
so that every infinite run without further input comes to rest (`Fairness.ComesToRest`), and an
infinite run in which every stage gets its turn again and again, as in `RoundRobin.InTurn`,
comes to rest in such a state (`Fairness.FairRunsFinish`). `Skt` instantiates this with the
three sketches and ends with what the host reads: `Skt.SktCorrect` for every record there is,
`Skt.SktServesFairly` for every job fed.

**The software.** `SktCollector` has the three tables as arrays updated by the shifting
loops of the source. Its ghost field `items` records what it has seen, and `Valid` says that
the tables are exactly the sequential sketch of these items. Collecting, merging and
cleaning keep that. `Drivers` has the two multi-threaded drivers; their threads take turns item
by item in any order. `Skt.RecordLikeSoftware` connects software tables and hardware records for
the same items.

**The server.** `Reassembly` cuts a byte stream into words, chunk by chunk. `Server` is the
job protocol as a state machine of atomic pushes and pops of one receiver and M workers,
under any interleaving. `Connections` has the same as variables updated in place: two queues, a
pool of buffers, the receiver's carry, and workers that are somewhere within their jobs; every
turn of a thread is a step of the state machine or one item more. `ServerSchedules.AllAfter` says
what a schedule of all threads of all connections does; `ServerResult.Serve` plays it on the
variables and merges the collectors, and `ServerMedian.ServeWithMedian` also takes the median of
the row sums.

**Bit arithmetic.** `BitUtils` (population count, Gray codes, one-hot codes) and `Murmur`
(explicit inverses of the Murmur3 mixers). `WordZero` and `WordOne` compute the hashes of
the words 0 and 1, step by step. Machine words are natural numbers below a power of two;
masks and shifts are remainders and quotients, exclusive or is defined bit by bit.

## What the proofs found

Each of these is an exact condition, proved in both directions.

- `MergeCondition.MergeIff`: `merge0` checks the shapes of the tables, but not the hashes. An
  accepted merge gives the sketch of both inputs for all inputs if and only if both sides enter
  every word in the same cells with the same increments (`SktCollector.Agrees`), the hash widths
  being part of that because the bucket depends on them. It fails for a collector with IDENT that
  merges one with MURMUR3_128 and 2^13 buckets which has seen word 0
  (`MergeCondition.IdentAcceptsMurmur`).
- `SecondMoment.SoftwareMomentIff`: the software's 32-bit row sum is the sum of sign times sign over
  all pairs of items sharing a cell, and so without collisions the second moment, if and only if
  that is below 2^31. For 65536 copies of one word, whose second moment is 2^32, the sum is 0
  (`SecondMoment.MomentOverflows`).
- `Drivers.Bench`: the benchmark has runs to report if and only if its arguments are admitted and
  there are at least one repetition, one block of items, one thread and one bucket bit. The
  argument check also admits zero of each. Without items or threads the first repetition indexes
  an empty vector of collectors (`NoCollector`), without bucket bits collecting shifts a hash by
  its whole width (`ShiftTooWide`), and without repetitions the report indexes an empty vector of
  measurements (`NothingMeasured`).
- `ServerMedian.ServerMedianIff`: the server's collectors have five rows, the column that it puts
  their sums into has six, and the sixth is sorted in as a zero. The median it takes is that of
  the row sums if and only if the third of the sorted sums is the value closest to zero between
  the second and the fourth; as long as no sum overflows, if the third and the second are equal.
  For the words 0 and 0x4001 and IDENT it takes 3 instead of 4 (`ServerMedian.MedianMissed`).
  With as many rows in the column as in the collectors, as in the benchmark, it is the median of
  the row sums (`ServerMedian.SameRows`).
- `BitSlices.SentinelDefinedIff`: the sentinel is non-zero for every hash, which the software's
  zero count relies on, if and only if there are bucket bits.
- `Agreement.HllKeysAgreeIff`: software and hardware put all hashes into the same HyperLogLog
  buckets if and only if their hash widths are equal. The shipped widths are 128 and 84. Word 0,
  for one, goes into bucket 0x180a of 2^16 in software and 0xa166 in hardware
  (`Agreement.ShippedBuckets`), so that already the bucket tables of the job that consists of
  word 0 differ (`Agreement.ShippedTablesDiffer`). Both are valid sketches.
- `RecordCount.DeliveryIff`: an idle kernel has sent one record for every job fed, after every
  schedule, if and only if a job has an even number of Count-Min cells. With an odd number it
  sends one record for every two jobs of cells (`RecordCount.RecordsSent`), and none for the first
  job alone (`RecordCount.FirstJobWaits`). A step of the composition breaks the framing if and only
  if it meets a job's last cell without a first half to pair it with (`Records.ComposeStepIff`).
  `Skt.Config` shows that P_CM > 0 makes the number even.
- `Skt.FlitSumsFitIff`: the sums of a flit have clog2(N) spare bits, N being the number of
  lanes. They are exact for every flit if and only if no power of two is at least N and less than
  N0, the number of words per flit. Narrowing N below that lets them wrap. For N = N0 every job
  that the counters can count has its exact record (`Skt.FullWidthIsExact`).
- `HllEstimation.EstimatorExact`: the accumulator equals the harmonic sum if and only if some
  bucket is not empty. `Skt.HllExact` shows that this holds for every job.
- `Aggregation.LastKeptIff`: a `last` flag is lost if and only if the item that carries it is
  merged into an older one. No stage of the kernel uses that class.

## Conventions

- Counters wrap around, signed ones in two's complement (`Monoids.Wrap`).
- The memory of a `Collect` unit starts with three zero writes still under way.
- The cycle counter `cc` counts the steps of the composition since the latest tick
  (`Cycles.CyclesCounted`); the history `ccs` keeps the values that went into records.
- The conversion of zero count and accumulator to a floating-point estimate is the
  parameter `card`.
- The machine is little-endian, as the host's view of a record and the server's carry assume.
- Threads of the drivers share nothing but their input, which `Drivers.Team` states. A schedule
  is a sequence of turns; a turn that is not possible does nothing. A driver finishes what its
  schedule leaves, so that its result is stated for all schedules. The server has a result exactly
  after those schedules that have brought all connections to their end; every schedule can be
  continued to one of them (`ServerSchedules.EndAttainable`).

## Model

| member | source | states |
|---|---|---|
| `Streams.JobsMap` | hw/src/streaming.hpp:88-93 | a mapping stage keeps the job structure: same jobs, mapped item by item |
| `Monoids.SumConcat` | sw/src/skt.cpp:90-123 | a fold over two collections in turn is the combination of the two separate folds |
| `Monoids.SumPermutation` | hw/src/distr.hpp:18-57 | a fold over a commutative monoid depends only on the multiset of the items |
| `Monoids.SumFlatten` | hw/src/streaming.hpp:119-134 | folding the folds of all lanes is folding all their items |
| `Monoids.AddWrapLawful` | hw/src/krnl_skt_stream.cpp:173-175 | addition modulo 2^W, signed or unsigned, is a commutative monoid on its range |
| `Lanes.DealItem` | hw/src/distr.hpp:18-28 | handing one more item to the next lane keeps: the items of every job, complete or open, have one owner each, ownership goes round the lanes in a circle, each lane holds the items it owns in their order, and closes its share once |
| `Lanes.DealGroup` | hw/src/distr.hpp:18-29 | a full row, or the rest of a job, hands over to lane 0 again with all lanes at the same job |
| `Funnel.MarkAllParse` | hw/src/distr.hpp:37-43 | marking the last K words of a job's final flit frames every job: parsed back, the marked stream is exactly the jobs |
| `Funnel.FunnelStepInv` | hw/src/distr.hpp:14-57 | for any timing of the source a step keeps: at most N+K-1 items buffered; all others dealt out, job by job, in a circle and in order; one `last` per lane and job |
| `Funnel.TailGroup` | hw/src/distr.hpp:18-29 | with less than a row buffered, the latest flit alone decides: everything goes out if it closes its job and nothing otherwise, so `last` bits of older flits never cause output |
| `Funnel.LanesPartitionJob` | hw/src/distr.hpp:14-70 | once job j has been closed by all lanes, its words are dealt out: lane after lane in a circle, beginning anywhere, every lane with its words in their order, all lanes together with exactly the job's words |
| `Funnel.IdleMeansDelivered` | hw/src/distr.hpp:18-31 | when the funnel can hand out nothing more, every lane has closed every complete job |
| `Funnel.FunnelDrains` | hw/src/distr.hpp:18-29 | after a final flit, with the source empty, each step shrinks the buffer by K down to zero |
| `Funnel.DrainBound` | hw/src/distr.hpp:18-29 | n such steps empty the buffer if and only if it holds at most n rows |
| `FunnelUnit.DistrFunnel.WriteOut` | hw/src/distr.hpp:20-23 | the loop writes exactly the leading items to the lanes, whatever lies beyond the count |
| `FunnelUnit.DistrFunnel.Fill` | hw/src/distr.hpp:34-56 | splitting, realigning and overwriting in place appends the marked flit behind the buffered items |
| `FunnelUnit.DistrFunnel.Step` | hw/src/distr.hpp:6-59 | the in-place buffer with stale items beyond its count refines the queue of items |
| `FunnelUnit.SplitFlit` | hw/src/distr.hpp:61-70 | the equal-width case hands word i of each flit to lane i |
| `Collecting.UnitRefinesIdeal` | hw/src/streaming.hpp:247-289 | whichever of the last three writes a read misses, and in idle cycles, the registers make every value used or dumped that of an ideal map |
| `Collecting.CollectStepInv` | hw/src/streaming.hpp:229-290 | over a run the output is, job after job, all 2^P cells in order with `last` on the final one only, each the fold of that job's increments, and the memory is zero between jobs |
| `Collecting.CollectInit` | hw/src/streaming.hpp:231-238 | a zeroed unit satisfies the run invariant |
| `Collecting.Collect.Step` | hw/src/streaming.hpp:242-289 | the registers, memory and pointers, updated in place, follow the unit's step for any visibility of pending writes |
| `Collecting.UCollect.Step` | hw/src/streaming.hpp:366-410 | with a perfect memory the simple form follows the ideal step |
| `Network.RowCollectInv` | hw/src/streaming.hpp:242-289 | a collector step keeps the row's invariant and leaves what has been joined alone |
| `Network.RowReduceInv` | hw/src/streaming.hpp:119-134 | a reduction reads all lanes in lockstep: flit t of the result folds flit t of every lane |
| `Network.SketchDistributeInv` | hw/src/krnl_skt_stream.cpp:321-338 | distributing hashes keeps every sketch's invariant |
| `Network.NetStepInv` | hw/src/krnl_skt_stream.cpp:80-243 | every step of every stage, in any order, keeps the network's invariant |
| `Stages.MapStepInv` | hw/src/streaming.hpp:88-93 | over any number of cycles everything produced is the image of everything consumed |
| `Stages.MapStream` | hw/src/streaming.hpp:88-93 | one call reads and writes as the mapping step says |
| `Stages.SplitStream` | hw/src/streaming.hpp:100-110 | every destination gets its own image of the element read, or nothing changes |
| `Stages.ReduceStreams` | hw/src/streaming.hpp:118-134 | reads from all sources or from none, and writes the fold of what was read |
| `Stages.DistributeStreams` | hw/src/krnl_skt_stream.cpp:320-338 | each lane advances on its own and sends its hash to all sketches |
| `Stages.DistributeIsStep` | hw/src/krnl_skt_stream.cpp:320-338 | for each sketch this is the network's distribution step |
| `Joined.JoinedIsSketch` | hw/src/krnl_skt_stream.cpp:84-243 | flit j*M+key of a row, for any schedule and lane count, is cell `key` of the sequential sketch of job j, flagged on the last cell only |
| `Joined.JoinedJobs` | hw/src/krnl_skt_stream.cpp:84-243 | job j that a row's reduction emits is the sequential sketch of exactly job j of the source |
| `Joined.IdleIsComplete` | hw/src/krnl_skt_stream.cpp:84-243 | when no stage can move data, every row has emitted the sketch of every complete job |
| `Joined.IdleJobs` | hw/src/krnl_skt_stream.cpp:84-243 | then the number of jobs of every row is that of the source |
| `Results.FoldStepInv` | hw/src/streaming.hpp:146-163 | result j is the fold of job j, and the buffer starts every job from zero |
| `Results.Fold.Step` | hw/src/streaming.hpp:151-162 | the buffer updated in place follows the folding step |
| `Results.ConcatStepInv` | hw/src/streaming.hpp:172-195 | job j of the output is job j of all inputs strung together, with `last` at its end only |
| `Results.Concat.Step` | hw/src/streaming.hpp:177-193 | the index updated in place follows the concatenation step |
| `Basic.Summarise` | hw/src/krnl_skt_stream.cpp:462-474 | the loop over a flit's words computes the summary function |
| `Basic.SummaryExact` | hw/src/krnl_skt_stream.cpp:245-258 | with enough spare bits minimum, maximum, sum and sum of squares of a flit are exact |
| `Basic.SumExactIff` | hw/src/krnl_skt_stream.cpp:245-258 | flit sums are exact for every flit if and only if the spare bits cover the flit width |
| `Basic.BasicStepInv` | hw/src/krnl_skt_stream.cpp:260-317 | each job is dumped as its own four words and nothing leaks into the next job |
| `Basic.BasicSketch.Step` | hw/src/krnl_skt_stream.cpp:260-317 | the static accumulators, updated in place, follow the step |
| `Basic.MetricsExact` | hw/src/krnl_skt_stream.cpp:265-283 | while the padded item count is below 2^32 no accumulator wraps: count, extremes, sum and sum of squares are those of the job |
| `HllEstimation.HllEstimator.Step` | hw/src/krnl_skt_stream.cpp:44-74 | zero count and accumulator, updated in place, follow the absorbing step, which adds a single bit for each rank, and are reset at `last` |
| `HllEstimation.SingleBit` | hw/src/krnl_skt_stream.cpp:53-54 | the bit set for a rank up to L, taken 2^rank times, is 1: it stands for 2^(-rank) |
| `HllEstimation.ShareOfRank` | hw/src/krnl_skt_stream.cpp:53-54 | so does the contribution of a rank in the absorbing step |
| `HllEstimation.HarmonicByRank` | hw/src/krnl_skt_stream.cpp:53-55 | adding up bucket by bucket gives the sum over all ranks r of the number of buckets of rank r times 2^(-r) |
| `HllEstimation.EstimatorExact` | hw/src/krnl_skt_stream.cpp:26-55 | over 2^P ranks the zero count is the number of zero ranks, and the accumulator is the sum over all ranks r of the number of buckets of rank r times 2^(-r), below 2^P, if and only if some bucket is not empty |
| `Compose.Composition.Step` | hw/src/krnl_skt_stream.cpp:340-409 | the static index, half-word buffer and counter, updated in place, follow the composition step |
| `Cycles.OneTickPerJob` | hw/src/krnl_skt_stream.cpp:447-457 | after every schedule as many ticks have been written as jobs have been begun |
| `Cycles.CyclesCounted` | hw/src/krnl_skt_stream.cpp:348-353 | after every schedule the counter is the number of compositions from the latest tick taken on, modulo 2^32, and the count in record j is the one at the composition that sent it |
| `Records.RegularStep` | hw/src/krnl_skt_stream.cpp:356-407 | whatever arrives next, complete records are those of their jobs and the open one is a proper beginning of its record |
| `Records.ComposeStepIff` | hw/src/krnl_skt_stream.cpp:392-406 | a step keeps that framing if and only if it does not meet a job's last cell without a half word waiting |
| `Records.EvenCellsPair` | hw/src/krnl_skt_stream.cpp:392-406 | jobs with an even number of cells never leave one over |
| `Layout.RecordLength` | hw/src/skt_stream.cpp:19-30 | a record has R_AGMS + 4 + 1 + half the cells words |
| `Layout.RecordInMemory` | hw/src/skt_stream.cpp:19-30 | which value is in which bits of which word of a record |
| `Layout.DecodeRecord` | hw/src/skt_stream.cpp:19-30 | reading a record through the host's structure gives back sums, metrics, estimate, cycle count and every cell in row order |
| `KernelSafety.NextInv` | hw/src/krnl_skt_stream.cpp:418-520 | every action of the kernel, in any order, keeps the invariant of all stages together |
| `KernelSafety.InitInv` | hw/src/krnl_skt_stream.cpp:436-507 | the reset state satisfies it |
| `KernelSafety.FramedNext` | hw/src/krnl_skt_stream.cpp:392-406 | an action breaks the framing of the output if and only if it is the composition meeting a lone last cell |
| `KernelSafety.RunFramed` | hw/src/krnl_skt_stream.cpp:418-520 | with an even number of Count-Min cells the output is framed after every schedule |
| `Framing.FramingIff` | hw/src/krnl_skt_stream.cpp:340-409 | after every schedule the words sent are the records of the cells read and the beginning of the next one, if and only if the number of Count-Min cells is even |
| `RecordCount.RecordsSent` | hw/src/krnl_skt_stream.cpp:392-406 | after every schedule the output holds one record for every job of cells read if these are even in number, and otherwise one for every two |
| `RecordCount.FirstJobWaits` | hw/src/krnl_skt_stream.cpp:392-406 | with an odd number of cells the only job fed never gets a complete record |
| `RecordCount.DeliveryIff` | hw/src/krnl_skt_stream.cpp:340-409 | an idle kernel has sent a record for every job fed, after every schedule, if and only if the number of cells is even |
| `KernelResults.KernelCorrect` | hw/src/krnl_skt_stream.cpp:418-520 | for every schedule record j of the output is the record of job j of what was fed |
| `KernelResults.KernelComplete` | hw/src/krnl_skt_stream.cpp:418-520 | when no stage can move, there is one record for every complete job and nothing else |
| `Sketches.HllRowOk` | hw/src/krnl_skt_stream.cpp:101-122 | the HyperLogLog row combines by a commutative monoid, and its keys are in range for every hash; what its cells hold is `CellValues.BucketIsLargest` |
| `Sketches.AgmsRowOk` | hw/src/krnl_skt_stream.cpp:147-176 | a Fast-AGMS row combines by a commutative monoid, and its keys are in range; what its cells hold is `CellValues.CellIsBalance` |
| `Sketches.CmRowOk` | hw/src/krnl_skt_stream.cpp:208-237 | a Count-Min row adds modulo 2^W, a commutative monoid, and its keys are in range |
| `CellValues.BucketIsLargest` | hw/src/krnl_skt_stream.cpp:101-122 | for every hash of H bits a bucket is at least the rank of every word whose top P bits are its number, and the rank of one of them, or 0 if there are none; a rank is the place of the first set bit of the low H-P bits |
| `CellValues.BucketsAreLargest` | sw/src/skt_base.cpp:237-240 | so is every bucket of a collector, for all its items |
| `CellValues.CellIsBalance` | hw/src/krnl_skt_stream.cpp:144-175 | a cell of AGMS row j is the number of words that select it with bit j(P+1)+P of their hash set, less those with it clear, if and only if it can represent that |
| `CellValues.CountersAreBalances` | sw/src/skt_base.cpp:242-249 | place j*2^P+k of the software's table is that number for its items, if and only if 32 bits can represent it |
| `CellValues.OppositeWordsCancel` | hw/src/krnl_skt_stream.cpp:147-165 | two words that select the same cell with different sign bits leave it at 0, and a row sum of 0; alone they leave 1 and -1 |
| `CellValues.ZeroAndBit13` | sw/src/skt_base.cpp:244-246 | with 13 bucket bits 0 and 0x2000 are such words for IDENT |
| `CellValues.PairsAreBalances` | hw/src/krnl_skt_stream.cpp:178-186 | the sum of sign times sign over all pairs sharing a cell is the sum of the squares of these numbers |
| `CellValues.CellIsCount` | hw/src/krnl_skt_stream.cpp:208-237 | a cell of Count-Min row j is the number of words whose hash has its number in the P bits from jP on, modulo 2^W |
| `CellValues.CountersAreCounts` | sw/src/skt_base.cpp:251-256 | place j*2^P+k of the software's table is that number for its items, modulo 2^32 |
| `SecondMoment.VectorIsExact` | hw/src/krnl_skt_stream.cpp:154-176 | with fewer than 2^(W-1) items no lane-merged AGMS counter wraps |
| `SecondMoment.RowIsPairs` | hw/src/krnl_skt_stream.cpp:178-186 | the sum of squares of a row is the sum of sign times sign over all pairs of items sharing a cell |
| `SecondMoment.PairsAreMoment` | hw/src/krnl_skt_stream.cpp:178-186 | without collisions of different words that is the second frequency moment |
| `SecondMoment.HardwareMoment` | hw/src/krnl_skt_stream.cpp:154-186 | the 64-bit fold of the merged row is exactly that sum, and the second moment without collisions |
| `SecondMoment.AddSquaresWraps` | sw/src/skt.cpp:125-138 | adding up squares of wrapped counters gives the sum of the exact squares wrapped to 32 bits |
| `SecondMoment.SoftwareMoment` | sw/src/skt.cpp:125-138 | for any items the squares of a table's row add up to sign times sign over all pairs of items sharing a cell, in a 32-bit register |
| `SecondMoment.MomentFitsIff` | sw/src/skt.cpp:125-138 | a 32-bit register holds that sum if and only if it is below 2^31; without collisions it is the second moment |
| `SecondMoment.SoftwareMomentIff` | sw/src/skt.cpp:125-138 | so for every collector and row the software's row sum is that sum, and the second moment without collisions, if and only if it is below 2^31 |
| `SecondMoment.MomentOverflows` | sw/src/skt.cpp:125-138 | 65536 copies of one word have second moment 2^32 and row sum 0 |
| `Skt.Config` | hw/src/krnl_skt_stream.cpp:138-199 | every configuration the static assertions admit meets what network and framing rely on; how many bits the flit sums have is `Skt.SpareBitsCover` |
| `Skt.SpareBitsCover` | hw/src/krnl_skt_stream.cpp:245-249 | two to the extra bits of a flit's sums is at least the number of lanes and, for more than one lane, less than twice that number |
| `Skt.FlitSumsFitIff` | hw/src/krnl_skt_stream.cpp:245-258 | the sums of all flits fit if and only if no power of two covers the lanes but not the words of a flit |
| `Skt.BucketRank` | hw/src/krnl_skt_stream.cpp:101-106 | a bucket's rank never exceeds H-P+1, so the accumulator's bit index is in range, and is zero exactly if no word falls into the bucket; which rank it is says `CellValues.BucketIsLargest` |
| `Skt.HllExact` | hw/src/krnl_skt_stream.cpp:26-73 | for every non-empty job the accumulator is the exact sum over all ranks r of the number of buckets of rank r times 2^(-r), below 2^P, and the zero count that of the empty buckets |
| `Skt.CellCounts` | hw/src/krnl_skt_stream.cpp:208-227 | with fewer than 2^W words a Count-Min cell of width W is the number of words that select it |
| `Skt.RecordIsExact` | hw/src/skt_stream.cpp:19-30 | in the record of a job the host reads exact counts and metrics, AGMS sums that are the squares of set less clear sign bits, cell by cell, and an estimate from the exact sum of 2^(-rank) over buckets with the largest ranks of their words, for counters of any width |
| `Skt.FullWidthIsExact` | hw/src/skt_stream.cpp:19-30 | with as many lanes as words per flit every job short enough for the counters has its exact record |
| `Skt.SktCorrect` | hw/src/krnl_skt_stream.cpp:418-520 | for every schedule, lane count and hash, bucket and counter width the host reads from record j the exact statistics of job j, as long as the counters can count its words and no power of two covers the lanes but not the words of a flit |
| `Skt.SktComplete` | hw/src/krnl_skt_stream.cpp:418-520 | when no stage can move, the host has one record for each job fed |
| `Liveness.NetStepLess` | hw/src/krnl_skt_stream.cpp:80-243 | every step of a network stage that moves data decreases the network's work, compared upstream first |
| `Liveness.WorkDecreases` | hw/src/krnl_skt_stream.cpp:418-520 | every action of the kernel that moves data decreases its work |
| `Liveness.DoneIsIdle` | hw/src/krnl_skt_stream.cpp:418-520 | when no action can decrease the work the kernel is idle |
| `Liveness.CanFinish` | hw/src/krnl_skt_stream.cpp:418-520 | after any schedule there is a way on, without further input, to an idle state |
| `Fairness.WorkStays` | hw/src/krnl_skt_stream.cpp:418-520 | every other action but an input leaves the work as it is |
| `Fairness.ComesToRest` | hw/src/krnl_skt_stream.cpp:418-520 | in every infinite run without input no action moves data from some point on |
| `Fairness.FairRunsFinish` | hw/src/krnl_skt_stream.cpp:418-520 | an infinite run without input in which every stage gets its turn again and again is idle from some point on |
| `RoundRobin.InTurnFair` | hw/src/krnl_skt_stream.cpp:418-520 | letting all stages act in turn, over and over again, is possible without input and fair |
| `Skt.IdleIsServed` | hw/src/krnl_skt_stream.cpp:418-520 | in an idle state every job fed has its exact record and nothing else has been sent |
| `Skt.SktServes` | hw/src/krnl_skt_stream.cpp:418-520 | whatever has been fed in whatever schedule, the kernel can go on to serve all of it exactly |
| `Skt.SktServesFairly` | hw/src/krnl_skt_stream.cpp:418-520 | whatever has been fed in whatever schedule: if then every stage gets its turn again and again, every job has its exact record, and nothing else has been sent, from some point on |
| `Skt.SktServesInTurn` | hw/src/krnl_skt_stream.cpp:418-520 | whatever has been fed in whatever schedule: letting all stages act in turn serves all of it exactly from some point on |
| `Skt.SumsLikeSoftware` | sw/src/skt_base.cpp:242-249 | the record's AGMS sums are the sums of squares of a software table that has seen the same words in any order |
| `Skt.RecordLikeSoftware` | sw/src/skt_base.cpp:212-258 | a software collector that has seen a job's words in any order holds the record's Count-Min cells and AGMS rows |
| `Skt.BucketsLikeSoftware` | sw/src/skt_base.cpp:237-240 | with equal hash widths the HyperLogLog buckets agree, too |
| `Agreement.AgmsKeysAgree` | sw/src/skt_base.cpp:242-249 | an AGMS row within the hardware's hash width selects the same cell and sign from the full hash and the cut one |
| `Agreement.CmKeysAgree` | sw/src/skt_base.cpp:251-256 | so does a Count-Min row |
| `Agreement.HllKeysAgreeIff` | sw/src/skt_base.cpp:237-240 | software and hardware agree on the HyperLogLog keys of all hashes if and only if their hash widths are equal |
| `Agreement.AgmsRowAgrees` | sw/src/skt_base.cpp:242-249 | the hardware's joined AGMS row is the software's table row for the same items |
| `Agreement.CmTableAgrees` | sw/src/skt_base.cpp:251-256 | the cells of a hardware record are, in order, the software's table |
| `Agreement.TablesAgree` | sw/src/skt.cpp:90-123 | collectors of one configuration that have seen the same items in any order have the same tables |
| `Agreement.MurmurAgrees` | hw/src/skt_stream.hpp:17-23 | the hash the hardware computes in a straight line meets, for any width, what the agreement of rows and tables asks of it |
| `Agreement.ShippedBuckets` | hw/src/skt_stream.hpp:17-23 | word 0 goes into bucket 0x180a of 2^16 with the software's 128-bit hash and into 0xa166 with the hardware's 84-bit one |
| `Agreement.ShippedTablesDiffer` | hw/src/skt_stream.hpp:17-23 | the job that consists of word 0 has different bucket tables in software and hardware |
| `WordZero.ZeroHashed` | sw/src/skt_base.cpp:123-156 | the 128-bit hash of word 0, through all steps of both halves |
| `WordOne.OneHashed` | sw/src/skt_base.cpp:123-156 | the 128-bit hash of word 1, through all steps, each of which changes it |
| `WordOne.OneHashed32` | sw/src/skt_base.cpp:46-73 | the 32-bit hash of word 1 with the seed 42, through all steps |
| `BitSlices.SentinelRank` | sw/src/skt_base.cpp:237-240 | for every hash and P > 0 the leading zeros of the sentinel form are those of the low W-P bits, and the sentinel is never zero |
| `BitSlices.SentinelDefinedIff` | sw/src/skt_base.cpp:237-240 | the sentinel is non-zero for every hash if and only if P > 0 |
| `BitSlices.ClzHalves` | sw/src/skt_base.cpp:199-211 | counting over the two halves gives the leading zeros of the whole |
| `SoftwareCollector.AgmsEntry` | sw/src/skt_base.cpp:242-249 | row j of the shifting loop sees the cell and sign of the closed bit slices; what they leave in the table is `CellValues.CountersAreBalances` |
| `SoftwareCollector.CmEntry` | sw/src/skt_base.cpp:251-256 | row j of the shifting loop sees the cell of the closed bit slice |
| `SoftwareCollector.HllEntry` | sw/src/skt_base.cpp:237-240 | bucket and rank are those of the closed bit slices |
| `SoftwareCollector.CellPermutation` | sw/src/skt_base.cpp:226-257 | a cell depends only on the multiset of the items |
| `SoftwareCollector.SktCollector.constructor` | sw/src/skt.hpp:69-73 | the zeroed tables are the sketch of nothing |
| `SoftwareCollector.SktCollector.UpdateHll` | sw/src/skt_base.cpp:237-240 | the bucket table becomes the sketch of one more item; for any items that is the largest rank per bucket (`CellValues.BucketsAreLargest`) |
| `SoftwareCollector.SktCollector.UpdateAgms` | sw/src/skt_base.cpp:242-249 | the row loop makes the AGMS table the sketch of one more item; for any items that is set less clear sign bits (`CellValues.CountersAreBalances`) |
| `SoftwareCollector.SktCollector.UpdateCm` | sw/src/skt_base.cpp:251-256 | the row loop makes the Count-Min table the sketch of one more item |
| `SoftwareCollector.SktCollector.Collect` | sw/src/skt_base.cpp:212-258 | after collecting a buffer the tables are the sketch of all items so far |
| `SoftwareCollector.SktCollector.CollectItem` | sw/src/skt_base.cpp:226-257 | one item more in all three tables |
| `SoftwareCollector.SktCollector.Merge` | sw/src/skt.cpp:90-123 | refuses other shapes in the order of the checks; otherwise each bucket is at least both old ones and one of them, counters are added up, and if the entries agree the tables are the sketch of both inputs |
| `MergeCondition.RowMergeIff` | sw/src/skt.cpp:106-122 | two rows combined cell by cell are, for all inputs, the row of both if and only if every word has the same cell and increment on both sides |
| `MergeCondition.MergeIff` | sw/src/skt.cpp:90-123 | a merge of accepted shape gives the sketch of both inputs, for all inputs, if and only if the entries agree in all three tables |
| `MergeCondition.TablesMerge` | sw/src/skt.cpp:106-122 | a merged row of a table is the sketch of both inputs if and only if its cells merge |
| `MergeCondition.IdentAcceptsMurmur` | sw/src/skt_base.cpp:41-42 | an empty collector with IDENT merging one with MURMUR3_128 that has seen word 0 does not end up with the buckets of word 0 |
| `SoftwareCollector.SktCollector.MergeColumns` | sw/src/skt.cpp:125-138 | adds to each counter the squares of one row of the other collector and leaves the rest |
| `SoftwareCollector.SktCollector.GetMedian` | sw/src/skt.cpp:140-150 | sorts the first value of each row in place, leaves the others, and adds up the two in the middle |
| `Medians.Sort` | sw/src/skt.cpp:145-145 | sorting a part of an array in place |
| `Medians.SortedSorts` | sw/src/skt.cpp:145-145 | the sorted values are the same ones in ascending order |
| `Medians.OneOrder` | sw/src/skt.cpp:145-145 | there is only one such order, so that any sorting will do |
| `Medians.OneValueMore` | sw/src/skt.cpp:145-147 | a value added to an odd number of others moves the middle to the median and that value, as far as the neighbours of the median let it |
| `SoftwareCollector.SktCollector.Clean` | sw/src/skt.cpp:182-195 | restores the constructor's state |
| `Drivers.CutsPartition` | sw/src/sketch_fileclient.cpp:33-40 | for any thread count the slices start at 0, end at the size and never overlap |
| `Drivers.CutsEven` | sw/src/skt_bench.cpp:129-140 | every slice consists of whole blocks, as many as all others or one more |
| `Drivers.ItemParts` | sw/src/skt_bench.cpp:138-140 | a worker that takes its next item adds exactly that item to what its collector stands for |
| `Drivers.JoinParts` | sw/src/sketch_fileclient.cpp:43-47 | merging the next worker that has ended extends the merged beginning of the input by its slice |
| `Drivers.Take` | sw/src/sketch_fileclient.cpp:33-47 | any turn, of a worker in the middle of its slice or of the joining thread, leaves every collector with the sketch of what it stands for |
| `Drivers.Compact` | sw/src/skt_bench.cpp:133-155 | for any number of threads and any schedule, item by item, the first collector ends up with the single-threaded sketch of the input |
| `Drivers.FileClient` | sw/src/sketch_fileclient.cpp:20-48 | for any number of threads and any schedule the result is the sketch of the file; no threads, no result |
| `Drivers.Repetition` | sw/src/skt_bench.cpp:130-172 | for any schedule a repetition yields the sketch of the input and the squares of its rows, and leaves all collectors clean |
| `Drivers.RunMoments` | sw/src/skt_bench.cpp:159-160 | each of a run's row sums is the sum over pairs of items sharing a cell, and the second moment without collisions, if and only if that is below 2^31 |
| `Drivers.Bench` | sw/src/skt_bench.cpp:57-209 | exactly which arguments are refused, lead to an empty vector of collectors or of measurements, or give one run per repetition, each the sketch of the input with the squares of its rows and their median, for any schedules |
| `Drivers.RunsAgree` | sw/src/skt_bench.cpp:129-173 | runs on the same items, whatever the threads, repetition or order, have the same tables and squares |
| `Reassembly.WordRoundTrip` | sw/src/sketch_tcp_server.cpp:155-163 | storing the carried word and reading it back gives the same word |
| `Reassembly.LittleEndian` | sw/src/sketch_tcp_server.cpp:155-163 | the bytes in memory are the digits of a word to base 256, the lowest one first |
| `Reassembly.WordsAndRest` | sw/src/sketch_tcp_server.cpp:161-163 | the words and the rest are all of the byte stream, in order |
| `Reassembly.CarryOver` | sw/src/sketch_tcp_server.cpp:150-166 | cutting the stream anywhere and carrying the rest over does not change its words |
| `Reassembly.Job.Receive` | sw/src/sketch_tcp_server.cpp:155-164 | the buffer holds the words of carried and received bytes, the carry is the rest, and its index stays inside the buffer |
| `Connections.JobQueue.Pop` | sw/src/sketch_tcp_server.cpp:52-58 | what is popped is the front of what the queue held |
| `Server.InvNext` | sw/src/sketch_tcp_server.cpp:130-168 | every step of receiver or worker keeps: each of the M+1 buffers in exactly one place, jobs queued in order, null jobs accounted for, every popped job with the worker that popped it |
| `Server.RunInv` | sw/src/sketch_tcp_server.cpp:130-168 | so it holds in every state of every run |
| `Server.StoppedLast` | sw/src/sketch_tcp_server.cpp:137-144 | a worker has stopped only when all jobs of the whole stream have been popped and only null jobs remain |
| `Server.NoDeadlock` | sw/src/sketch_tcp_server.cpp:130-171 | a state can move if and only if it is not the final one |
| `Server.StepsLeftNext` | sw/src/sketch_tcp_server.cpp:136-168 | every step decreases the bound on the steps left |
| `Server.RunsEnd` | sw/src/sketch_tcp_server.cpp:130-171 | a run takes at most six steps per byte and 2M + 2 more |
| `Server.TakenPartition` | sw/src/sketch_tcp_server.cpp:136-144 | the jobs handed to the workers are together exactly the popped jobs |
| `Server.Delivered` | sw/src/sketch_tcp_server.cpp:130-172 | in the end the workers have collected, each job once, exactly the words of the stream; the item count and the leftover are right and all buffers but the receiver's are free |
| `Connections.Fill` | sw/src/sketch_tcp_server.cpp:155-164 | receiving into one buffer of the pool leaves the others alone, and cuts what is carried and received into words and rest |
| `Connections.Connection.constructor` | sw/src/sketch_tcp_server.cpp:131-151 | a new connection is the initial state of the protocol |
| `Connections.Step` | sw/src/sketch_tcp_server.cpp:136-168 | queues, buffers and variables updated in place follow every step of the protocol |
| `Connections.ItemTurn` | sw/src/sketch_tcp_server.cpp:140-140 | a worker in the middle of a job takes its next item, and the protocol's state stays as it is |
| `Connections.TakeTurn` | sw/src/sketch_tcp_server.cpp:130-172 | every turn of a thread is a step of the protocol or one item for the collector of that worker, or nothing |
| `ServerResult.AllDelivered` | sw/src/sketch_tcp_server.cpp:128-175 | over all connections the collectors hold exactly the words of all streams, and the item counts add up to their number |
| `ServerSchedules.SoundAfter` | sw/src/sketch_tcp_server.cpp:128-173 | after every schedule of all threads each connection is in a state the protocol can reach, with every worker at some point of its job |
| `ServerSchedules.TurnPossible` | sw/src/sketch_tcp_server.cpp:130-171 | some turn changes something in a connection if and only if it is not at its end |
| `ServerSchedules.TurnDescends` | sw/src/sketch_tcp_server.cpp:130-171 | every turn that changes something leaves fewer steps, or as many and fewer items |
| `ServerSchedules.EndAttainable` | sw/src/sketch_tcp_server.cpp:128-175 | every schedule can be continued to the end of all connections |
| `ServerResult.TurnOf` | sw/src/sketch_tcp_server.cpp:128-173 | a turn in one connection is not noticed by the others |
| `ServerResult.Play` | sw/src/sketch_tcp_server.cpp:128-173 | variables, buffers and collectors updated in place follow every schedule, turn by turn: afterwards all connections are as the schedule says, and every collector holds the sketch of the items its worker has taken |
| `ServerResult.MergeAll` | sw/src/sketch_tcp_server.cpp:179-182 | the first collector ends up with the items of all |
| `ServerResult.Compact` | sw/src/sketch_tcp_server.cpp:179-182 | when all connections have ended, the merged tables are the sketch of all words of all streams |
| `ServerResult.Serve` | sw/src/sketch_tcp_server.cpp:91-182 | for every schedule of all threads of all connections, item by item, there is a result exactly if it has brought all of them to their end: the first collector is the sketch of all words of all streams, and their number is counted |
| `ServerMedian.ColumnMedian` | sw/src/sketch_tcp_server.cpp:185-187 | the column holds the row sums of the sketch and zeros beyond them, and the result is twice the median of all its rows |
| `ServerMedian.ServeWithMedian` | sw/src/sketch_tcp_server.cpp:91-187 | the same for the words of all streams after every schedule that has brought all connections to their end |
| `ServerMedian.OneRowMoreIff` | sw/src/sketch_tcp_server.cpp:185-187 | with one row more than an odd number of sums the median taken is theirs if and only if it is the value closest to zero between its neighbours |
| `ServerMedian.ServerMedianIff` | sw/src/sketch_tcp_server.cpp:185-187 | so for the five rows and the column of six of the server; as long as the sums fit, the third and the second of the sorted sums have to be equal |
| `ServerMedian.MedianMissed` | sw/src/sketch_tcp_server.cpp:185-187 | for the words 0 and 0x4001 and IDENT the median taken is 3 and that of the row sums 4 |
| `Murmur.XorshiftTwice` | sw/src/skt_base.cpp:80-88 | a shift by at least half the width undoes itself |
| `Murmur.XorshiftUndone` | sw/src/skt_base.cpp:68-68 | a shift by at least a third of the width is undone by two |
| `Murmur.RotlBack` | sw/src/skt_base.cpp:77-79 | rotating on by the rest of the width gives back the word |
| `Murmur.TimesBack` | sw/src/skt_base.cpp:57-69 | an odd factor is undone by its inverse modulo 2^w |
| `Murmur.Hash32Bijective` | sw/src/skt_base.cpp:46-73 | the 32-bit hash is a bijection for every seed, with an explicit inverse |
| `Murmur.Fmix64Bijective` | sw/src/skt_base.cpp:80-88 | `fmix64` is a bijection on 64-bit words, with an explicit inverse |
| `Murmur.Hash128Back` | sw/src/skt_base.cpp:123-156 | the key can be computed back from the two halves |
| `Murmur.Hash128Injective` | sw/src/skt_base.cpp:123-156 | different keys have different 128-bit hashes |
| `Murmur.Murmur3_128` | hw/src/hashes.hpp:60-95 | the straight-line statements compute the software's hash modulo 2^W for the shared seed, and the hash the hardware model uses for every seed; its value for word 1 is `WordOne.OneHashed` |
| `Murmur.Straight128Agrees` | hw/src/hashes.hpp:49-97 | for the shared seed that hash is the software's, cut to W bits |
| `Murmur.Murmur3_32` | hw/src/hashes.hpp:114-135 | the hardware's straight-line form is the 32-bit hash modulo 2^W for every seed |
| `BitUtils.Flog2` | hw/src/bit_utils.hpp:52-58 | 2^r <= n < 2^(r+1) |
| `BitUtils.Clog2` | hw/src/bit_utils.hpp:61-67 | the least r with n <= 2^r |
| `BitUtils.NodeStep` | hw/src/bit_utils.hpp:153-156 | storing the sum of the two sons loses no bit and keeps the count of the set bits below the nodes i to 2i |
| `BitUtils.Weight` | hw/src/bit_utils.hpp:145-158 | for every width, power of two or not, the root is the number of set bits |
| `BitUtils.Gray2Bin` | hw/src/bit_utils.hpp:134-143 | the result's Gray code is the argument |
| `BitUtils.GrayRoundTrip` | hw/src/bit_utils.hpp:127-143 | decoding undoes encoding |
| `BitUtils.GrayInjective` | hw/src/bit_utils.hpp:127-131 | different numbers have different Gray codes |
| `BitUtils.GrayReflected` | hw/src/bit_utils.hpp:126-131 | a clear bit on top leaves a code as it is; with a set one the codes of the rest come in reverse order |
| `BitUtils.GraySuccessor` | hw/src/bit_utils.hpp:126-131 | successive numbers have Gray codes that differ in exactly one bit |
| `BitUtils.Hot2Bin` | hw/src/bit_utils.hpp:97-115 | for every one-hot code of any width the result is the index of the bit |
| `BitUtils.HotRoundTrip` | hw/src/bit_utils.hpp:117-124 | decoding undoes encoding |
| `Aggregation.OneMatch` | hw/src/streaming.hpp:343-345 | at most one slot matches, and without a match all valid slots but the last have different keys |
| `Aggregation.InvNext` | hw/src/streaming.hpp:317-346 | every cycle keeps that |
| `Aggregation.AlwaysConserved` | hw/src/streaming.hpp:296-348 | over any run, for every key and associative function, emitted values and values in flight fold to the fold of the inputs in order |
| `Aggregation.LastKeptIff` | hw/src/streaming.hpp:322-329 | merging keeps the number of `last` flags if and only if the merged item carries none |
| `Aggregation.Aggregate.Step` | hw/src/streaming.hpp:309-347 | the array merged, shifted and matched in place follows the step |

## Left out

- OpenCL host code, sockets, files, memory mapping, argument parsing beyond the range checks of the benchmark, timing, CPU pinning, percentiles and output: input and output only.
- Floating point (`logf`, `ALPHAM2`, the double accumulation in `estimate_cardinality`, the halving in `get_median`) and statistical accuracy: the model stops at exact integers and fixed-point values.
- SipHash: the two versions differ, and neither is the published function. `ConcatHash`, `Interleave`, `Const`, `Arg` and name lookups: unused or a projection.
- FIFO depths and clock timing: FIFOs are unbounded, and a schedule says which stage moves next. Back-pressure of full FIFOs is not part of the model, nor is the number of cycles until a record is complete.
- Skt.RecordLikeSoftware: for counters of 32 bits, because the software has no others.
- `hls_skt_krnl.cpp`: nearly a copy of the main kernel.
- Errors of `recv` and `write`, spurious wake-ups and condition variables: `pop` is one atomic step that waits for an entry.
- Wrap-around of 64-bit sizes in the slice arithmetic of the drivers.
- `lsab_hot`, `msab_hot`, `clz` and `ctz` of the bit utilities, and Gray codes of width 1, for which the source's bit range runs backwards.
- Interleaving within the collection of one item: collectors share no memory, so one item is one turn.
