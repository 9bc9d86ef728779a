# Verification of the libtracer bench harness

This project models the parts of the libtracer repository that its benchmarks are trusted by: the
instruments that count and time, the byte formats that carry the measurements, the code that pools
them, and the size-class arithmetic that the memory benches charge by. The models are Dafny; every
theorem is for all inputs, all runs or all interleavings unless its row says otherwise.

| area | modules |
|---|---|
| the counting allocator of the forward benches: one block charge, one table, many windows, many threads | `ChargeTable`, `ForwardHeap`, `HeapRuns`, `ChargeThreads`, `MapSum` |
| the retired FWD gate and the cached segment walker, over the TLV header grammar | `Tlv`, `DstPeek`, `DstWalk` |
| the composition bench's records and its subscriber's counter | `ComposeRecord`, `SubCounter`, `ComposeRuns` |
| batch timing and latency summaries | `BatchTiming`, `LatencyStats`, `Sorting` |
| A/A pooling and the run order | `AaNull`, `RunOrder` |
| CPU lists, contention verdicts and the ledger | `NumberSet`, `CpuList`, `Conditions` |
| refcounted slots, the high-water mark | `LeanValue`, `PeakBalance` |
| size classes: search, lookup, arithmetic and charge | `SizeClasses`, `SizeLadder` |
| frames on a socket, ropes and the gather table | `FrameSend`, `Rope`, `PrefixedIov` |
| the allocation guard gate | `FailableCensus` |
| shared | `ByteOrder`, `MinMax`, `Options`, `Powers` |

Where the source updates things in place the model is a class or a method over an array or a
sequence, proved against a function whose meaning the lemmas beside it state. Concurrency is a state
machine whose steps are the source's atomic steps, sequentially consistent. Clock readings, addresses
handed out by the C allocator, partial writes and interleavings are arbitrary. Integers are unbounded
except where the source's width matters, and there it is written out: the 32-bit window number and
refcount, the 16- and 32-bit record fields, the length prefixes, the 64-bit products and sums.

Properties that the source does not have on all inputs are stated with their exact condition:

- The segment walker gives the naive walk's answers exactly when the last cached NAME has no trailer
  or nothing follows it; the source says it gives the same answers at any cache size.
- The balance of a measurement window stays right, in one thread or many, exactly when, at its opening, no
  allocated block has an entry of its number in the table. The number is 32 bits wide: the first 2^32 - 1 windows find no entry
  at all, number 0 then finds every dead slot live, and any later window finds what the window 2^32
  before it left. A window starts empty exactly when no slot carries its number.
- A throughput group is counted exactly when its width fits 16 bits.
- A pool of pools can be taken apart, window by window, exactly when every measurement that lacks the
  row is a single window.
- The run order is balanced exactly for an odd number of builds.
- A length prefix says the length exactly below 2^32, a WebSocket header exactly below 2^63.
- `rope_of` covers its input exactly while size times pieces fits 64 bits.
- `charged` follows `class_of` except for blocks aligned past 64 bytes that some row would hold.
- The high-water mark ends exact exactly when no raise in flight at its reset may still store more.
- The refcounts of a run are right exactly as long as no block has 2^32 holders, which some run of given
  slots and publishers comes to exactly when the two numbers and one make 2^32. With one producer a freed
  block is touched exactly when the slots are more than 2^32.
- The guard gate's sweep misses an escape exactly when the operation throws just below a size that it
  asks for only after a refusal.
- A block of the default size table wastes no more than an eighth exactly when it is above 128 bytes or
  uses 14 of every 16 bytes of its row.

Where code and comments disagree the code is modelled. A message tail shorter than a record header is
skipped, not refused (bench/bench_compose.hpp:240). A phase byte other than the three named ones is
treated as latency (bench/bench_compose.hpp:265-277). The tail floor speaks of ten samples above the
p999 index where the index leaves nine (bench/bench_common.hpp:458-479). The size table says that no block
wastes more than one eighth (core/include/libtracer/config.hpp:426-431); its first group does not keep to it.
`run_proto` does not test a loan for null, so the model's loans succeed
(bench/bench_lean_value_path.cpp:416-417).

Nothing was executed.

## Model

| member | source | states |
|---|---|---|
| ChargeTable.ExactFitIsLeast | bench/bench_forward_heap.cpp:132-138 | the charge of an exact fit is the least legal usable size that holds the request |
| ChargeTable.ChargeIgnoresChunkHistory | bench/bench_forward_heap.cpp:108-131 | any two chunks that hold an exact fit are charged alike, never below the request nor above the chunk |
| ChargeTable.LookupProbeFinds | bench/bench_forward_heap.cpp:181-197 | a lookup that reaches an entry over non-null slots stops exactly there |
| ChargeTable.HitIffFound | bench/bench_forward_heap.cpp:181-197 | a lookup hits if and only if a live entry of the address lies within the probe cap behind non-null slots |
| ChargeTable.LiveSlotIsHit | bench/bench_forward_heap.cpp:123-131 | in a sound table every live slot is found by the lookup of its address, whatever stale slots lie between |
| ChargeTable.OneLiveSlot | bench/bench_forward_heap.cpp:143-151 | a table that represents a map has exactly one live slot for each key and none for any other address |
| ChargeTable.ChargeSound | bench/bench_forward_heap.cpp:162-178 | an insert, which may reuse stale slots, keeps the table sound |
| ChargeTable.ChargeRefinesInsert | bench/bench_forward_heap.cpp:162-178 | an insert within the cap is a map insert; past the cap it changes nothing |
| ChargeTable.DischargeRefinesRemove | bench/bench_forward_heap.cpp:181-197 | a discharge is a map removal and gives back the value removed, or 0 and no change when there is none |
| ChargeTable.FreshWindowEmpty | bench/bench_forward_heap.cpp:123-131 | a window reads the table as the empty map if and only if no slot carries its number |
| ChargeTable.RootedAfterWrite | bench/bench_forward_heap.cpp:162-197 | a write on its block's path keeps every slot of a window within the cap on its own block's path behind non-null slots |
| ChargeTable.ChargeReads | bench/bench_forward_heap.cpp:162-197 | in any window of any table a charge within the cap is what the next lookup of its block reads, and past the cap that lookup misses |
| ChargeTable.OthersReadTheSame | bench/bench_forward_heap.cpp:162-197 | in such a table a write that is neither over nor of an entry of a block changes nothing that its lookup reads |
| ForwardHeap.Allocator.constructor | bench/bench_forward_heap.cpp:143-151 | an empty table of 65536 slots, window 0, unarmed |
| ForwardHeap.Allocator.RecordCharge | bench/bench_forward_heap.cpp:162-178 | the probe loop computes the table's insert and gives back the charge |
| ForwardHeap.Allocator.Discharge | bench/bench_forward_heap.cpp:181-197 | the probe loop computes the table's removal and gives back the charge taken off |
| ForwardHeap.Allocator.CountedAlloc | bench/bench_forward_heap.cpp:200-255 | the whole new state of the instrument after an allocation at any alignment, refused, failed or granted |
| ForwardHeap.Allocator.CountedFree | bench/bench_forward_heap.cpp:256-266 | the whole new state after a free, armed or not |
| ForwardHeap.Allocator.OpenWindow | bench/heap_probe.hpp:79-114 | reset and arm: counters cleared, the window number one higher modulo 2^32, the table untouched |
| ForwardHeap.Allocator.CloseWindow | bench/heap_probe.hpp:95 | only the armed flag changes |
| HeapRuns.StepInv | bench/bench_forward_heap.cpp:123-197 | every event, opening any window included, keeps the invariant: in a window that found no entry of an allocated block the balance is right and every free will take off its own charge, and in one opened with an unused number the table represents its recorded blocks |
| HeapRuns.BalancedIffNoneFound | bench/bench_forward_heap.cpp:123-197 | for every window of every run, number 0 and numbers that come again included: the balance is right in every state the window can reach if and only if at its opening no allocated block has an entry of its number |
| HeapRuns.LiveBalance | bench/bench_forward_heap.cpp:123-197 | after every run, in such a window: the balance is the charges still owed plus those of unrecorded blocks already freed; never below what is owed, and equal to it when no insert hit the cap |
| HeapRuns.FreeTakesOwnCharge | bench/bench_forward_heap.cpp:256-266 | after every run, in such a window: a recorded block is found within the cap and its free takes off its own charge; a block of an earlier window, of none, or unrecorded takes off nothing |
| HeapRuns.OneEntryPerBlock | bench/bench_forward_heap.cpp:123-197 | after every run, in a window whose number was not 0 and carried by no slot when it was opened: an address has at most one live slot |
| HeapRuns.OpenedWindowEmpty | bench/heap_probe.hpp:73-87 | a new window starts empty if and only if no slot carries its number |
| HeapRuns.EarlyWindowsUnused | bench/heap_probe.hpp:73-87 | in every run each of the first 2^32 - 1 windows has such a number, so its balance is right |
| HeapRuns.EntriesReturn | bench/heap_probe.hpp:73-87 | after any run over 2^32 opens the number is the same, and a slot that the run leaves as it was is live again exactly if it was live, so after the wrap any window can start with old entries |
| HeapRuns.WindowZeroRevivesTheDead | bench/heap_probe.hpp:73-87 | in window number 0 a lookup that reaches a dead slot takes its charge off, and again at every repetition |
| HeapRuns.WrappedBalanceIsWrong | bench/heap_probe.hpp:73-87 | a run that gets there: a block charged and freed in window 1, allocated again uncounted, 2^32 - 1 more windows, then freed: nothing is owed and the balance is below 0 by its old charge |
| ChargeThreads.StepInv | bench/bench_forward_heap.cpp:162-266 | every atomic step of every thread (lock, one probe, store, add, subtract, release) keeps the invariant, in any window that found no entry of an allocated block |
| ChargeThreads.InterleavingSafe | bench/bench_forward_heap.cpp:200-266 | under every interleaving, in a window whose number is not 0 and carried by no slot: one thread inside the lock, no two threads on one block, every thread able to take its next step, one live entry for each address though freed addresses are handed out again at once |
| ChargeThreads.QuiescentBalance | bench/bench_forward_heap.cpp:200-266 | whenever no operation is in flight in such a window the balance is the outstanding charges plus the charges of blocks that the table never recorded and that were freed, and exactly the former without a cap hit |
| ChargeThreads.BalancedIffNoneFound | bench/bench_forward_heap.cpp:200-266 | for a window over any table that runs leave, number 0 included: the balance is right at every quiet moment of every interleaving if and only if at its opening no allocated block has an entry of its number |
| ChargeThreads.FreeRun | bench/bench_forward_heap.cpp:181-197 | a schedule in which one thread frees one block, lock, probes, unlock, subtraction and release, ends quiet with the balance lower by what the table holds for the block |
| Tlv.EmitOptRoundTrip | core/include/libtracer/tlv.hpp:114-146 | an option byte of the emitter decodes to the same two flags and no trailer |
| Tlv.EmittedHeader | core/include/libtracer/grammar.hpp:268-349 | an emitted TLV, anywhere in a frame, reads back as its type, its flags, its body length and no trailer |
| DstWalk.SafeAgrees | bench/bench_forward_demux.cpp:334-390 | on a safe window every sequence of prefills and asks, at any cache size, answers as the naive walk from the start |
| DstWalk.UnsafeDisagrees | bench/bench_forward_demux.cpp:374-390 | on any other window some sequence of asks is answered differently |
| DstWalk.AgreesIffSafe | bench/bench_forward_demux.cpp:334-390 | over the bytes of any frame the walker agrees on all call sequences if and only if the last cached NAME carries no trailer or nothing follows it |
| DstWalk.TrailerBreaksTheWalk | bench/bench_forward_demux.cpp:374-390 | a frame of three NAMEs, the second trailered, with two slots: the second ask for the third differs from the naive walk |
| DstWalk.DstSegWalk.constructor | bench/bench_forward_demux.cpp:334-350 | the walk starts at the body with an empty cache |
| DstWalk.DstSegWalk.PrefillCache | bench/bench_forward_demux.cpp:352-361 | the loop computes the prefilled walk |
| DstWalk.DstSegWalk.SegmentAt | bench/bench_forward_demux.cpp:367-370 | a cached answer, or the walk's, with the walk's whole new state |
| DstWalk.DstSegWalk.WalkTo | bench/bench_forward_demux.cpp:374-390 | the back-up and the forward loop compute the walk's answer and state |
| DstWalk.DstSegWalk.WalkForward | bench/bench_forward_demux.cpp:380-390 | the forward loop computes the walk from where it stands |
| DstWalk.DstSegWalk.TakeSegment | bench/bench_forward_demux.cpp:380-388 | one segment taken: position, count and cache advance together |
| DstPeek.PeekedSegmentZero | bench/bench_forward_demux.cpp:259-310 | whenever the peek answers a path, the first segment of the walk and of the naive walk is the one it read |
| DstPeek.LiteralRoundTrip | bench/bench_forward_demux.cpp:181-221 | for every literal FWD frame below 2^32 bytes the peek answers a path exactly when there is a segment, and then the walker, at any cache size after any calls, gives each segment's own bytes and no more segments |
| ComposeRecord.PutLe | bench/bench_compose.hpp:137-139 | the field's bytes are the value's, little-endian, and no other byte changes |
| ComposeRecord.GetLe | bench/bench_compose.hpp:142-148 | the value read is what the field's bytes spell |
| ComposeRecord.FillRecord | bench/bench_compose.hpp:158-176 | the record's header fields at their offsets, the rest untouched |
| ComposeRecord.MakeGroup | bench/bench_compose.hpp:158-176 | the group is the k records of the framing |
| ComposeRecord.RecordFields | bench/bench_compose.hpp:63-94 | every field of every record of a group reads back, truncated to its width |
| ComposeRecord.Stamp | bench/bench_compose.hpp:196-198 | the record with its eight stamp bytes replaced and no other byte changed |
| ComposeRecord.StampedFields | bench/bench_compose.hpp:196-198 | the stamp reads back and every other field reads as before |
| SubCounter.Counter.constructor | bench/bench_compose.hpp:206-232 | all counts zero |
| SubCounter.Counter.Receive | bench/bench_compose.hpp:234-280 | the walk over the records of one message computes the new counts, for arbitrary bytes |
| SubCounter.Counter.WalkOne | bench/bench_compose.hpp:240-247 | one turn of that walk: the rest of the message is walked from the next record on, or not at all when the record is cut off |
| SubCounter.Counter.Examine | bench/bench_compose.hpp:246-277 | one record walked: counted, counted as throughput, bad, or the end |
| SubCounter.Counter.Matches | bench/bench_compose.hpp:250-254 | a record is ours exactly when magic, width and nonce match |
| SubCounter.Counter.Tally | bench/bench_compose.hpp:260-277 | what one matching record adds |
| SubCounter.Counter.ObserveGroup | bench/bench_compose.hpp:391-399 | a stamp is kept from record 0 and turned into one sample by the last record |
| SubCounter.Counter.Finish | bench/bench_compose.hpp:328-360 | 0 exactly when the point may be published, and the counts are unchanged |
| SubCounter.Counter.FinishAudit | bench/bench_compose.hpp:371-380 | 0 exactly when values were counted and none was bad |
| ComposeRuns.WalkTally | bench/bench_compose.hpp:234-280 | what the walk of one message adds is what its items before the end amount to |
| ComposeRuns.RunTally | bench/bench_compose.hpp:234-280 | what every sequence of messages adds is what the stream of its items amounts to |
| ComposeRuns.CutsDoNotMatter | bench/bench_compose.hpp:234-280 | two sequences of messages with the same stream of items agree in values, bad, throughput values and the end |
| ComposeRuns.ItemsAfterRecords | bench/bench_compose.hpp:240-247 | the items of whole records followed by any tail are the records and then the tail's items |
| ComposeRuns.CutDatagram | bench/bench_compose.hpp:234-280 | a datagram cut at record boundaries into any number of pieces, each fed at a time of its own, leaves the same values, bad, throughput values and end as the whole fed at any time, and at most one message more a cut |
| ComposeRuns.RunOrdered | bench/bench_compose.hpp:234-280 | every sequence of byte messages keeps the message and value counts in order, and throughput values above 0 exactly with throughput messages |
| ComposeRuns.PublishedIff | bench/bench_compose.hpp:328-360 | a point is published if and only if every item walked before its end was ours, enough messages carried throughput and they span some time; what its figures are divided by is then not 0 |
| ComposeRuns.WholeGroupCounted | bench/bench_compose.hpp:158-176 | a whole throughput group adds exactly k values and one message when k fits 16 bits, and k bad records otherwise |
| ComposeRuns.PerValueGroupCounted | bench/bench_compose.hpp:158-176 | the same group sent a record at a time adds k values and k messages |
| ComposeRuns.PacedGroupSampled | bench/bench_compose.hpp:391-399 | a stamped group of make_group, however it is cut into messages, gives exactly one sample, the arrival of the message with its last record minus the stamp; an unstamped one none; no stamp is left over |
| ComposeRuns.PacedBothWays | bench/bench_compose.hpp:383-399 | the same for the whole group in one message and for one record a message, each at its own time |
| ComposeRuns.StampedGroupPaced | bench/bench_compose.hpp:158-198 | the records of a stamped group are framed, the point's, numbered in order, and the first carries the stamp |
| BatchTiming.CalibrateBatchForWindow | bench/bench_common.hpp:447-456 | for every monotone clock: the least power of two whose trial window reached the target, or the ceiling |
| BatchTiming.Turn | bench/bench_common.hpp:702-724 | one turn of the loop: a window kept, a larger batch with no windows, or the short window at the ceiling |
| BatchTiming.Sample | bench/bench_common.hpp:681-728 | the timed loop against the clock: each era keeps the clock's windows at one batch, each recalibration is a short window of the clock at its own batch, and the last era ends with a short window at the ceiling or where the loop must stop and not before |
| BatchTiming.TimeBatches | bench/bench_common.hpp:681-738 | for every monotone clock the outcome is one the clock leads to: the least calibrated batch, the eras cut short by short windows, and either an abort with the short window at the ceiling or at least 16 and at most max(16, ceil(budget / 20 us)) windows of the clock, all at least 20 us at one power-of-two batch, their elapsed time, and operations equal to samples times batch |
| BatchTiming.OutcomeUnique | bench/bench_common.hpp:681-738 | a clock leads to one outcome only, abort or not, window for window and figure for figure |
| BatchTiming.ShortWindowBehind | bench/bench_common.hpp:705-719 | an abort was made by a window of the last era that is too short, a recalibration by one of its own |
| BatchTiming.LongWindows | bench/bench_common.hpp:705-719 | a clock whose windows are all long enough neither aborts a run nor makes it start over |
| BatchTiming.FiguresMeaning | bench/bench_common.hpp:729-738 | the reported median is the order statistic at n / 2 and the mean is total over batch and count |
| BatchTiming.SumPsIsTotal | bench/bench_common.hpp:637-639 | the per-operation figures sum to that of the total |
| LatencyStats.Latency.constructor | bench/bench_common.hpp:504-506 | no samples |
| LatencyStats.Latency.Add | bench/bench_common.hpp:506 | one sample more |
| LatencyStats.Latency.Merge | bench/bench_common.hpp:537-539 | the other's samples after its own |
| LatencyStats.Latency.Report | bench/bench_common.hpp:556-566 | the summary of the samples, which it sorts in place |
| LatencyStats.SummaryOfMultiset | bench/bench_common.hpp:556-566 | the summary depends only on the multiset of samples |
| LatencyStats.MergeOrder | bench/bench_common.hpp:537-539 | any order of merging gives the same summary |
| LatencyStats.QuantileMeaning | bench/bench_common.hpp:556-566 | a quantile is the value with as many samples below it as its index says, and no other |
| LatencyStats.SummaryOrdered | bench/bench_common.hpp:556-566 | p50 <= p99 <= p999 <= max, and the maximum is one |
| LatencyStats.TailSamples | bench/bench_common.hpp:458-479 | samples above the p999 index: none if and only if n <= 1000, at least 9 once the tail is reported |
| LatencyStats.SmallTailIsMax | bench/bench_common.hpp:458-479 | up to 1000 samples the p999 is the maximum and the tail is not reported |
| Sorting.OrderStatistic | bench/bench_common.hpp:556-566 | the sorted sequence's element at k is v if and only if at most k elements are below v and more than k below v + 1 |
| AaNull.PoolRow | bench/aa_null.py:103-129 | each build's pooled column is its windows' columns with one dropped round between two |
| AaNull.Pool | bench/aa_null.py:103-129 | the error cases, and for every row the joined columns of every build |
| AaNull.SplitWindows | bench/aa_null.py:132-146 | each window's slice of every row |
| AaNull.SplitOfPool | bench/aa_null.py:103-146 | splitting a pool of single-window measurements gives back every window's columns, a missing row as dropped rounds |
| AaNull.PoolOfOne | bench/aa_null.py:103-129 | pooling one measurement gives its columns back |
| AaNull.PoolAlignedIff | bench/aa_null.py:103-146 | for measurements whose windows all have rounds: every slice of a row that split_windows takes from their pool is that window's own row, or dropped rounds where the row is missing, if and only if every measurement that lacks the row is a single window |
| AaNull.PoolOfPoolsShifts | bench/aa_null.py:103-146 | two windows without a row pooled first, then one with it: taken apart, the third window has lost its first round |
| AaNull.Windows | bench/aa_null.py:149-157 | the loop computes the sessions of consecutive clean rounds |
| AaNull.NoStraddle | bench/aa_null.py:149-157 | for every width the sessions of joined columns are the sessions of each stop's columns in turn: none straddles two stops |
| AaNull.PooledWindows | bench/aa_null.py:103-157 | the same of the columns a pool makes, for every width and any two builds |
| RunOrder.OrderPermutes | bench/aa_null.py:75-79 | every round's order is a permutation of the builds |
| RunOrder.LeaderOf | bench/aa_null.py:75-79 | which build goes first in a round |
| RunOrder.BalancedIffOdd | bench/aa_null.py:75-79 | each build goes first exactly twice in any 2n consecutive rounds if and only if n is odd |
| RunOrder.EvenLeads | bench/aa_null.py:75-79 | with an even number of builds only even-numbered ones ever go first |
| NumberSet.SortedSetKeeps | bench/bench_conditions.py:244 | the ascending sequence of a collection holds exactly its numbers, each once |
| CpuList.RunsMaximal | bench/bench_conditions.py:244-252 | the printed runs are non-empty, ascending and apart, so none could be longer |
| CpuList.ExpandRuns | bench/bench_conditions.py:244-252 | the runs hold exactly the numbers, in order |
| CpuList.PrintCpuList | bench/bench_conditions.py:242-252 | the one-pass loop spells the runs of the sorted set |
| CpuList.ParseCpuList | bench/bench_conditions.py:255-262 | the loop computes the parse, an error in any part being an error of the whole |
| CpuList.SpellingParses | bench/bench_conditions.py:255-262 | every spelling of a list parses to the ascending union of its parts: any order, repeats, empty parts and ranges, open ranges, white space around any part |
| CpuList.PrintParses | bench/bench_conditions.py:242-262 | for every collection, what is printed parses back to its numbers in ascending order |
| CpuList.PrintsSameIff | bench/bench_conditions.py:242-252 | two collections print alike if and only if they hold the same numbers |
| CpuList.ParsedPrintsBack | bench/bench_conditions.py:242-262 | what parses, printed, parses to the same again |
| Conditions.CleanIff | bench/bench_conditions.py:307-359 | a run is clean if and only if its foreign ticks are within the quantum or the bar, a slice that must exist was read, and its stall time is within the bar or its window too short to tell |
| Conditions.HostPressureNeverDecides | bench/bench_conditions.py:307-359 | host-wide pressure changes neither the verdict nor its reasons, for all samples |
| Conditions.Monotone | bench/bench_conditions.py:307-359 | more own CPU time or a higher bar never makes a clean run contended |
| Conditions.Measure | bench/bench_conditions.py:421-444 | at most max(1, attempts) tries, in order, all but the last contended, the last clean unless the budget is spent |
| Conditions.KeptIsClean | bench/bench_conditions.py:421-444 | the tries made are those needed, up to the first clean one or all of the budget, and the kept one is clean if and only if some try within the budget would be |
| Conditions.Ledger.Add | bench/bench_conditions.py:457-462 | one entry more |
| Conditions.Ledger.IsClean | bench/bench_conditions.py:464-471 | true if and only if the kept try of every entry with tries is clean |
| Conditions.Ledger.Reruns | bench/bench_conditions.py:473-475 | total tries minus entries |
| Conditions.Job | bench/bench_conditions.py:421-475 | a job's ledger is clean if and only if every invocation had a clean try within its budget, and its re-runs are the sum of the tries its invocations need, less one each |
| LeanValue.StepInv | bench/bench_lean_value_path.cpp:381-409 | an atomic step of any publisher keeps each block's count equal to its holders, with one deleter exactly at count 0, if and only if no block then has 2^32 holders |
| LeanValue.RetainWraps | bench/bench_lean_value_path.cpp:393-395 | a retain keeps the count right if and only if the block then has fewer than 2^32 holders; past that the count reads 0 |
| LeanValue.RetainWrapsInARun | bench/bench_lean_value_path.cpp:393-395 | for any slots and publishers that together with one more make 2^32: a run with a retain that takes a right count to 0 with 2^32 holders |
| LeanValue.SharingCount | bench/bench_lean_value_path.cpp:415-428 | for every number of slots, a run: the block has one holder more than the slots reached, and its count is right exactly below 2^32 of them |
| LeanValue.FreedBlockTouched | bench/bench_lean_value_path.cpp:396-407 | a run over 2^32 + 1 slots in which a publisher is about to count down a block that is freed, with slots still naming it |
| LeanValue.CountedIffFew | bench/bench_lean_value_path.cpp:381-409 | in every run, over any number of slots and publishers, every state so far counts right if and only if in every state so far each block has fewer than 2^32 holders |
| LeanValue.SmallWorldIsFew | bench/bench_lean_value_path.cpp:381-409 | that is so throughout every run whose slots and publishers number fewer than 2^32 - 1: a block has one holder a slot, one a publisher, and one more for the publisher that loaned it |
| LeanValue.AlwaysFewIff | bench/bench_lean_value_path.cpp:381-409 | no run over some slots and publishers gives a block 2^32 holders if and only if there are no slots, no publishers, or fewer than 2^32 - 1 of both together |
| LeanValue.HeldIsAlive | bench/bench_lean_value_path.cpp:381-409 | in every state of every run up to the first 2^32 holders of a block: one that a slot names or a publisher holds is alive with one count for each; one about to be deleted has no holder and one deleter |
| LeanValue.TouchedIsAlive | bench/bench_lean_value_path.cpp:381-409 | no step up to there reads, counts or deletes a freed block |
| LeanValue.QuietWorld | bench/bench_lean_value_path.cpp:403-409 | up to there, between operations a block is alive if and only if a slot names it, counted once for each slot |
| LeanValue.Prototype.constructor | bench/bench_lean_value_path.cpp:411-413 | k targets and a source, all empty, no block |
| LeanValue.Prototype.Loan | bench/bench_lean_value_path.cpp:385-392 | a block with one reference |
| LeanValue.Prototype.Retain | bench/bench_lean_value_path.cpp:393-395 | one reference more, in 32 bits |
| LeanValue.Prototype.Release | bench/bench_lean_value_path.cpp:396-399 | one reference less, the block gone with the one that reads 1; nothing for null; a block already gone is told |
| LeanValue.Prototype.Publish | bench/bench_lean_value_path.cpp:405-407 | the slot names the new block and the old one lost a reference, if it was still there |
| LeanValue.Prototype.Share | bench/bench_lean_value_path.cpp:419-422 | one more target reached and the old block one reference poorer, if it was still there: exactly until its count has read 1 |
| LeanValue.Prototype.Operate | bench/bench_lean_value_path.cpp:415-428 | the operation meets no freed block if and only if there was no block before or the slots are at most 2^32; exactly one block is then alive, named by all k + 1 slots, with count k + 1 modulo 2^32 |
| LeanValue.Prototype.Teardown | bench/bench_lean_value_path.cpp:408 | after the destructors no block is left, if and only if the slots are at most 2^32 or name none |
| LeanValue.RunPrototype | bench/bench_lean_value_path.cpp:411-430 | any number of operations at any addresses the heap gives, then the teardown, meet no freed block and leave nothing if and only if the slots are at most 2^32 or there is no operation |
| PeakBalance.StepInv | bench/bench_conn_ram.cpp:146-175 | every step keeps the invariant under every interleaving, spurious exchange failures and racing resets included |
| PeakBalance.PeakNeverFalls | bench/bench_conn_ram.cpp:146-150 | no step but a reset lowers the mark |
| PeakBalance.PeakIsABalance | bench/bench_conn_ram.cpp:146-234 | in every state the balance is the charges of the blocks out, and the mark is the last reset's value or a balance some addition reached |
| PeakBalance.PeakIsTheMaximum | bench/bench_conn_ram.cpp:146-150 | once no raise is in flight the mark is at least the highest balance since the reset, exactly that unless a raise in flight at the reset was higher, and no lower than the balance unless the reset raced with an addition |
| PeakBalance.ExactIffClear | bench/bench_conn_ram.cpp:146-150 | in any state that the steps can reach, the mark will be the highest balance since the reset, in whatever order the raises in flight end, if and only if neither it nor a raise that may still store is above that |
| PeakBalance.QuietReset | bench/bench_conn_ram.cpp:301 | a reset that races with nothing starts the mark at the balance |
| PeakBalance.RacingReset | bench/bench_conn_ram.cpp:301 | a run in which a raise in flight at the reset leaves the mark above every balance since |
| SizeClasses.SearchIsLeast | core/include/libtracer/placement.hpp:228-234 | the search answers the smallest row that holds the request |
| SizeClasses.FillSlots | core/include/libtracer/placement.hpp:186-195 | one pass over slots and rows gives every slot its first row |
| SizeClasses.BuildLookup | core/include/libtracer/placement.hpp:186-195 | the finished lookup, its last slot past the table |
| SizeClasses.LookupIsSearch | core/include/libtracer/placement.hpp:176-210 | for every table of 16-byte multiples and every request, two loads answer what the search does |
| SizeClasses.MaskRounds | core/include/libtracer/placement.hpp:29-38 | clearing the bits below a power of two rounds down to a multiple of it |
| SizeClasses.BuildPoolLookup | core/include/libtracer/mem_slab_pool.hpp:190-194 | the pool's lookup for requests up to 4096 bytes |
| SizeClasses.ClassOf | core/include/libtracer/mem_slab_pool.hpp:216-232 | the class is the first row that holds the padded request and keeps the alignment, none past 64-byte alignment |
| SizeClasses.Charged | bench/bench_conn_ram.cpp:184-190 | the charge is the first row that holds the padded request and keeps the alignment, or the request |
| SizeClasses.ChargedAsServed | bench/bench_conn_ram.cpp:177-190 | a block of a class is charged its class; one that no class serves is charged a row if and only if it is aligned past 64 bytes and a row would hold it |
| SizeClasses.ChargeIsSearch | bench/bench_conn_ram.cpp:184-190 | with ordinary alignment the charge is what the search answers |
| SizeLadder.BuildTable | core/include/libtracer/config.hpp:99-107 | the nested loops build the ladder |
| SizeLadder.TableAscending | core/include/libtracer/config.hpp:98-107 | the generated table is strictly ascending |
| SizeLadder.LadderValid | core/include/libtracer/mem_slab_pool.hpp:86-98 | a ladder of 16-byte steps with at most 255 rows is a table the pool accepts |
| SizeLadder.CeilingLeast | core/include/libtracer/config.hpp:109-139 | up to the top the arithmetic gives the smallest row that holds the request |
| SizeLadder.CeilingIsSearch | core/include/libtracer/config.hpp:109-139 | for every ladder of powers of two and every request, the arithmetic answers what a search of the generated table does |
| SizeLadder.WasteIff | core/include/libtracer/config.hpp:426-431 | for every ladder and every request: the block wastes no more than one part in 2^per of its size if and only if the request is in a doubling, past the last row, or fills its row of the first group, or the header row, to that share |
| SizeLadder.DefaultWasteIff | core/include/libtracer/config.hpp:426-431 | on the default ladder: no more than one eighth if and only if the request is above 128 bytes or uses 14 of every 16 bytes of its row |
| SizeLadder.DefaultTable | core/include/libtracer/config.hpp:409-448 | the default ladder has 81 rows, its first group ends at 128 and its doublings at 65536 |
| SizeLadder.AllWaysAgree | core/include/libtracer/placement.hpp:221-236 | for the default ladder and every request: arithmetic, lookup and charge agree |
| SizeLadder.OverAlignedOnDefault | bench/bench_conn_ram.cpp:177-190 | on the default ladder a request of 2176 bytes aligned to 128, drawn at its own size, is charged the row of 2304 |
| FrameSend.Socket.Send | bench/bench_conn_ram.cpp:326-327 | one send takes a prefix of what it is offered, or nothing |
| FrameSend.Socket.WriteAll | bench/bench_conn_ram.cpp:323-332 | the bytes are written whole, in order, over any partial writes, with no send more than needed; the write fails exactly when a send takes nothing, at once, and leaves a proper prefix |
| FrameSend.Socket.WriteBody | bench/bench_conn_ram.cpp:335-345 | the data's bytes or that many zeros, 4096 at a time; it fails exactly when a send takes nothing, at once |
| FrameSend.Socket.SendTcpFrame | bench/bench_conn_ram.cpp:348-355 | prefix then body, once and in order; it fails exactly when a send takes nothing, at once, and leaves a proper prefix of the frame |
| FrameSend.Socket.SendWsFrame | bench/bench_conn_ram.cpp:380-398 | header then body, once and in order; it fails exactly when a send takes nothing, at once, and leaves a proper prefix of the frame |
| FrameSend.FillWsHeader | bench/bench_conn_ram.cpp:381-397 | the header fits its 14-byte buffer for every length |
| FrameSend.WsHeadDecodes | bench/bench_conn_ram.cpp:381-397 | under section 5.2 of RFC 6455 the header of every length below 2^63 decodes to FIN, binary, masked, that length in shortest form and a zero key, and of no other |
| FrameSend.UnmaskZeros | bench/bench_conn_ram.cpp:396 | under section 5.3 of RFC 6455 the zero key leaves every payload unchanged |
| FrameSend.TcpRoundTrip | bench/bench_conn_ram.cpp:348-355 | a record is read back, whatever follows, if and only if its body is below 2^32 bytes |
| FrameSend.WsRoundTrip | bench/bench_conn_ram.cpp:380-398 | a frame is read back if and only if its body is below 2^63 bytes |
| FrameSend.StreamRoundTrip | bench/bench_conn_ram.cpp:348-398 | a stream of frames of either kind is read back as exactly their bodies |
| FailableCensus.Injector.CountedAlloc | bench/bench_failable_census.cpp:147-161 | a request is refused exactly when armed and above the threshold, and is counted and logged while armed |
| FailableCensus.Injector.Perform | bench/bench_failable_census.cpp:147-161 | an operation under the injector throws exactly when the specification says, and its log is its trace |
| FailableCensus.Injector.Try | bench/bench_failable_census.cpp:593-610 | one run in its own armed scope |
| FailableCensus.Sweep | bench/bench_failable_census.cpp:626-643 | the loop counts the sizes that escape and keeps the least |
| FailableCensus.RunArm | bench/bench_failable_census.cpp:588-653 | escaped is the number of distinct observed non-zero sizes at which the operation throws, first_escape the least of them or 0, and the verdict as expected of the arm |
| FailableCensus.NeverEscapesIff | bench/bench_failable_census.cpp:122-143 | no threshold whatever makes an operation throw if and only if none just below a size that it can ask for, on any path, does |
| FailableCensus.SweepMissesIff | bench/bench_failable_census.cpp:122-143 | a sweep that finds nothing misses an escape if and only if the operation throws just below a size that it asks for only after a refusal |
| FailableCensus.SweepIsSound | bench/bench_failable_census.cpp:122-143 | a sweep that finds an escape is right |
| FailableCensus.SweepIsComplete | bench/bench_failable_census.cpp:122-143 | so for an operation that asks after a refusal for no new size, no observed size escapes if and only if no threshold does |
| FailableCensus.FallbackIsMissed | bench/bench_failable_census.cpp:122-143 | an operation with a smaller throwing fallback passes the sweep and throws just below that size |
| FailableCensus.EscapesIff | bench/bench_failable_census.cpp:626-643 | an operation that gives up at the first refusal escapes at s if and only if its first request of at least s bytes throws |
| FailableCensus.GivesUpSweepIsComplete | bench/bench_failable_census.cpp:626-643 | for such operations the sweep is complete |
| FailableCensus.ProbedNeverEscapes | bench/bench_failable_census.cpp:132-142 | a probe before every reserve of the same size escapes at no threshold |
| FailableCensus.ProbedEscapesByIndex | bench/bench_failable_census.cpp:132-142 | refusing by index throws at every reserve and only there |
| Rope.RopeOf | bench/bench_forward_rope.cpp:129-144 | exactly min(max(links, 1), size) non-empty pieces, lengths within one byte, that make up the input, if and only if size times pieces fits 64 bits |
| Rope.RopeByLinkSize | bench/bench_iov_spill_cost.cpp:161-172 | full links and a last shorter one that make up the input |
| PrefixedIov.SumSizes | bench/bench_iov_spill_cost.cpp:281-282 | the total of the spans |
| PrefixedIov.LayOut | bench/bench_iov_spill_cost.cpp:289-294 | prefix and non-empty spans in order, within the table |
| PrefixedIov.Table.constructor | bench/bench_iov_spill_cost.cpp:280-295 | the table holds the prefix and the non-empty spans, in the object up to 16 spans and on the heap from 17 |
| PrefixedIov.NonEmptyMembers | bench/bench_iov_spill_cost.cpp:291-294 | only empty spans are dropped |
| PrefixedIov.GatherIsAFrame | bench/bench_iov_spill_cost.cpp:272-296 | written out in order the table is one length-prefixed record of all the spans' bytes |
| PrefixedIov.GatherRoundTrip | bench/bench_iov_spill_cost.cpp:272-296 | the other end reads the spans' bytes back if and only if their total is below 2^32 |
| ByteOrder.LeRoundTrip | bench/bench_compose.hpp:137-148 | reading back a stored field gives the value modulo the field's width |
| ByteOrder.LeBytesOfValue | bench/bench_compose.hpp:137-148 | storing what was read gives the bytes back |

## Left out

- The graph, router, transports, CAN segmentation and hazard slots that the benches drive: the harness calls them, it does not define them.
- `time_staged_batches`: the same protocol as `time_batches` with an untimed stage between windows.
- `samples_for_budget` and the other reservations: capacity only, no figure depends on them.
- `session_ratios`, robust spread and every median of ratios: floating-point statistics over the sessions that are modelled.
- The allocation and free counts of bench_conn_ram.cpp and its `t_in_source` flag: one flag and two counters beside the balance that is modelled.
- Blocks drawn before arming and returned after in bench_conn_ram.cpp: counting is on for the whole run of `PeakBalance`.
- The WebSocket opening handshake, socket set-up and receive side.
- Slabs, carving, caches and trimming of the slab pool: only its choice of class is modelled.
- The mask selects of the ladder's arithmetic: modelled as the choice they make; its power-of-two masks are modelled bit by bit.
- `int()` spellings with a sign, underscores or non-ASCII digits, and non-ASCII white space, in CPU lists.
- `Ledger.line`, `note`, `report` and the record files: text output.
- Weak memory orders and floating-point rounding.
- A heap that fails on its own in the guard gate: only the injector refuses.
- What happens after a freed block is touched: `Prototype` stops there.
- DstPeek.LiteralRoundTrip: stated for frames below 2^32 bytes, the longest a TLV length can say.
