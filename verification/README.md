# Elliptics recovery iterator, modelled in Dafny

This project models the sequential core of `recovery/elliptics_recovery/iterator.py`, the iterator layer of the Elliptics recovery tools. It covers four pieces:

- **The merge order and the merge cursor** (`MergeData.__cmp__` and `MergeData.next`).
  - The order is key ascending, then timestamp descending, then size ascending.
  - The cursor walks one sorted diff stream. It collapses every run of equal keys to the earliest record carrying the newest timestamp.
- **The N-way merge of per-node diffs** (`IteratorResult.merge` and `IteratorResult.__merge__`).
  - Each distinct key ends up in exactly one output container.
  - That container belongs to the node whose cursor value wins the merge order.
- **The range router** (`Iterator.get_key_range_id`). It is a binary search over the key ranges of the iteration. The search as written can loop forever; see Findings.
- **The counting and routing loop of `Iterator.start`.**
  - The generator is modelled as the sequence of values it yields: progress tuples, then either the containers or one `None`.
  - A loop method computes that sequence and is proved equal to a specification function.

Files:

| file | module | content |
|---|---|---|
| `records.dfy` | `Records` | keys, timestamps, records, the `__cmp__` order |
| `merge_cursor.dfy` | `MergeCursor` | the cursor class `MergeData` and the collapse of runs it performs |
| `merging.dfy` | `Merging` | `__merge__` over a heap of cursors and the `merge` wrapper, proved against the predicate `IsMergeOf` |
| `merge_properties.dfy` | `MergeProperties` | what a merge guarantees recovery |
| `iterator.dfy` | `Iterators` | the class `Iterator`: the range search (as written and corrected) and `start` |
| `iterator_properties.dfy` | `IteratorProperties` | routing, progress and failure properties of `start` |

Modelling choices:

- A result container is a `seq<Record>` that only grows by appending.
- Keys are `nat`. Timestamps are `(tsec, tnsec)` pairs compared lexicographically.
- The heap of `__merge__` is an abstract priority queue. A pop returns a cursor whose value is minimal in the `__cmp__` order. The contracts hold for any tie-break.
- `IdRange.check_key` lives in `range.py`, which is not part of this model. Here it is a three-way compare against the half-open range `[start, stop)`.
- The network stream of `start` is the parameter `records`. An exception raised in the loop becomes the final `Failed` value, standing for the `None` the handler yields.

## Model

| member | source | states |
|---|---|---|
| `Records.Cmp` | recovery/elliptics_recovery/iterator.py:365-374 | `__cmp__` is -1, 0 or 1; negative exactly when the key is smaller, or the key is equal and the timestamp newer, or both are equal and the size smaller; zero exactly on equal key, timestamp and size |
| `Records.CmpTime` | recovery/elliptics_recovery/iterator.py:369 | Python `cmp` on timestamps is -1 exactly when the first is strictly older, 1 when it is strictly newer, 0 when they are equal |
| `Records.CmpKeyFirst` | recovery/elliptics_recovery/iterator.py:365-374 | a smaller key always sorts first, and a cursor sorting no later never has the larger key |
| `Records.CmpSameKey` | recovery/elliptics_recovery/iterator.py:368-372 | on equal keys the newer timestamp sorts first, on equal timestamps the smaller size does, and a cursor sorting first is never older |
| `Records.CmpAntisymmetric` | recovery/elliptics_recovery/iterator.py:365-374 | `__cmp__` is antisymmetric and is zero exactly on equal key, timestamp and size |
| `Records.LeTotalPreorder` | recovery/elliptics_recovery/iterator.py:365-374 | the order is reflexive, total and transitive, so a heap minimum exists and is well defined |
| `MergeCursor.RunLength` | recovery/elliptics_recovery/iterator.py:393 | the leading run of equal keys is non-empty and ends at the first record with a different key |
| `MergeCursor.NewestIndex` | recovery/elliptics_recovery/iterator.py:393-396 | the winner of a run is no older than any record of the run, and every earlier record is strictly older (a later duplicate replaces it only when strictly newer) |
| `MergeCursor.CollapseFromStream` | recovery/elliptics_recovery/iterator.py:376-399 | the values a cursor yields are records of its stream, no more of them than records, and none only for an empty stream |
| `MergeCursor.CollapseKeys` | recovery/elliptics_recovery/iterator.py:376-399 | over a sorted stream, successive cursor values have strictly increasing keys |
| `MergeCursor.CollapseCovers` | recovery/elliptics_recovery/iterator.py:376-399 | every key of the stream is the key of some cursor value |
| `MergeCursor.CollapseNewest` | recovery/elliptics_recovery/iterator.py:393-396 | the cursor value for a key is at least as new as every record of the stream with that key |
| `MergeCursor.ScanRun` | recovery/elliptics_recovery/iterator.py:385-399 | the inner loop of `next` returns the winner of the run starting at the current record, the first record of the next run (or none when the stream ends), and what is left after it |
| `MergeCursor.MergeData.constructor` | recovery/elliptics_recovery/iterator.py:357-362 | a new cursor has an empty container, no value yet, and all of its input pending |
| `MergeCursor.MergeData.Next` | recovery/elliptics_recovery/iterator.py:376-399 | `StopIteration` exactly when nothing is pending, and then nothing changes; otherwise `value` becomes the winner of the next run, the pending input drops exactly that run, and `next_value` is absent with the iterator cleared or has a different key |
| `Merging.MinIndex` | recovery/elliptics_recovery/iterator.py:160 | a heap pop returns a cursor whose value is minimal in the `__cmp__` order among all cursors in the heap |
| `Merging.PopSameKey` | recovery/elliptics_recovery/iterator.py:162-164 | the cursors popped alongside the minimum are exactly those holding its key; every cursor left in the heap holds a larger key |
| `Merging.PopRound` | recovery/elliptics_recovery/iterator.py:160-164 | pops a live cursor whose value is minimal in the merge order, then exactly the live cursors holding its key; the cursors left in the heap are exactly the live ones with other keys |
| `Merging.StepKeeps` | recovery/elliptics_recovery/iterator.py:159-170 | one round keeps the merge invariant: appends strictly increase in key, each comes from its own cursor's values, each is minimal among all values of its key, and every consumed key has been appended; the values left decrease |
| `Merging.OpenCursor` | recovery/elliptics_recovery/iterator.py:147-157 | a new cursor takes its first value, and `StopIteration` happens exactly for an input with no records |
| `Merging.MakeCursors` | recovery/elliptics_recovery/iterator.py:145-157 | one cursor per input, each with an empty container and its input's address; exactly the non-empty inputs enter the heap |
| `Merging.AppendValue` | recovery/elliptics_recovery/iterator.py:161 | the minimum cursor's value is appended to its own container and to no other |
| `Merging.StepCursor` | recovery/elliptics_recovery/iterator.py:167 | `i.next()` moves a cursor of the round to its next value, or raises `StopIteration` exactly when its input has no value left; the other cursors are untouched |
| `Merging.AdvanceOne` | recovery/elliptics_recovery/iterator.py:166-170 | a cursor that moves on goes back into the heap; an exhausted one hands its container to `ret`, once |
| `Merging.AdvanceAll` | recovery/elliptics_recovery/iterator.py:165-170 | each cursor of the key moves to its next value and goes back into the heap, or, when exhausted, puts its container into `ret` |
| `Merging.MergeRound` | recovery/elliptics_recovery/iterator.py:159-170 | one iteration of the outer loop keeps the merge invariant and consumes at least one cursor value, so the loop ends |
| `Merging.MergeStreams` | recovery/elliptics_recovery/iterator.py:143-172 | over sorted inputs, `ret` is a merge of the inputs (`IsMergeOf`): one container per non-empty input, appends in strictly increasing key order, each from its own input, each winning the merge order for its key, every input key appended |
| `Merging.Live` | recovery/elliptics_recovery/iterator.py:120 | the filter keeps exactly the results that are present and non-empty |
| `Merging.Merge` | recovery/elliptics_recovery/iterator.py:101-134 | `None` exactly when no non-empty result is left; the only non-empty result as-is when there is one; otherwise a merge of them all |
| `MergeProperties.ProjectMembers` | recovery/elliptics_recovery/iterator.py:161 | a container holds exactly the records appended to it |
| `MergeProperties.ProjectIncreasing` | recovery/elliptics_recovery/iterator.py:159-170 | every output container is filled in strictly increasing key order |
| `MergeProperties.MergeFromOwnInput` | recovery/elliptics_recovery/iterator.py:150-161 | every output record comes from the input of the node whose container it is in, and the container carries that node's address |
| `MergeProperties.MergeCoversKey` | recovery/elliptics_recovery/iterator.py:113-118 | every key of every input reaches some output container |
| `MergeProperties.MergeKeysUnique` | recovery/elliptics_recovery/iterator.py:159-169 | no key is appended twice, whether to two containers or twice to one |
| `MergeProperties.MergeKeepsNewest` | recovery/elliptics_recovery/iterator.py:113-114 | the record kept for a key is at least as new as every record any input holds for it |
| `MergeProperties.MergeKeepsLeast` | recovery/elliptics_recovery/iterator.py:160-161 | the record kept for a key wins the `__cmp__` order against every cursor value with that key |
| `MergeProperties.MergeContainersIncreasing` | recovery/elliptics_recovery/iterator.py:159-172 | every container in `ret` is sorted by key with no key twice |
| `Iterators.CheckKey` | recovery/elliptics_recovery/iterator.py:238 | the three-way compare is zero inside the range, negative below it, positive above it |
| `Iterators.Route` | recovery/elliptics_recovery/iterator.py:228-245 | the reference lookup: 0 when not iterating separately; otherwise found exactly when some range holds the key, naming a range that holds it |
| `Iterators.RouteUnique` | recovery/elliptics_recovery/iterator.py:232-240 | in sorted ranges, a range holding the key is the one the lookup names |
| `Iterators.FaultFrom` | recovery/elliptics_recovery/iterator.py:292-306 | the first element that makes the loop raise: a failed status, a zero batch size, or a record no range holds; none before it raises |
| `Iterators.Partition` | recovery/elliptics_recovery/iterator.py:262-278 | `results` has a container exactly for each range identifier when iterating separately, and only container 0 otherwise |
| `Iterators.Iterator.constructor` | recovery/elliptics_recovery/iterator.py:223-226 | an iterator remembers whether it iterates ranges separately |
| `Iterators.Iterator.GetKeyRangeIdAsWritten` | recovery/elliptics_recovery/iterator.py:228-245 | the search as written: 0 when not separate; a found id names a range holding the key; over sorted ranges it finds exactly the covered keys, misses exactly the keys below the first range, and hangs on every other key |
| `Iterators.Iterator.GetKeyRangeId` | recovery/elliptics_recovery/iterator.py:228-245 | the corrected search returns exactly the reference lookup `Route` |
| `Iterators.Iterator.AppendRecord` | recovery/elliptics_recovery/iterator.py:306 | `KeyError` exactly when no range holds the key; otherwise the record joins its range's container |
| `Iterators.Iterator.Consume` | recovery/elliptics_recovery/iterator.py:292-306 | one pass of the loop raises exactly when the element faults, yields a progress tuple exactly when the count is a multiple of the batch size, and updates the counters and containers |
| `Iterators.Iterator.Iterate` | recovery/elliptics_recovery/iterator.py:288-317 | the loop yields exactly `Expected` for the stream |
| `Iterators.Iterator.Start` | recovery/elliptics_recovery/iterator.py:247-317 | the three argument assertions fail with their messages and leave `ranges` alone; otherwise `ranges` becomes the key ranges and the run yields exactly `Expected` |
| `IteratorProperties.RouteInPartitions` | recovery/elliptics_recovery/iterator.py:262-278 | every identifier the search returns has a container in `results` |
| `IteratorProperties.PartitionRouted` | recovery/elliptics_recovery/iterator.py:304-306 | each container holds, in stream order, exactly the records routed to its partition |
| `IteratorProperties.RoutedMembers` | recovery/elliptics_recovery/iterator.py:304-306 | the records routed to a partition are the stream's records, keepalives excluded, whose key the lookup sends there |
| `IteratorProperties.PartitionHolds` | recovery/elliptics_recovery/iterator.py:262-306 | iterating separately, container `id` holds exactly the non-keepalive records whose key lies in a range with identifier `id` |
| `IteratorProperties.SingleHolds` | recovery/elliptics_recovery/iterator.py:274-306 | not iterating separately, the one container holds exactly the records that are not keepalives |
| `IteratorProperties.FilteredIsLastRecord` | recovery/elliptics_recovery/iterator.py:296-297 | `filtered_keys` is the 1-based index of the last non-keepalive element, and 0 when every element is a keepalive |
| `IteratorProperties.FilteredMonotone` | recovery/elliptics_recovery/iterator.py:296-297 | `filtered_keys` never decreases along the stream |
| `IteratorProperties.ProgressesFromBatches` | recovery/elliptics_recovery/iterator.py:301-302 | a progress tuple is yielded for an element exactly when its iterated count is a multiple of the batch size, and it carries that element's counters |
| `IteratorProperties.ProgressesAtBatches` | recovery/elliptics_recovery/iterator.py:301-302 | every in-loop progress tuple has an iterated count divisible by a non-zero batch size |
| `IteratorProperties.ExpectedShape` | recovery/elliptics_recovery/iterator.py:288-317 | everything `start` yields before its last value is a progress tuple, and the last value is not one |
| `IteratorProperties.ExpectedEnding` | recovery/elliptics_recovery/iterator.py:292-317 | the run ends in `None` exactly when some element raises; otherwise it ends with the final tuple of the last counters and then the containers (`results[0]` when not separate) |
| `IteratorProperties.FailedOnlyLast` | recovery/elliptics_recovery/iterator.py:315-317 | `None` is yielded at most once and only as the last value |
| `IteratorProperties.FailedYieldsNoContainer` | recovery/elliptics_recovery/iterator.py:315-317 | a failed run yields no container |
| `IteratorProperties.AsWrittenHangs` | recovery/elliptics_recovery/iterator.py:234-244 | with ranges `[0,10)` and `[20,30)` and key 15, the search as written never returns |
| `IteratorProperties.CorrectedMisses` | recovery/elliptics_recovery/iterator.py:234-245 | on the same input the corrected search reports the key as not found |

## Left out

- File handling is OS I/O and is not modelled. That covers container files and their names, copying, loading, `remove`, `__del__` and the temporary directory. A container is the sequence of its records.
- `IteratorResult.diff`, `sort` and the native container behind `append_rr`, `__len__` and `__iter__` are foreign code. Their contents are not modelled.
- The network session is a foreign call and is not modelled. That covers `elliptics.Session`, `start_iterator`, `IdRange.elliptics_range`, `elapsed_time` and logging. `start` receives the stream as the parameter `records`.
- The parameters `eid`, `timestamp_range` and `tmp_dir` of `start` only reach the network call and the container files, and are not modelled.
- Iterators.Iterator.Start: the containers it yields carry records only. The source stores `address` on every container it creates (lines 270-273 and 276-279), and `merge` later uses that address to assign a container to a node. The model drops that address, and drops `leave_file`, which only decides whether the file is deleted.
- `combine` is an unfinished stub. `iterate_with_stats` only pushes counters into an external statistics sink. `KeyInfo` is plain data. None is modelled.
- `range.py` is not part of this model. `check_key` is a half-open compare, and `IdRange` is a start, a stop and an identifier.
- Merging.Merge: requires every present input to be sorted by key, as the containers `merge` is given are.
- Merging.Merge: with one non-empty input, the result is that input as-is. The file copy is left out, and so is reloading the copy with `is_sorted=True`.
- Merging.MergeStreams: the heap is an abstract priority queue, and `heapq`'s tie-break between equal cursors is not modelled. The contract holds for any tie-break, but it names the winning container only up to such ties.
- Merging.MergeStreams: `ret` holds each container's value when its cursor runs out. Nothing is appended to a container after that, so aliasing is immaterial.
- Merging.MergeStreams: inputs that share an address get independent containers. In the source the merge container's file name comes from `mk_container_name(d.address, "merge_")` (line 151), so two inputs with the same address open the same file, and their containers may overwrite each other. `utils/misc.py`, which defines that helper, is not part of this model.
- Iterators.Iterator.GetKeyRangeIdAsWritten: the pass that would repeat forever (`curr == start` with `check > 0`) returns `Hangs` instead of looping.
- Iterators.Iterator.Start: requires sorted, non-overlapping key ranges when iterating separately, which the binary search presumes.
- Iterators.Iterator.Start: routes with the corrected search. With the search as written, any stream holding a key at or above the first range that no range holds would hang `start`.
- Iterators.Iterator.Start: the flags are a set of flag names rather than a bit mask, and the iterator type is an enumeration.
- Iterators.Iterator.Start: the model sets `ranges` to the empty sequence at construction, where the source leaves it unset until `start`.

## Findings

| source | as written | input that shows it | evidently intended | confidence | as-written member | corrected member |
|---|---|---|---|---|---|---|
| recovery/elliptics_recovery/iterator.py:244 | `start = curr` when the key lies above range `curr` | separately, ranges `[0,10)` and `[20,30)`, key 15. The first pass gives `curr = 1` and `stop = 1`; then `curr = 0` and `start` stays 0 forever | `start = curr + 1`: the search ends, and a key no range holds gives `None` and then the `KeyError` handled at lines 315-317 | not executed | `Iterators.Iterator.GetKeyRangeIdAsWritten` | `Iterators.Iterator.GetKeyRangeId` |
