/**
 * `Iterator`: routes the records a remote node streams back into per-range
 * containers, reporting progress as it goes (`get_key_range_id` and the
 * counting loop of `start`).
 */
module Iterators {
  import opened Records

  /** An `IdRange` with its partition identifier; it holds the keys `start <= key < stop`. */
  datatype KeyRange = KeyRange(start: Key, stop: Key, rangeId: nat)

  /** `IdRange.check_key`: negative below the range, zero inside it, positive above it. */
  function CheckKey(r: KeyRange, key: Key): (c: int)
    ensures c == 0 <==> r.start <= key < r.stop
    ensures c < 0 <==> key < r.start
    ensures -1 <= c <= 1
  {
    if key < r.start then -1 else if key < r.stop then 0 else 1
  }

  /** Key ranges in increasing order that do not overlap, the order binary search needs. */
  predicate SortedRanges(ranges: seq<KeyRange>)
  {
    && (forall i :: 0 <= i < |ranges| ==> ranges[i].start <= ranges[i].stop)
    && (forall i, j :: 0 <= i < j < |ranges| ==> ranges[i].stop <= ranges[j].start)
  }

  /** Some range of `ranges` holds `key`. */
  predicate Covered(ranges: seq<KeyRange>, key: Key)
  {
    exists i :: 0 <= i < |ranges| && CheckKey(ranges[i], key) == 0
  }

  /** The outcome of a range lookup; `Hangs` stands for a search that never leaves its loop. */
  datatype Lookup = Found(rangeId: nat) | NotFound | Hangs

  /** The identifiers of the ranges. */
  function RangeIds(ranges: seq<KeyRange>): (ids: set<nat>)
    ensures forall i :: 0 <= i < |ranges| ==> ranges[i].rangeId in ids
    ensures forall id :: id in ids ==> exists i :: 0 <= i < |ranges| && ranges[i].rangeId == id
  {
    set i | 0 <= i < |ranges| :: ranges[i].rangeId
  }

  /** In sorted ranges, a range at or above `j` starts no lower than the stop of range `i < j`. */
  lemma SortedAbove(ranges: seq<KeyRange>, i: nat, j: nat)
    requires SortedRanges(ranges) && i < j < |ranges|
    ensures ranges[i].start <= ranges[i].stop <= ranges[j].start <= ranges[j].stop
  {
  }

  /** Where a key goes in sorted ranges: the identifier of the one range holding it. */
  function Route(separately: bool, ranges: seq<KeyRange>, key: Key): (r: Lookup)
    ensures r.Found? || r.NotFound?
    ensures !separately ==> r == Found(0)
    ensures separately ==> (r.Found? <==> Covered(ranges, key))
    ensures separately && r.Found? ==>
      exists i :: 0 <= i < |ranges| && CheckKey(ranges[i], key) == 0 && ranges[i].rangeId == r.rangeId
    decreases |ranges|
  {
    if !separately then Found(0)
    else if ranges == [] then NotFound
    else if CheckKey(ranges[0], key) == 0 then Found(ranges[0].rangeId)
    else
      var r := Route(separately, ranges[1..], key);
      assert Covered(ranges, key) ==> Covered(ranges[1..], key) by {
        if Covered(ranges, key) {
          var i :| 0 <= i < |ranges| && CheckKey(ranges[i], key) == 0;
          assert ranges[1..][i - 1] == ranges[i];
        }
      }
      assert r.Found? ==> exists i :: 0 <= i < |ranges| && CheckKey(ranges[i], key) == 0 && ranges[i].rangeId == r.rangeId by {
        if r.Found? {
          var i :| 0 <= i < |ranges[1..]| && CheckKey(ranges[1..][i], key) == 0 && ranges[1..][i].rangeId == r.rangeId;
          assert ranges[i + 1] == ranges[1..][i];
        }
      }
      r
  }

  /** In sorted ranges at most one range holds a key, so `Route` names the range holding it. */
  lemma RouteUnique(ranges: seq<KeyRange>, key: Key, i: nat)
    requires SortedRanges(ranges) && i < |ranges| && CheckKey(ranges[i], key) == 0
    ensures Route(true, ranges, key) == Found(ranges[i].rangeId)
  {
    var r := Route(true, ranges, key);
    var j :| 0 <= j < |ranges| && CheckKey(ranges[j], key) == 0 && ranges[j].rangeId == r.rangeId;
    assert i == j;
  }

  /* ---------- the records of an iteration and what `start` yields ---------- */

  /** The reply to one key: a non-zero `status` marks a keepalive, not a record. */
  datatype Response = Response(status: int, key: Key, iteratedKeys: nat, totalKeys: nat)

  /** One element of the iteration stream; a non-zero `status` is a failed iteration. */
  datatype IterRecord = IterRecord(status: int, response: Response)

  /** What the `start` generator yields. */
  datatype Yield =
    | Progress(filtered: nat, iterated: nat, total: nat)  // `(filtered_keys, iterated_keys, total_keys)`
    | Partitions(containers: map<nat, seq<IterRecord>>)  // `results`, when iterating ranges separately
    | Single(container: seq<IterRecord>)                 // `results[0]` otherwise
    | Failed                                             // the `None` of a failed iteration

  datatype IteratorType = Disk | Network

  datatype IteratorFlag = DataFlag | KeyRangeFlag | TsRangeFlag

  /** The outcome of `start`: an assertion on its arguments failed, or what it yielded. */
  datatype Outcome = AssertionFailed(message: string) | Ran(yielded: seq<Yield>)

  /** Python's `n % batch == 0`; a zero `batch` raises instead, so it never holds. */
  predicate Divisible(n: nat, batch: int)
  {
    batch != 0 && n % batch == 0
  }

  /** The element makes `start` raise: a failed status, a zero batch size, or a record no range holds. */
  predicate Faults(e: IterRecord, batch: int, separately: bool, ranges: seq<KeyRange>)
  {
    || e.status != 0
    || batch == 0
    || (e.response.status == 0 && Route(separately, ranges, e.response.key).NotFound?)
  }

  /** The first element from `k` on that makes `start` raise, or `|records|` when none does. */
  function FaultFrom(records: seq<IterRecord>, batch: int, separately: bool, ranges: seq<KeyRange>, k: nat): (f: nat)
    requires k <= |records|
    ensures k <= f <= |records|
    ensures f < |records| ==> Faults(records[f], batch, separately, ranges)
    ensures forall j :: k <= j < f ==> !Faults(records[j], batch, separately, ranges)
    decreases |records| - k
  {
    if k == |records| then k
    else if Faults(records[k], batch, separately, ranges) then k
    else FaultFrom(records, batch, separately, ranges, k + 1)
  }

  /** `filtered_keys` after the first `n` elements: one past the last record that is not a keepalive. */
  function FilteredAt(records: seq<IterRecord>, n: nat): (f: nat)
    requires n <= |records|
    ensures f <= n
  {
    if n == 0 then 0
    else if records[n - 1].response.status == 0 then n
    else FilteredAt(records, n - 1)
  }

  /** The progress tuple of element `k`. */
  function ProgressAt(records: seq<IterRecord>, k: nat): Yield
    requires k < |records|
  {
    Progress(FilteredAt(records, k + 1), records[k].response.iteratedKeys, records[k].response.totalKeys)
  }

  /** The progress tuples yielded for the first `n` elements: one per element whose count is a multiple of the batch size. */
  function Progresses(records: seq<IterRecord>, batch: int, n: nat): seq<Yield>
    requires n <= |records|
  {
    if n == 0 then []
    else
      var e := records[n - 1];
      Progresses(records, batch, n - 1) + (if Divisible(e.response.iteratedKeys, batch) then [ProgressAt(records, n - 1)] else [])
  }

  /** The records of `s` routed to partition `id`, in order. */
  function Routed(s: seq<IterRecord>, separately: bool, ranges: seq<KeyRange>, id: nat): seq<IterRecord>
  {
    if s == [] then []
    else
      var e := s[|s| - 1];
      Routed(s[..|s| - 1], separately, ranges, id) +
        (if e.response.status == 0 && Route(separately, ranges, e.response.key) == Found(id) then [e] else [])
  }

  /** The partitions `results` has a container for. */
  function PartitionIds(separately: bool, ranges: seq<KeyRange>): set<nat>
  {
    if separately then RangeIds(ranges) else {0}
  }

  /**
   * The containers `results` holds after the records of `s` are routed one by
   * one: an empty container per partition, and each record that is not a
   * keepalive appended to the container of its range.
   */
  function Partition(s: seq<IterRecord>, separately: bool, ranges: seq<KeyRange>): (p: map<nat, seq<IterRecord>>)
    ensures p.Keys == PartitionIds(separately, ranges)
    decreases |s|
  {
    if s == [] then map id | id in PartitionIds(separately, ranges) :: []
    else
      var p := Partition(s[..|s| - 1], separately, ranges);
      var e := s[|s| - 1];
      var r := Route(separately, ranges, e.response.key);
      if e.response.status == 0 && r.Found? && r.rangeId in p then p[r.rangeId := p[r.rangeId] + [e]] else p
  }

  /**
   * Everything `start` yields for the stream `records`: the progress tuples;
   * then, after a fault, the progress tuple of the faulting element if it got
   * that far, and one `None`; otherwise the final progress tuple and the containers.
   */
  function Expected(records: seq<IterRecord>, batch: int, separately: bool, ranges: seq<KeyRange>): seq<Yield>
  {
    var f := FaultFrom(records, batch, separately, ranges, 0);
    if f < |records| then
      var e := records[f];
      Progresses(records, batch, f) +
        (if e.status == 0 && Divisible(e.response.iteratedKeys, batch) then [ProgressAt(records, f)] else []) +
        [Failed]
    else
      var last := if records == [] then Progress(0, 0, 0) else ProgressAt(records, |records| - 1);
      Progresses(records, batch, |records|) +
        [Progress(FilteredAt(records, |records|), last.iterated, last.total)] +
        [if separately then Partitions(Partition(records, separately, ranges))
         else Single(Partition(records, separately, ranges)[0])]
  }

  /** Routing element `n` after the first `n`: the fold's step on a prefix of `records`. */
  lemma PartitionStep(records: seq<IterRecord>, n: nat, separately: bool, ranges: seq<KeyRange>)
    requires n < |records|
    ensures Partition(records[..n + 1], separately, ranges) ==
      var p := Partition(records[..n], separately, ranges);
      var r := Route(separately, ranges, records[n].response.key);
      if records[n].response.status == 0 && r.Found? && r.rangeId in p then p[r.rangeId := p[r.rangeId] + [records[n]]] else p
  {
    assert records[..n + 1][..n] == records[..n];
  }

  /** When element `n` is the first to fault, `start` yields the progress tuples so far, maybe the one of `n`, and `None`. */
  lemma ExpectedAtFault(records: seq<IterRecord>, batch: int, separately: bool, ranges: seq<KeyRange>, n: nat)
    requires n < |records| && Faults(records[n], batch, separately, ranges)
    requires forall j :: 0 <= j < n ==> !Faults(records[j], batch, separately, ranges)
    ensures Expected(records, batch, separately, ranges) ==
      Progresses(records, batch, n) +
      (if records[n].status == 0 && Divisible(records[n].response.iteratedKeys, batch) then [ProgressAt(records, n)] else []) +
      [Failed]
  {
    assert FaultFrom(records, batch, separately, ranges, 0) == n;
  }

  /** When no element faults, `start` yields the progress tuples, the last counters, and the containers. */
  lemma ExpectedAtEnd(records: seq<IterRecord>, batch: int, separately: bool, ranges: seq<KeyRange>)
    requires forall j :: 0 <= j < |records| ==> !Faults(records[j], batch, separately, ranges)
    ensures var last := if records == [] then Progress(0, 0, 0) else ProgressAt(records, |records| - 1);
      Expected(records, batch, separately, ranges) ==
        Progresses(records, batch, |records|) +
        [Progress(FilteredAt(records, |records|), last.iterated, last.total)] +
        [if separately then Partitions(Partition(records, separately, ranges))
         else Single(Partition(records, separately, ranges)[0])]
  {
    assert FaultFrom(records, batch, separately, ranges, 0) == |records|;
  }

  /** The iterator of one node and group; `ranges` is set by `start`. */
  class Iterator {
    const separately: bool
    var ranges: seq<KeyRange>

    constructor (separately: bool)
      ensures this.separately == separately && ranges == []
    {
      this.separately := separately;
      ranges := [];
    }

    /**
     * `get_key_range_id` as written: when the key lies above range `start`
     * and `stop == start + 1`, `start = curr` leaves the search where it was
     * and the loop never ends; that fixed point is reported as `Hangs`.
     */
    method GetKeyRangeIdAsWritten(key: Key) returns (r: Lookup)
      ensures !separately ==> r == Found(0)
      ensures separately && r.Found? ==>
        exists i :: 0 <= i < |ranges| && CheckKey(ranges[i], key) == 0 && ranges[i].rangeId == r.rangeId
      ensures separately && SortedRanges(ranges) ==>
        && (r.Found? <==> Covered(ranges, key))
        && (r.NotFound? <==> (ranges == [] || key < ranges[0].start))
        && (r.Hangs? <==> (ranges != [] && ranges[0].start <= key && !Covered(ranges, key)))
    {
      if !separately {
        return Found(0);
      }
      var stop := |ranges|;
      var start := 0;
      while start < stop
        invariant 0 <= start <= stop <= |ranges| && (0 < start ==> start < |ranges|)
        invariant SortedRanges(ranges) ==> forall i :: 0 <= i < |ranges| && CheckKey(ranges[i], key) == 0 ==> start <= i < stop
        invariant SortedRanges(ranges) && 0 < start ==> CheckKey(ranges[start], key) > 0
        invariant SortedRanges(ranges) && stop < |ranges| ==> CheckKey(ranges[stop], key) < 0
        decreases stop - start
      {
        var curr := (stop + start) / 2;
        var currRange := ranges[curr];
        var check := CheckKey(currRange, key);
        if check == 0 {
          return Found(currRange.rangeId);
        } else if check < 0 {
          stop := curr;
        } else if curr == start {
          if SortedRanges(ranges) && 0 < start {
            SortedAbove(ranges, 0, start);
          }
          return Hangs;
        } else {
          start := curr;
        }
      }
      return NotFound;
    }

    /** `get_key_range_id` with the search moving past a range the key lies above. */
    method GetKeyRangeId(key: Key) returns (r: Lookup)
      requires separately ==> SortedRanges(ranges)
      ensures r == Route(separately, ranges, key)
    {
      if !separately {
        return Found(0);
      }
      var stop := |ranges|;
      var start := 0;
      while start < stop
        invariant 0 <= start <= stop <= |ranges|
        invariant forall i :: 0 <= i < |ranges| && CheckKey(ranges[i], key) == 0 ==> start <= i < stop
      {
        var curr := (stop + start) / 2;
        var currRange := ranges[curr];
        var check := CheckKey(currRange, key);
        if check == 0 {
          RouteUnique(ranges, key, curr);
          return Found(currRange.rangeId);
        } else if check < 0 {
          forall i | curr <= i < |ranges| ensures CheckKey(ranges[i], key) != 0 {
            if curr < i {
              SortedAbove(ranges, curr, i);
            }
          }
          stop := curr;
        } else {
          forall i | 0 <= i <= curr ensures CheckKey(ranges[i], key) != 0 {
            if i < curr {
              SortedAbove(ranges, i, curr);
            }
          }
          start := curr + 1;
        }
      }
      return NotFound;
    }

    /**
     * `results[self.get_key_range_id(key)].append(record)` for element `num`;
     * `missed` stands for the `KeyError` of a key no range holds.
     */
    method AppendRecord(records: seq<IterRecord>, num: nat, results: map<nat, seq<IterRecord>>)
        returns (missed: bool, results2: map<nat, seq<IterRecord>>)
      requires num < |records| && records[num].response.status == 0
      requires separately ==> SortedRanges(ranges)
      requires results == Partition(records[..num], separately, ranges)
      ensures missed <==> Route(separately, ranges, records[num].response.key).NotFound?
      ensures !missed ==> results2 == Partition(records[..num + 1], separately, ranges)
    {
      var record := records[num];
      var id := GetKeyRangeId(record.response.key);
      if id.NotFound? {
        return true, results;
      }
      PartitionStep(records, num, separately, ranges);
      assert id.rangeId in results by {
        if separately {
          var i :| 0 <= i < |ranges| && CheckKey(ranges[i], record.response.key) == 0 && ranges[i].rangeId == id.rangeId;
        }
      }
      return false, results[id.rangeId := results[id.rangeId] + [record]];
    }

    /**
     * One pass of the loop of `start` over element `num`: the status check,
     * the counters, the progress tuple when the count is a multiple of the
     * batch size, and the routing of a record that is not a keepalive;
     * `fault` stands for an exception raised on the way.
     */
    method Consume(records: seq<IterRecord>, batch: int, num: nat, filtered: nat, results: map<nat, seq<IterRecord>>)
        returns (fault: bool, filtered2: nat, iterated: nat, total: nat, emitted: seq<Yield>,
                 results2: map<nat, seq<IterRecord>>)
      requires num < |records| && filtered == FilteredAt(records, num)
      requires separately ==> SortedRanges(ranges)
      requires results == Partition(records[..num], separately, ranges)
      ensures fault <==> Faults(records[num], batch, separately, ranges)
      ensures emitted ==
        if records[num].status == 0 && Divisible(records[num].response.iteratedKeys, batch) then [ProgressAt(records, num)] else []
      ensures !fault ==>
        && filtered2 == FilteredAt(records, num + 1)
        && iterated == records[num].response.iteratedKeys && total == records[num].response.totalKeys
        && results2 == Partition(records[..num + 1], separately, ranges)
    {
      var record := records[num];
      filtered2, iterated, total, emitted, results2 := filtered, 0, 0, [], results;
      if record.status != 0 {
        return true, filtered2, iterated, total, emitted, results2;
      }
      if record.response.status == 0 {
        filtered2 := num + 1;
      }
      iterated := record.response.iteratedKeys;
      total := record.response.totalKeys;
      if batch == 0 {
        return true, filtered2, iterated, total, emitted, results2;
      }
      if iterated % batch == 0 {
        emitted := [Progress(filtered2, iterated, total)];
      }
      if record.response.status == 0 {
        fault, results2 := AppendRecord(records, num, results);
      } else {
        fault := false;
        PartitionStep(records, num, separately, ranges);
      }
    }

    /**
     * The counting and routing loop of `start` over the stream `records`:
     * yields exactly what `Expected` says.
     */
    method Iterate(records: seq<IterRecord>, batch: int) returns (out: seq<Yield>)
      requires separately ==> SortedRanges(ranges)
      ensures out == Expected(records, batch, separately, ranges)
    {
      var results := map id | id in PartitionIds(separately, ranges) :: [];
      var filtered, iterated, total := 0, 0, 0;
      out := [];
      var num := 0;
      while num < |records|
        invariant num <= |records|
        invariant forall j :: 0 <= j < num ==> !Faults(records[j], batch, separately, ranges)
        invariant filtered == FilteredAt(records, num)
        invariant num == 0 ==> iterated == 0 && total == 0
        invariant num > 0 ==> iterated == records[num - 1].response.iteratedKeys && total == records[num - 1].response.totalKeys
        invariant out == Progresses(records, batch, num)
        invariant results == Partition(records[..num], separately, ranges)
      {
        var fault, emitted;
        fault, filtered, iterated, total, emitted, results := Consume(records, batch, num, filtered, results);
        out := out + emitted;
        if fault {
          ExpectedAtFault(records, batch, separately, ranges, num);
          return out + [Failed];
        }
        num := num + 1;
      }
      assert records[..num] == records;
      ExpectedAtEnd(records, batch, separately, ranges);
      out := out + [Progress(filtered, iterated, total)];
      if separately {
        out := out + [Partitions(results)];
      } else {
        out := out + [Single(results[0])];
      }
    }

    /**
     * `start`: checks its arguments, then remembers the key ranges and runs
     * the iteration over the stream `records` the node sends back.
     */
    method Start(itype: IteratorType, flags: set<IteratorFlag>, keyRanges: seq<KeyRange>, batchSize: int,
                 records: seq<IterRecord>) returns (out: Outcome)
      requires separately ==> SortedRanges(keyRanges)
      modifies this`ranges
      ensures itype != Network ==>
        out == AssertionFailed("Only network iterator is supported for now") && ranges == old(ranges)
      ensures itype == Network && DataFlag in flags ==>
        out == AssertionFailed("Only metadata iterator is supported for now") && ranges == old(ranges)
      ensures itype == Network && DataFlag !in flags && keyRanges == [] ==>
        out == AssertionFailed("There should be at least one iteration range.") && ranges == old(ranges)
      ensures itype == Network && DataFlag !in flags && keyRanges != [] ==>
        ranges == keyRanges && out == Ran(Expected(records, batchSize, separately, keyRanges))
    {
      if itype != Network {
        return AssertionFailed("Only network iterator is supported for now");
      }
      if DataFlag in flags {
        return AssertionFailed("Only metadata iterator is supported for now");
      }
      if keyRanges == [] {
        return AssertionFailed("There should be at least one iteration range.");
      }
      ranges := keyRanges;
      var yielded := Iterate(records, batchSize);
      return Ran(yielded);
    }
  }
}
