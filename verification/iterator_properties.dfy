/**
 * What `Iterator.start` promises its callers: where each record lands, what
 * the progress tuples say, and how a failed iteration ends.
 */
module IteratorProperties {
  import opened Records
  import opened Iterators

  /* ---------- routing ---------- */

  /** A partition `Route` names is one `results` has a container for. */
  lemma RouteInPartitions(separately: bool, ranges: seq<KeyRange>, key: Key)
    requires Route(separately, ranges, key).Found?
    ensures Route(separately, ranges, key).rangeId in PartitionIds(separately, ranges)
  {
    if separately {
      var r := Route(separately, ranges, key);
      var i :| 0 <= i < |ranges| && CheckKey(ranges[i], key) == 0 && ranges[i].rangeId == r.rangeId;
    }
  }

  /** Each container holds, in stream order, exactly the records routed to its partition. */
  lemma {:induction false} PartitionRouted(s: seq<IterRecord>, separately: bool, ranges: seq<KeyRange>)
    ensures forall id :: id in PartitionIds(separately, ranges) ==>
      Partition(s, separately, ranges)[id] == Routed(s, separately, ranges, id)
    decreases |s|
  {
    if s != [] {
      var e := s[|s| - 1];
      PartitionRouted(s[..|s| - 1], separately, ranges);
      if e.response.status == 0 && Route(separately, ranges, e.response.key).Found? {
        RouteInPartitions(separately, ranges, e.response.key);
      }
    }
  }

  /** The records routed to a partition are the records of the stream, not keepalives, whose key `Route` sends there. */
  lemma {:induction false} RoutedMembers(s: seq<IterRecord>, separately: bool, ranges: seq<KeyRange>, id: nat)
    ensures forall x :: x in Routed(s, separately, ranges, id) <==>
      x in s && x.response.status == 0 && Route(separately, ranges, x.response.key) == Found(id)
    decreases |s|
  {
    if s != [] {
      var init := s[..|s| - 1];
      RoutedMembers(init, separately, ranges, id);
      assert s == init + [s[|s| - 1]];
    }
  }

  /**
   * Iterating ranges separately, the container of partition `id` holds exactly
   * the records, not keepalives, whose key lies in a range with identifier `id`.
   */
  lemma PartitionHolds(s: seq<IterRecord>, ranges: seq<KeyRange>, id: nat, x: IterRecord)
    requires SortedRanges(ranges) && id in RangeIds(ranges)
    ensures x in Partition(s, true, ranges)[id] <==>
      x in s && x.response.status == 0 &&
      exists i :: 0 <= i < |ranges| && ranges[i].rangeId == id && CheckKey(ranges[i], x.response.key) == 0
  {
    PartitionRouted(s, true, ranges);
    RoutedMembers(s, true, ranges, id);
    if x in s && x.response.status == 0 {
      if i :| 0 <= i < |ranges| && ranges[i].rangeId == id && CheckKey(ranges[i], x.response.key) == 0 {
        RouteUnique(ranges, x.response.key, i);
      }
    }
  }

  /** Not iterating separately, the one container holds every record of the stream that is not a keepalive. */
  lemma SingleHolds(s: seq<IterRecord>, ranges: seq<KeyRange>, x: IterRecord)
    ensures x in Partition(s, false, ranges)[0] <==> x in s && x.response.status == 0
  {
    PartitionRouted(s, false, ranges);
    RoutedMembers(s, false, ranges, 0);
  }

  /* ---------- progress ---------- */

  /**
   * `filtered_keys` is one past the last element that is not a keepalive:
   * every element after it is a keepalive, and it is 0 when all are.
   */
  lemma {:induction false} FilteredIsLastRecord(records: seq<IterRecord>, n: nat)
    requires n <= |records|
    ensures var f := FilteredAt(records, n);
      && (f == 0 ==> forall j :: 0 <= j < n ==> records[j].response.status != 0)
      && (f > 0 ==> records[f - 1].response.status == 0)
      && (forall j :: f <= j < n ==> records[j].response.status != 0)
    decreases n
  {
    if n > 0 && records[n - 1].response.status != 0 {
      FilteredIsLastRecord(records, n - 1);
    }
  }

  /** `filtered_keys` never goes down as the stream goes on. */
  lemma {:induction false} FilteredMonotone(records: seq<IterRecord>, m: nat, n: nat)
    requires m <= n <= |records|
    ensures FilteredAt(records, m) <= FilteredAt(records, n)
    decreases n - m
  {
    if m < n {
      FilteredMonotone(records, m, n - 1);
    }
  }

  /**
   * A progress tuple is yielded for an element exactly when its count of
   * iterated keys is a multiple of the batch size.
   */
  lemma {:induction false} ProgressesFromBatches(records: seq<IterRecord>, batch: int, n: nat)
    requires n <= |records|
    ensures forall y :: y in Progresses(records, batch, n) <==>
      exists k :: 0 <= k < n && Divisible(records[k].response.iteratedKeys, batch) && y == ProgressAt(records, k)
    decreases n
  {
    if n > 0 {
      ProgressesFromBatches(records, batch, n - 1);
    }
  }

  /** Every progress tuple before the last is yielded at a multiple of a non-zero batch size. */
  lemma ProgressesAtBatches(records: seq<IterRecord>, batch: int, n: nat)
    requires n <= |records|
    ensures forall y :: y in Progresses(records, batch, n) ==>
      y.Progress? && batch != 0 && y.iterated % batch == 0
  {
    ProgressesFromBatches(records, batch, n);
  }

  /* ---------- how an iteration ends ---------- */

  /** Everything `start` yields before its last value is a progress tuple. */
  lemma ExpectedShape(records: seq<IterRecord>, batch: int, separately: bool, ranges: seq<KeyRange>)
    ensures var out := Expected(records, batch, separately, ranges);
      && out != []
      && (forall k :: 0 <= k < |out| - 1 ==> out[k].Progress?)
      && !out[|out| - 1].Progress?
  {
    var f := FaultFrom(records, batch, separately, ranges, 0);
    ProgressesAtBatches(records, batch, f);
    ProgressesAtBatches(records, batch, |records|);
    var out := Expected(records, batch, separately, ranges);
    forall k | 0 <= k < |out| - 1 ensures out[k].Progress? {
      assert out[k] in out[..|out| - 1];
    }
  }

  /**
   * The iteration ends in `None` exactly when some element makes `start`
   * raise; otherwise it ends in the final progress tuple and the containers.
   */
  lemma ExpectedEnding(records: seq<IterRecord>, batch: int, separately: bool, ranges: seq<KeyRange>)
    ensures var out := Expected(records, batch, separately, ranges);
      && |out| >= 1
      && (out[|out| - 1] == Failed <==> exists j :: 0 <= j < |records| && Faults(records[j], batch, separately, ranges))
      && ((forall j :: 0 <= j < |records| ==> !Faults(records[j], batch, separately, ranges)) ==>
        && |out| >= 2
        && out[|out| - 2] ==
          Progress(FilteredAt(records, |records|),
                   if records == [] then 0 else records[|records| - 1].response.iteratedKeys,
                   if records == [] then 0 else records[|records| - 1].response.totalKeys)
        && out[|out| - 1] ==
          if separately then Partitions(Partition(records, separately, ranges))
          else Single(Partition(records, separately, ranges)[0]))
  {
    var f := FaultFrom(records, batch, separately, ranges, 0);
    if f == |records| {
      ExpectedAtEnd(records, batch, separately, ranges);
    }
  }

  /** `None` is yielded at most once, and never before the end. */
  lemma FailedOnlyLast(records: seq<IterRecord>, batch: int, separately: bool, ranges: seq<KeyRange>)
    ensures var out := Expected(records, batch, separately, ranges);
      forall k :: 0 <= k < |out| && out[k] == Failed ==> k == |out| - 1
  {
    ExpectedShape(records, batch, separately, ranges);
  }

  /** A failed iteration yields no container. */
  lemma FailedYieldsNoContainer(records: seq<IterRecord>, batch: int, separately: bool, ranges: seq<KeyRange>)
    requires exists j :: 0 <= j < |records| && Faults(records[j], batch, separately, ranges)
    ensures var out := Expected(records, batch, separately, ranges);
      forall y :: y in out ==> !y.Partitions? && !y.Single?
  {
    ExpectedShape(records, batch, separately, ranges);
    ExpectedEnding(records, batch, separately, ranges);
    var out := Expected(records, batch, separately, ranges);
    forall y | y in out ensures !y.Partitions? && !y.Single? {
      var k :| 0 <= k < |out| && out[k] == y;
    }
  }

  /* ---------- the search as written ---------- */

  /** Two ranges with a gap, and a key in the gap: the search as written never returns. */
  method AsWrittenHangs() returns (r: Lookup)
    ensures r == Hangs
  {
    var it := new Iterator(true);
    it.ranges := [KeyRange(0, 10, 0), KeyRange(20, 30, 1)];
    assert CheckKey(it.ranges[0], 15) > 0 && CheckKey(it.ranges[1], 15) < 0;
    r := it.GetKeyRangeIdAsWritten(15);
  }

  /** The same ranges and key: the corrected search reports that no range holds the key. */
  method CorrectedMisses() returns (r: Lookup)
    ensures r == NotFound
  {
    var it := new Iterator(true);
    it.ranges := [KeyRange(0, 10, 0), KeyRange(20, 30, 1)];
    assert CheckKey(it.ranges[0], 15) > 0 && CheckKey(it.ranges[1], 15) < 0;
    r := it.GetKeyRangeId(15);
  }
}
