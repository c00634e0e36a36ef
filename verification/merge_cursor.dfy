/**
 * `MergeData`: a cursor over one sorted diff stream that collapses every run of
 * equal keys to the record with the newest timestamp.
 */
module MergeCursor {
  import opened Records

  datatype Option<T> = None | Some(value: T)

  /** Keys never decrease along `s` (the order a sorted result container is in). */
  predicate SortedByKey(s: seq<Record>)
  {
    forall i, j :: 0 <= i < j < |s| ==> s[i].key <= s[j].key
  }

  /** Keys strictly increase along `s`: no key occurs twice. */
  predicate StrictlyIncreasing(s: seq<Record>)
  {
    forall i, j :: 0 <= i < j < |s| ==> s[i].key < s[j].key
  }

  /** The length of the leading run of records sharing the first record's key. */
  function RunLength(s: seq<Record>): (n: nat)
    requires s != []
    ensures 1 <= n <= |s|
    ensures forall i :: 0 <= i < n ==> s[i].key == s[0].key
    ensures n < |s| ==> s[n].key != s[0].key
  {
    if |s| == 1 || s[1].key != s[0].key then 1 else 1 + RunLength(s[1..])
  }

  /**
   * The position of the record that wins a run: a later record replaces the
   * current winner only when its timestamp is strictly newer.
   */
  function NewestIndex(run: seq<Record>): (w: nat)
    requires run != []
    ensures w < |run|
    ensures forall j :: 0 <= j < |run| ==> !Older(run[w].timestamp, run[j].timestamp)
    ensures forall j :: 0 <= j < w ==> Older(run[j].timestamp, run[w].timestamp)
  {
    if |run| == 1 then 0
    else
      var w := NewestIndex(run[..|run| - 1]);
      if Older(run[w].timestamp, run[|run| - 1].timestamp) then |run| - 1 else w
  }

  /** The record that wins a run: the earliest one carrying the newest timestamp. */
  function Newest(run: seq<Record>): Record
    requires run != []
  {
    run[NewestIndex(run)]
  }

  /** The values a cursor over `s` takes, one per run of equal keys. */
  function Collapse(s: seq<Record>): seq<Record>
    decreases |s|
  {
    if s == [] then [] else
      var n := RunLength(s);
      [Newest(s[..n])] + Collapse(s[n..])
  }

  /** Every collapsed record is a record of the stream, and nothing is invented. */
  lemma {:induction false} CollapseFromStream(s: seq<Record>)
    ensures |Collapse(s)| <= |s|
    ensures Collapse(s) == [] <==> s == []
    ensures forall x :: x in Collapse(s) ==> x in s
    decreases |s|
  {
    if s != [] {
      var n := RunLength(s);
      CollapseFromStream(s[n..]);
      assert Newest(s[..n]) in s;
    }
  }

  /** In a sorted stream, every record after the leading run has a larger key. */
  lemma RestAbove(s: seq<Record>)
    requires SortedByKey(s) && s != []
    ensures forall x :: x in s[RunLength(s)..] ==> x.key > s[0].key
  {
    var n := RunLength(s);
    forall x | x in s[n..] ensures x.key > s[0].key {
      var k :| 0 <= k < |s[n..]| && s[n..][k] == x;
      assert s[n + k] == x && s[n].key <= s[n + k].key;
    }
  }

  /** Putting a record in front of a strictly increasing sequence of larger keys keeps it so. */
  lemma ConsIncreasing(h: Record, t: seq<Record>)
    requires StrictlyIncreasing(t)
    requires forall y :: y in t ==> y.key > h.key
    ensures StrictlyIncreasing([h] + t)
  {
    var c := [h] + t;
    forall i, j | 0 <= i < j < |c| ensures c[i].key < c[j].key {
      assert c[j] == t[j - 1] && c[j] in t;
      if i > 0 {
        assert c[i] == t[i - 1];
      }
    }
  }

  /** A sorted stream collapses to strictly increasing keys. */
  lemma {:induction false} CollapseKeys(s: seq<Record>)
    requires SortedByKey(s)
    ensures StrictlyIncreasing(Collapse(s))
    decreases |s|
  {
    if s != [] {
      var n := RunLength(s);
      var rest := s[n..];
      assert SortedByKey(rest);
      CollapseKeys(rest);
      CollapseFromStream(rest);
      RestAbove(s);
      ConsIncreasing(Newest(s[..n]), Collapse(rest));
    }
  }

  /** Every key of the stream is the key of some collapsed record. */
  lemma {:induction false} CollapseCovers(s: seq<Record>, x: Record)
    requires x in s
    ensures exists y :: y in Collapse(s) && y.key == x.key
    decreases |s|
  {
    var n := RunLength(s);
    var c := Collapse(s);
    assert c == [Newest(s[..n])] + Collapse(s[n..]);
    var k :| 0 <= k < |s| && s[k] == x;
    if k < n {
      assert c[0] in c && c[0].key == x.key;
    } else {
      assert s[n..][k - n] == x;
      CollapseCovers(s[n..], x);
    }
  }

  /** A non-empty stream collapses to the winner of its leading run, then the rest collapsed. */
  lemma CollapseUnfold(s: seq<Record>)
    requires s != []
    ensures Collapse(s) == [Newest(s[..RunLength(s)])] + Collapse(s[RunLength(s)..])
  {
  }

  /** The winner of the leading run carries its key and is no older than any record of the run. */
  lemma NewestOfRun(s: seq<Record>, k: nat)
    requires s != [] && k < RunLength(s)
    ensures Newest(s[..RunLength(s)]).key == s[0].key
    ensures !Older(Newest(s[..RunLength(s)]).timestamp, s[k].timestamp)
  {
    assert s[..RunLength(s)][k] == s[k];
  }

  /** In a sorted stream, a record belongs to the leading run exactly when it carries the first key. */
  lemma KeyInRun(s: seq<Record>, k: nat)
    requires SortedByKey(s) && k < |s|
    ensures k < RunLength(s) <==> s[k].key == s[0].key
  {
    var n := RunLength(s);
    if n <= k {
      assert s[0].key <= s[n].key <= s[k].key;
    }
  }

  /**
   * In a sorted stream, the first collapsed record is the winner of the
   * leading run and the only one carrying the first key; the others are the
   * rest collapsed.
   */
  lemma CollapseHead(s: seq<Record>, j: nat)
    requires SortedByKey(s) && s != [] && j < |Collapse(s)|
    ensures j == 0 <==> Collapse(s)[j].key == s[0].key
    ensures j == 0 ==> Collapse(s)[j] == Newest(s[..RunLength(s)])
    ensures j > 0 ==> Collapse(s)[j] == Collapse(s[RunLength(s)..])[j - 1]
  {
    var rest := s[RunLength(s)..];
    CollapseUnfold(s);
    NewestOfRun(s, 0);
    if j > 0 {
      CollapseFromStream(rest);
      RestAbove(s);
      assert Collapse(rest)[j - 1] in Collapse(rest);
    }
  }

  /** A suffix of a sorted stream is sorted, and keeps record `k` at `k - n`. */
  lemma SortedSuffix(s: seq<Record>, n: nat, k: nat)
    requires SortedByKey(s) && n <= k < |s|
    ensures SortedByKey(s[n..]) && s[n..][k - n] == s[k]
  {
  }

  /** The `j`-th collapsed record of a sorted stream is no older than record `k` of the stream when their keys agree. */
  lemma {:induction false} CollapseNewestAt(s: seq<Record>, j: nat, k: nat)
    requires SortedByKey(s) && j < |Collapse(s)| && k < |s| && s[k].key == Collapse(s)[j].key
    ensures !Older(Collapse(s)[j].timestamp, s[k].timestamp)
    decreases |s|
  {
    var n := RunLength(s);
    KeyInRun(s, k);
    CollapseHead(s, j);
    if k < n {
      NewestOfRun(s, k);
    } else {
      SortedSuffix(s, n, k);
      CollapseNewestAt(s[n..], j - 1, k - n);
    }
  }

  /**
   * The collapsed record of a sorted stream is, for its key, at least as new as
   * every record of the stream with that key.
   */
  lemma CollapseNewest(s: seq<Record>, y: Record, x: Record)
    requires SortedByKey(s)
    requires y in Collapse(s) && x in s && x.key == y.key
    ensures !Older(y.timestamp, x.timestamp)
  {
    var j :| 0 <= j < |Collapse(s)| && Collapse(s)[j] == y;
    var k :| 0 <= k < |s| && s[k] == x;
    CollapseNewestAt(s, j, k);
  }

  /** The run ends at the first record whose key differs from the first one. */
  lemma RunEndsAt(p: seq<Record>, j: nat)
    requires 1 <= j <= |p|
    requires forall i :: 0 <= i < j ==> p[i].key == p[0].key
    requires j < |p| ==> p[j].key != p[0].key
    ensures RunLength(p) == j
  {
  }

  /** Extending a run by one record: the newer of the winner so far and the new record wins. */
  lemma NewestExtend(p: seq<Record>, j: nat)
    requires 1 <= j < |p|
    ensures Newest(p[..j + 1]) == if Older(Newest(p[..j]).timestamp, p[j].timestamp) then p[j] else Newest(p[..j])
  {
    assert p[..j + 1][..j] == p[..j];
  }

  /**
   * The scan of `MergeData.next` over one run: from `first`, reads records of
   * `it0` while they carry the same key and keeps the newest; `following` is
   * the first record of the next run, and `it` what is left after it.
   */
  method ScanRun(first: Record, it0: seq<Record>) returns (newest: Record, following: Option<Record>, it: seq<Record>)
    ensures var p := [first] + it0;
      var n := RunLength(p);
      && newest == Newest(p[..n])
      && (following.None? <==> n == |p|)
      && (following.None? ==> it == [])
      && (following.Some? ==> n < |p| && following.value == p[n] && it == p[n + 1..])
  {
    ghost var p := [first] + it0;
    newest := first;
    assert p[..1] == [first];
    if it0 == [] {
      return newest, None, [];
    }
    following, it := Some(it0[0]), it0[1..];
    ghost var j := 1;
    while newest.key == following.value.key
      invariant 1 <= j < |p|
      invariant following == Some(p[j]) && it == p[j + 1..]
      invariant forall i :: 0 <= i < j ==> p[i].key == p[0].key
      invariant newest == Newest(p[..j])
      decreases |it|
    {
      NewestExtend(p, j);
      if Older(newest.timestamp, following.value.timestamp) {
        newest := following.value;
      }
      j := j + 1;
      if it == [] {
        assert p[..j] == p;
        RunEndsAt(p, j);
        return newest, None, [];
      }
      following, it := Some(it[0]), it[1..];
    }
    RunEndsAt(p, j);
  }

  /**
   * The cursor of `IteratorResult.__merge__`. `iter` holds what is left of the
   * input stream and becomes `None` once the stream is exhausted; `container`
   * is the output container that winning values are appended to.
   */
  class MergeData {
    var iter: Option<seq<Record>>
    var container: seq<Record>
    var value: Option<Record>
    var nextValue: Option<Record>
    const address: Address

    /** A lookahead is held exactly while the stream is live and a value has been taken. */
    ghost predicate Valid()
      reads this`iter, this`value, this`nextValue
    {
      && (iter.None? ==> nextValue.None?)
      && (iter.Some? && value.Some? ==> nextValue.Some?)
    }

    /** The input records the cursor has not yet turned into a value. */
    ghost function Pending(): seq<Record>
      reads this`iter, this`value, this`nextValue
      requires Valid()
    {
      if iter.None? then []
      else if value.None? then iter.value
      else [nextValue.value] + iter.value
    }

    /** A cursor over `records` before its first `Next` (the fields `__init__` sets). */
    constructor (records: seq<Record>, address: Address)
      ensures Valid() && value.None? && Pending() == records
      ensures container == [] && this.address == address
    {
      iter := Some(records);
      container := [];
      value := None;
      nextValue := None;
      this.address := address;
    }

    /**
     * Advances to the next run of equal keys. `stopped` stands for the
     * `StopIteration` the source raises when no record is left; then nothing changes.
     */
    method Next() returns (stopped: bool)
      requires Valid()
      modifies this`iter, this`value, this`nextValue
      ensures Valid()
      ensures stopped <==> old(Pending()) == []
      ensures stopped ==> iter == old(iter) && value == old(value) && nextValue == old(nextValue)
      ensures !stopped ==>
        var p := old(Pending());
        var n := RunLength(p);
        && value == Some(Newest(p[..n]))
        && Pending() == p[n..]
      ensures !stopped ==>
        (iter.None? && nextValue.None?) || (nextValue.Some? && nextValue.value.key != value.value.key)
    {
      ghost var p := Pending();
      if iter.None? {
        return true;
      }
      var it := iter.value;
      var first;
      if value.None? {
        if it == [] {
          return true;
        }
        first, it := it[0], it[1..];
      } else {
        first := nextValue.value;
      }
      stopped := false;
      assert p == [first] + it;
      var newest, following, rest := ScanRun(first, it);
      value := Some(newest);
      nextValue := following;
      iter := if following.None? then None else Some(rest);
      assert following.Some? ==> p[RunLength(p)..] == [following.value] + rest;
    }
  }
}
