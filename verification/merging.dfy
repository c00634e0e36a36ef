/**
 * `IteratorResult.merge` and `IteratorResult.__merge__`: the N-way merge of the
 * per-node diff streams into per-node recovery containers.
 */
module Merging {
  import opened Records
  import opened MergeCursor

  /** An iterator result: the node it belongs to and the records of its container. */
  datatype IteratorResult = IteratorResult(address: Address, records: seq<Record>)

  /** One append made by `__merge__`: which input's container, and the record appended. */
  datatype Entry = Entry(source: nat, rec: Record)

  /** The records appended, in order, to the container of input `i`. */
  function Project(log: seq<Entry>, i: nat): seq<Record>
    decreases |log|
  {
    if log == [] then []
    else Project(log[..|log| - 1], i) + (if log[|log| - 1].source == i then [log[|log| - 1].rec] else [])
  }

  /** The appends happened in strictly increasing key order. */
  predicate LogIncreasing(log: seq<Entry>)
  {
    forall a, b :: 0 <= a < b < |log| ==> log[a].rec.key < log[b].rec.key
  }

  /** The keys appended so far. */
  ghost function LogKeys(log: seq<Entry>): set<Key>
  {
    set e | e in log :: e.rec.key
  }

  /** The values the cursors over `results` take. */
  ghost function Collapsed(results: seq<IteratorResult>): (cs: seq<seq<Record>>)
    ensures |cs| == |results|
    ensures forall i :: 0 <= i < |results| ==> cs[i] == Collapse(results[i].records)
  {
    seq(|results|, i requires 0 <= i < |results| => Collapse(results[i].records))
  }

  /**
   * What `__merge__` produces: one container per non-empty input (`owner` says
   * which), each holding exactly the appends made to it; appends come in strictly
   * increasing key order, each from its own input's cursor values, each minimal
   * in the merge order among all cursor values with its key, and every key of
   * every input is appended.
   */
  ghost predicate IsMergeOf(results: seq<IteratorResult>, ret: seq<IteratorResult>, owner: seq<nat>, log: seq<Entry>)
  {
    && |ret| == |owner|
    && (forall t, u :: 0 <= t < u < |owner| ==> owner[t] != owner[u])
    && (forall i :: 0 <= i < |results| ==> (i in owner <==> results[i].records != []))
    && (forall t :: 0 <= t < |owner| ==>
          && owner[t] < |results|
          && ret[t] == IteratorResult(results[owner[t]].address, Project(log, owner[t])))
    && LogIncreasing(log)
    && (forall e :: e in log ==> e.source < |results| && e.rec in Collapse(results[e.source].records))
    && (forall e, j, x :: e in log && 0 <= j < |results| && x in Collapse(results[j].records) && x.key == e.rec.key
          ==> Le(e.rec, x))
    && (forall j, x :: 0 <= j < |results| && x in results[j].records ==> x.key in LogKeys(log))
  }

  /* ---------- the merge state, as values ---------- */

  /** Cursor `i` has consumed `cnt[i]` of its values; it is live while `cnt[i] < |cs[i]|`. */
  ghost predicate MergeState(cs: seq<seq<Record>>, cnt: seq<nat>, log: seq<Entry>)
  {
    && |cnt| == |cs|
    && (forall i :: 0 <= i < |cs| ==> cnt[i] <= |cs[i]| && StrictlyIncreasing(cs[i]))
    && LogIncreasing(log)
    && (forall e :: e in log ==> e.source < |cs| && e.rec in cs[e.source][..cnt[e.source]])
    && (forall e, j, x :: e in log && 0 <= j < |cs| && x in cs[j] && x.key == e.rec.key ==> Le(e.rec, x))
    && (forall i, m :: 0 <= i < |cs| && 0 <= m < cnt[i] ==> cs[i][m].key in LogKeys(log))
    && (forall i, e :: 0 <= i < |cs| && cnt[i] < |cs[i]| && e in log ==> e.rec.key < cs[i][cnt[i]].key)
  }

  /** The number of cursor values not yet consumed. */
  function Remaining(cs: seq<seq<Record>>, cnt: seq<nat>): nat
    requires |cnt| == |cs|
    requires forall i :: 0 <= i < |cs| ==> cnt[i] <= |cs[i]|
  {
    if cs == [] then 0 else (|cs[0]| - cnt[0]) + Remaining(cs[1..], cnt[1..])
  }

  /** Consuming more values never increases `Remaining`, and consuming one more at `w` decreases it. */
  lemma {:induction false} RemainingDecreases(cs: seq<seq<Record>>, cnt: seq<nat>, cnt2: seq<nat>, w: int)
    requires |cnt| == |cnt2| == |cs|
    requires forall i :: 0 <= i < |cs| ==> cnt[i] <= cnt2[i] <= |cs[i]|
    ensures Remaining(cs, cnt2) + (if 0 <= w < |cs| && cnt[w] < cnt2[w] then 1 else 0) <= Remaining(cs, cnt)
    decreases |cs|
  {
    if cs != [] {
      RemainingDecreases(cs[1..], cnt[1..], cnt2[1..], w - 1);
    }
  }

  /** `cnt` with every cursor in `s` moved one value on. */
  function Advance(cnt: seq<nat>, s: set<nat>): (r: seq<nat>)
    ensures |r| == |cnt|
    ensures forall i :: 0 <= i < |cnt| ==> r[i] == if i in s then cnt[i] + 1 else cnt[i]
  {
    seq(|cnt|, i requires 0 <= i < |cnt| => if i in s then cnt[i] + 1 else cnt[i])
  }

  lemma InLongerPrefix(s: seq<Record>, x: Record, a: nat, b: nat)
    requires a <= b <= |s| && x in s[..a]
    ensures x in s[..b]
  {
    var k :| 0 <= k < a && s[..a][k] == x;
    assert s[..b][k] == x;
  }

  /**
   * A round's choice: `w` is a live cursor whose value is minimal in the merge
   * order among all live cursors' values, and `s` is the set of live cursors
   * whose value has the same key.
   */
  ghost predicate RoundChoice(cs: seq<seq<Record>>, cnt: seq<nat>, w: nat, s: set<nat>)
  {
    && |cnt| == |cs|
    && w < |cs| && cnt[w] < |cs[w]|
    && (forall j :: 0 <= j < |cs| && cnt[j] < |cs[j]| ==> Le(cs[w][cnt[w]], cs[j][cnt[j]]))
    && (forall j :: j in s <==> 0 <= j < |cs| && cnt[j] < |cs[j]| && cs[j][cnt[j]].key == cs[w][cnt[w]].key)
  }

  lemma StepIncreasing(cs: seq<seq<Record>>, cnt: seq<nat>, log: seq<Entry>, w: nat, s: set<nat>)
    requires MergeState(cs, cnt, log) && RoundChoice(cs, cnt, w, s)
    ensures LogIncreasing(log + [Entry(w, cs[w][cnt[w]])])
  {
    var log2 := log + [Entry(w, cs[w][cnt[w]])];
    forall a, b | 0 <= a < b < |log2| ensures log2[a].rec.key < log2[b].rec.key {
      if b == |log| {
        assert log[a] in log;
      }
    }
  }

  lemma StepSources(cs: seq<seq<Record>>, cnt: seq<nat>, log: seq<Entry>, w: nat, s: set<nat>)
    requires MergeState(cs, cnt, log) && RoundChoice(cs, cnt, w, s)
    ensures forall f :: f in log + [Entry(w, cs[w][cnt[w]])] ==>
      f.source < |cs| && f.rec in cs[f.source][..Advance(cnt, s)[f.source]]
  {
    var cnt2 := Advance(cnt, s);
    var e := Entry(w, cs[w][cnt[w]]);
    assert w in s;
    forall f | f in log + [e] ensures f.source < |cs| && f.rec in cs[f.source][..cnt2[f.source]] {
      if f == e {
        assert cs[w][..cnt2[w]][cnt[w]] == e.rec;
      } else {
        assert f in log;
        InLongerPrefix(cs[f.source], f.rec, cnt[f.source], cnt2[f.source]);
      }
    }
  }

  lemma StepWinner(cs: seq<seq<Record>>, cnt: seq<nat>, log: seq<Entry>, w: nat, s: set<nat>)
    requires MergeState(cs, cnt, log) && RoundChoice(cs, cnt, w, s)
    ensures forall j, x :: 0 <= j < |cs| && x in cs[j] && x.key == cs[w][cnt[w]].key ==> Le(cs[w][cnt[w]], x)
  {
    var v := cs[w][cnt[w]];
    forall j, x | 0 <= j < |cs| && x in cs[j] && x.key == v.key ensures Le(v, x) {
      var m :| 0 <= m < |cs[j]| && cs[j][m] == x;
      assert m == cnt[j];
    }
  }

  lemma StepConsumed(cs: seq<seq<Record>>, cnt: seq<nat>, log: seq<Entry>, w: nat, s: set<nat>)
    requires MergeState(cs, cnt, log) && RoundChoice(cs, cnt, w, s)
    ensures forall i, m :: 0 <= i < |cs| && 0 <= m < Advance(cnt, s)[i] ==>
      cs[i][m].key in LogKeys(log + [Entry(w, cs[w][cnt[w]])])
  {
    var cnt2 := Advance(cnt, s);
    var e := Entry(w, cs[w][cnt[w]]);
    var log2 := log + [e];
    forall i, m | 0 <= i < |cs| && 0 <= m < cnt2[i] ensures cs[i][m].key in LogKeys(log2) {
      if m < cnt[i] {
        assert cs[i][m].key in LogKeys(log);
        var f :| f in log && f.rec.key == cs[i][m].key;
        assert f in log2;
      } else {
        assert e in log2;
      }
    }
  }

  lemma StepFrontier(cs: seq<seq<Record>>, cnt: seq<nat>, log: seq<Entry>, w: nat, s: set<nat>)
    requires MergeState(cs, cnt, log) && RoundChoice(cs, cnt, w, s)
    ensures forall i, f :: 0 <= i < |cs| && Advance(cnt, s)[i] < |cs[i]| && f in log + [Entry(w, cs[w][cnt[w]])] ==>
      f.rec.key < cs[i][Advance(cnt, s)[i]].key
  {
    var cnt2 := Advance(cnt, s);
    var v := cs[w][cnt[w]];
    var log2 := log + [Entry(w, v)];
    forall i, f | 0 <= i < |cs| && cnt2[i] < |cs[i]| && f in log2 ensures f.rec.key < cs[i][cnt2[i]].key {
      if i in s {
        assert cs[i][cnt[i]].key < cs[i][cnt2[i]].key;
      } else {
        assert Le(v, cs[i][cnt[i]]);
      }
    }
  }

  /**
   * One round of the merge keeps the state: the minimal live cursor `w` appends
   * its value and every live cursor holding the same key moves on.
   */
  lemma StepKeeps(cs: seq<seq<Record>>, cnt: seq<nat>, log: seq<Entry>, w: nat, s: set<nat>)
    requires MergeState(cs, cnt, log) && RoundChoice(cs, cnt, w, s)
    ensures MergeState(cs, Advance(cnt, s), log + [Entry(w, cs[w][cnt[w]])])
    ensures Remaining(cs, Advance(cnt, s)) < Remaining(cs, cnt)
  {
    assert w in s;
    RemainingDecreases(cs, cnt, Advance(cnt, s), w);
    StepIncreasing(cs, cnt, log, w, s);
    StepSources(cs, cnt, log, w, s);
    StepWinner(cs, cnt, log, w, s);
    StepConsumed(cs, cnt, log, w, s);
    StepFrontier(cs, cnt, log, w, s);
  }

  /** A finished merge has appended every key of every input. */
  lemma DoneCoversAll(results: seq<IteratorResult>, cnt: seq<nat>, log: seq<Entry>)
    requires forall i :: 0 <= i < |results| ==> SortedByKey(results[i].records)
    requires MergeState(Collapsed(results), cnt, log)
    requires forall i :: 0 <= i < |results| ==> cnt[i] == |Collapse(results[i].records)|
    ensures forall j, x :: 0 <= j < |results| && x in results[j].records ==> x.key in LogKeys(log)
  {
    var cs: seq<seq<Record>> := Collapsed(results);
    forall j, x | 0 <= j < |results| && x in results[j].records ensures x.key in LogKeys(log) {
      CollapseCovers(results[j].records, x);
      var y: Record :| y in cs[j] && y.key == x.key;
      var m :| 0 <= m < |cs[j]| && cs[j][m] == y;
      assert cs[j][m].key in LogKeys(log);
    }
  }

  /* ---------- the imperative merge ---------- */

  /** A cursor whose value is `cs[k]` and whose remaining input collapses to the rest of `cs`. */
  ghost predicate Tracks(c: MergeData, cs: seq<Record>, k: nat)
    reads c`iter, c`value, c`nextValue
  {
    c.Valid() && k < |cs| && c.value == Some(cs[k]) && Collapse(c.Pending()) == cs[k + 1..]
  }

  /** Collapsing a non-empty stream yields the winner of its first run, then the rest collapsed. */
  lemma CollapseStep(p: seq<Record>, cs: seq<Record>, k1: nat)
    requires k1 <= |cs| && Collapse(p) == cs[k1..]
    ensures p == [] <==> k1 == |cs|
    ensures p != [] ==>
      && Newest(p[..RunLength(p)]) == cs[k1]
      && Collapse(p[RunLength(p)..]) == cs[k1 + 1..]
  {
    CollapseFromStream(p);
    if p != [] {
      var n := RunLength(p);
      var t := Collapse(p[n..]);
      assert Collapse(p) == [Newest(p[..n])] + t;
      assert cs[k1..][0] == cs[k1];
      assert cs[k1..][1..] == cs[k1 + 1..];
    }
  }

  /** Heap pop of the abstract priority queue: the position of a value minimal in the merge order. */
  method MinIndex(heap: seq<MergeData>) returns (k: nat)
    requires |heap| > 0
    requires forall x :: x in heap ==> x.value.Some?
    ensures k < |heap|
    ensures forall t :: 0 <= t < |heap| ==> Le(heap[k].value.value, heap[t].value.value)
  {
    k := 0;
    assert heap[0] in heap;
    var t := 1;
    while t < |heap|
      invariant 1 <= t <= |heap| && k < t
      invariant forall u :: 0 <= u < t ==> Le(heap[k].value.value, heap[u].value.value)
    {
      assert heap[t] in heap;
      if Cmp(heap[t].value.value, heap[k].value.value) < 0 {
        k := t;
      }
      t := t + 1;
    }
  }

  /** No element occurs twice. */
  ghost predicate Distinct<T>(s: seq<T>)
  {
    forall a, b :: 0 <= a < b < |s| ==> s[a] != s[b]
  }

  /** Removing one entry of a duplicate-free sequence removes exactly that element. */
  lemma RemoveAt<T>(s: seq<T>, k: nat)
    requires k < |s| && Distinct(s)
    ensures Distinct(s[..k] + s[k + 1..])
    ensures forall x :: x in s[..k] + s[k + 1..] <==> x in s && x != s[k]
  {
    var r := s[..k] + s[k + 1..];
    forall a | 0 <= a < |r| ensures r[a] == if a < k then s[a] else s[a + 1] {}
    forall x | x in s && x != s[k] ensures x in r {
      var a :| 0 <= a < |s| && s[a] == x;
      if a < k { assert r[a] == x; } else { assert r[a - 1] == x; }
    }
  }

  /**
   * The inner `while` of `__merge__`: pops from the heap, minimum first, every
   * cursor whose value has `key`, stopping at the first one that does not.
   */
  method PopSameKey(heap: seq<MergeData>, key: Key) returns (same: seq<MergeData>, rest: seq<MergeData>)
    requires Distinct(heap)
    requires forall x :: x in heap ==> x.value.Some? && x.value.value.key >= key
    ensures Distinct(same) && Distinct(rest)
    ensures forall x :: x in heap <==> x in same || x in rest
    ensures forall x :: x in same ==> x !in rest && x.value.value.key == key
    ensures forall x :: x in rest ==> x.value.value.key > key
  {
    same, rest := [], heap;
    var scanning := true;
    while scanning && |rest| > 0
      invariant Distinct(same) && Distinct(rest)
      invariant forall x :: x in heap <==> x in same || x in rest
      invariant forall x :: x in same ==> x !in rest && x.value.value.key == key
      invariant forall x :: x in rest ==> x.value.value.key >= key
      invariant !scanning ==> forall x :: x in rest ==> x.value.value.key > key
      decreases |rest|, scanning
    {
      var h := MinIndex(rest);
      if rest[h].value.value.key == key {
        RemoveAt(rest, h);
        same := same + [rest[h]];
        rest := rest[..h] + rest[h + 1..];
      } else {
        scanning := false;
      }
    }
  }

  /** Appending one entry to the log extends exactly one container's projection. */
  lemma ProjectSnoc(log: seq<Entry>, e: Entry)
    ensures forall a :: Project(log + [e], a) == Project(log, a) + (if e.source == a then [e.rec] else [])
  {
    assert (log + [e])[..|log|] == log;
  }

  /** `cs[a]` is the cursor of input `a`, and `idx` maps each cursor back to its input. */
  ghost predicate Indexed(C: seq<seq<Record>>, cs: seq<MergeData>, idx: map<MergeData, nat>)
  {
    && |cs| == |C|
    && (forall a :: 0 <= a < |C| ==> cs[a] in idx && idx[cs[a]] == a)
    && (forall x :: x in idx ==> idx[x] < |C| && cs[idx[x]] == x)
  }

  /** Every cursor's container holds exactly the appends made for its input. */
  ghost predicate Containers(results: seq<IteratorResult>, idx: map<MergeData, nat>, log: seq<Entry>)
    reads idx.Keys`container
  {
    forall x :: x in idx ==>
      idx[x] < |results| && x.address == results[idx[x]].address && x.container == Project(log, idx[x])
  }

  /** The cursors in `heap` are distinct and each stands at value `cnt[input]` of its input. */
  ghost predicate HeapAt(C: seq<seq<Record>>, idx: map<MergeData, nat>, heap: seq<MergeData>, cnt: seq<nat>)
    reads heap`iter, heap`value, heap`nextValue
  {
    && Distinct(heap)
    && (forall x :: x in heap ==> x in idx && idx[x] < |C| == |cnt| && Tracks(x, C[idx[x]], cnt[idx[x]]))
  }

  /** The cursors in `same` are still at `cnt`, are due to move to `cnt2`, and have not handed in their container. */
  ghost predicate SameAt(C: seq<seq<Record>>, idx: map<MergeData, nat>, same: seq<MergeData>, cnt: seq<nat>, cnt2: seq<nat>,
                         owner: seq<nat>)
    reads same`iter, same`value, same`nextValue
  {
    && Distinct(same)
    && (forall x :: x in same ==>
          && x in idx && idx[x] < |C| == |cnt| == |cnt2|
          && Tracks(x, C[idx[x]], cnt[idx[x]])
          && cnt2[idx[x]] == cnt[idx[x]] + 1 && idx[x] !in owner)
  }

  /**
   * Every cursor not in `same` is in the heap exactly while live at `cnt2`, and
   * has handed its container to `ret` exactly when exhausted.
   */
  ghost predicate Placed(C: seq<seq<Record>>, idx: map<MergeData, nat>, heap: seq<MergeData>, same: seq<MergeData>,
                         cnt2: seq<nat>, owner: seq<nat>)
  {
    && |cnt2| == |C|
    && (forall x :: x in heap ==> x !in same)
    && (forall x :: x in idx && x !in same ==>
          && idx[x] < |C|
          && (cnt2[idx[x]] < |C[idx[x]]| <==> x in heap)
          && (idx[x] in owner <==> cnt2[idx[x]] == |C[idx[x]]| && C[idx[x]] != []))
  }

  /** `ret` holds, once each, the containers of the inputs listed in `owner`. */
  ghost predicate Returned(results: seq<IteratorResult>, ret: seq<IteratorResult>, owner: seq<nat>, log: seq<Entry>)
  {
    && |ret| == |owner| && Distinct(owner)
    && (forall t :: 0 <= t < |owner| ==>
          owner[t] < |results| && ret[t] == IteratorResult(results[owner[t]].address, Project(log, owner[t])))
  }

  /** The state between two rounds of the merge. */
  ghost predicate Between(results: seq<IteratorResult>, C: seq<seq<Record>>, cs: seq<MergeData>, idx: map<MergeData, nat>,
                          cnt: seq<nat>, log: seq<Entry>, heap: seq<MergeData>, ret: seq<IteratorResult>, owner: seq<nat>)
    reads idx.Keys`container, heap`iter, heap`value, heap`nextValue
  {
    && C == Collapsed(results)
    && Indexed(C, cs, idx)
    && Containers(results, idx, log)
    && HeapAt(C, idx, heap, cnt)
    && Placed(C, idx, heap, [], cnt, owner)
    && Returned(results, ret, owner, log)
    && MergeState(C, cnt, log)
  }

  /**
   * `MergeData(d, container)`: a fresh cursor with an empty container that has
   * taken its first value; `stopped` stands for the `StopIteration` of an empty input.
   */
  method OpenCursor(records: seq<Record>, address: Address, ghost cs: seq<Record>) returns (d: MergeData, stopped: bool)
    requires cs == Collapse(records)
    ensures fresh(d) && d.container == [] && d.address == address
    ensures stopped <==> cs == []
    ensures !stopped ==> Tracks(d, cs, 0)
  {
    d := new MergeData(records, address);
    ghost var p := d.Pending();
    stopped := d.Next();
    CollapseStep(p, cs, 0);
  }

  /** The cursors of the first `i` inputs: `cs[a]` is that of input `a`, at its first value, and `idx` maps it back. */
  ghost predicate OpenedUpTo(cs: seq<MergeData>, idx: map<MergeData, nat>, cnt: seq<nat>, i: nat)
  {
    && |cs| == |cnt| == i
    && (forall a :: 0 <= a < i ==> cs[a] in idx && idx[cs[a]] == a && cnt[a] == 0)
    && (forall x :: x in idx ==> idx[x] < i && cs[idx[x]] == x)
  }

  /** Adding the cursor of input `i`. */
  lemma OpenedSnoc(cs: seq<MergeData>, idx: map<MergeData, nat>, cnt: seq<nat>, i: nat, d: MergeData)
    requires OpenedUpTo(cs, idx, cnt, i) && d !in idx
    ensures OpenedUpTo(cs + [d], idx[d := i], cnt + [0], i + 1)
  {
    var cs2, idx2 := cs + [d], idx[d := i];
    forall a | 0 <= a < i + 1 ensures cs2[a] in idx2 && idx2[cs2[a]] == a {
      if a < i {
        assert cs2[a] == cs[a] && cs[a] != d;
      }
    }
  }

  /** Fresh cursors at their first values, with empty containers, are the state before the first round. */
  lemma InitialBetween(results: seq<IteratorResult>, C: seq<seq<Record>>, cs: seq<MergeData>, idx: map<MergeData, nat>,
                       cnt: seq<nat>, heap: seq<MergeData>)
    requires C == Collapsed(results)
    requires forall i :: 0 <= i < |results| ==> StrictlyIncreasing(C[i])
    requires OpenedUpTo(cs, idx, cnt, |results|)
    requires forall x :: x in idx ==> x.address == results[idx[x]].address && x.container == []
    requires Distinct(heap)
    requires forall x :: x in heap ==> x in idx && Tracks(x, C[idx[x]], 0)
    requires forall x :: x in idx ==> (C[idx[x]] != [] <==> x in heap)
    ensures Between(results, C, cs, idx, cnt, [], heap, [], [])
  {
    assert forall i :: Project([], i) == [];
  }

  /** Builds one cursor per input and takes its first value; empty inputs get no place in the heap. */
  method MakeCursors(results: seq<IteratorResult>, ghost C: seq<seq<Record>>)
      returns (heap: seq<MergeData>, ghost cs: seq<MergeData>, ghost idx: map<MergeData, nat>, ghost cnt: seq<nat>)
    requires C == Collapsed(results)
    requires forall i :: 0 <= i < |results| ==> StrictlyIncreasing(C[i])
    ensures forall x :: x in idx ==> fresh(x)
    ensures Between(results, C, cs, idx, cnt, [], heap, [], [])
  {
    heap, cs, idx, cnt := [], [], map[], [];
    var i := 0;
    while i < |results|
      invariant 0 <= i <= |results|
      invariant OpenedUpTo(cs, idx, cnt, i)
      invariant forall x :: x in idx ==> fresh(x)
      invariant forall x :: x in idx ==> x.address == results[idx[x]].address && x.container == []
      invariant Distinct(heap)
      invariant forall x :: x in heap ==> x in idx && Tracks(x, C[idx[x]], 0)
      invariant forall x :: x in idx ==> (C[idx[x]] != [] <==> x in heap)
    {
      var d, stopped := OpenCursor(results[i].records, results[i].address, C[i]);
      assert d !in idx && d !in heap;
      assert forall x :: x in heap ==> Tracks(x, C[idx[x]], 0);
      OpenedSnoc(cs, idx, cnt, i, d);
      cs := cs + [d];
      cnt := cnt + [0];
      idx := idx[d := i];
      if !stopped {
        heap := heap + [d];
      }
      i := i + 1;
    }
    InitialBetween(results, C, cs, idx, cnt, heap);
  }

  /** The head of the cursors due to advance is apart from the rest of them. */
  lemma SameHead(C: seq<seq<Record>>, idx: map<MergeData, nat>, c: MergeData, rest: seq<MergeData>,
                 cnt: seq<nat>, cnt2: seq<nat>, owner: seq<nat>)
    requires SameAt(C, idx, [c] + rest, cnt, cnt2, owner)
    ensures c !in rest && SameAt(C, idx, rest, cnt, cnt2, owner)
    ensures c in idx && idx[c] < |C| == |cnt| == |cnt2| && idx[c] !in owner
    ensures Tracks(c, C[idx[c]], cnt[idx[c]]) && cnt2[idx[c]] == cnt[idx[c]] + 1
  {
    var same := [c] + rest;
    assert same[0] == c;
    forall t | 0 <= t < |rest| ensures rest[t] == same[t + 1] && rest[t] != c {}
    forall t, u | 0 <= t < u < |rest| ensures rest[t] != rest[u] {
      assert same[t + 1] != same[u + 1];
    }
  }

  /** An exhausted cursor leaves the set due to advance and joins `owner`. */
  lemma PlacedExhausted(C: seq<seq<Record>>, idx: map<MergeData, nat>, heap: seq<MergeData>, c: MergeData,
                        rest: seq<MergeData>, cnt2: seq<nat>, owner: seq<nat>)
    requires Placed(C, idx, heap, [c] + rest, cnt2, owner)
    requires c in idx && idx[c] < |C| && c !in heap && c !in rest && idx[c] !in owner
    requires cnt2[idx[c]] == |C[idx[c]]| && C[idx[c]] != []
    requires forall x :: x in idx && x != c ==> idx[x] != idx[c]
    ensures Placed(C, idx, heap, rest, cnt2, owner + [idx[c]])
  {
    forall x | x in idx && x !in rest
      ensures idx[x] < |C| && (cnt2[idx[x]] < |C[idx[x]]| <==> x in heap)
      ensures idx[x] in owner + [idx[c]] <==> cnt2[idx[x]] == |C[idx[x]]| && C[idx[x]] != []
    {
      if x != c {
        assert x !in [c] + rest;
      }
    }
  }

  /** A live cursor leaves the set due to advance and goes back into the heap. */
  lemma PlacedLive(C: seq<seq<Record>>, idx: map<MergeData, nat>, heap: seq<MergeData>, c: MergeData,
                   rest: seq<MergeData>, cnt2: seq<nat>, owner: seq<nat>)
    requires Placed(C, idx, heap, [c] + rest, cnt2, owner)
    requires c in idx && idx[c] < |C| && c !in rest && idx[c] !in owner
    requires cnt2[idx[c]] < |C[idx[c]]|
    ensures Placed(C, idx, heap + [c], rest, cnt2, owner)
  {
    forall x | x in heap + [c] ensures x !in rest {
      if x != c {
        assert x in heap && x !in [c] + rest;
      }
    }
    forall x | x in idx && x !in rest
      ensures idx[x] < |C| && (cnt2[idx[x]] < |C[idx[x]]| <==> x in heap + [c])
      ensures idx[x] in owner <==> cnt2[idx[x]] == |C[idx[x]]| && C[idx[x]] != []
    {
      if x != c {
        assert x !in [c] + rest;
      }
    }
  }

  /** Handing in the container of a new input keeps `ret` matched with `owner`. */
  lemma ReturnedAppend(results: seq<IteratorResult>, ret: seq<IteratorResult>, owner: seq<nat>, log: seq<Entry>, a: nat)
    requires Returned(results, ret, owner, log) && a < |results| && a !in owner
    ensures Returned(results, ret + [IteratorResult(results[a].address, Project(log, a))], owner + [a], log)
  {
    var owner2 := owner + [a];
    forall t, u | 0 <= t < u < |owner2| ensures owner2[t] != owner2[u] {
      if u == |owner| {
        assert owner2[t] in owner;
      }
    }
  }

  /** A live cursor not yet in the heap can join it. */
  lemma HeapGrow(C: seq<seq<Record>>, idx: map<MergeData, nat>, heap: seq<MergeData>, c: MergeData, cnt: seq<nat>)
    requires HeapAt(C, idx, heap, cnt) && c !in heap
    requires c in idx && idx[c] < |C| == |cnt| && Tracks(c, C[idx[c]], cnt[idx[c]])
    ensures HeapAt(C, idx, heap + [c], cnt)
  {
    var h := heap + [c];
    forall t, u | 0 <= t < u < |h| ensures h[t] != h[u] {
      if u == |heap| {
        assert h[t] in heap;
      }
    }
  }

  /** `i.next()` on a cursor of the round: it moves to its next value, or runs out exactly when its input has none left. */
  method StepCursor(ghost C: seq<seq<Record>>, ghost idx: map<MergeData, nat>, ghost cnt: seq<nat>, ghost cnt2: seq<nat>,
                    heap0: seq<MergeData>, c: MergeData, ghost rest: seq<MergeData>, ghost owner0: seq<nat>)
      returns (stopped: bool)
    requires HeapAt(C, idx, heap0, cnt2) && SameAt(C, idx, [c] + rest, cnt, cnt2, owner0)
    requires Placed(C, idx, heap0, [c] + rest, cnt2, owner0)
    modifies c`iter, c`value, c`nextValue
    ensures c in idx && idx[c] < |C| == |cnt2| && c !in heap0 && c !in rest && idx[c] !in owner0
    ensures HeapAt(C, idx, heap0, cnt2) && SameAt(C, idx, rest, cnt, cnt2, owner0)
    ensures stopped <==> cnt2[idx[c]] == |C[idx[c]]|
    ensures !stopped ==> Tracks(c, C[idx[c]], cnt2[idx[c]])
  {
    SameHead(C, idx, c, rest, cnt, cnt2, owner0);
    ghost var a := idx[c];
    assert c !in heap0 by { assert c in [c] + rest; }
    ghost var pend := c.Pending();
    CollapseStep(pend, C[a], cnt[a] + 1);
    stopped := c.Next();
    assert SameAt(C, idx, rest, cnt, cnt2, owner0);
    assert HeapAt(C, idx, heap0, cnt2);
  }

  /** Advances cursor `c`; when exhausted it hands its container to `ret`, otherwise it goes back into the heap. */
  method AdvanceOne(results: seq<IteratorResult>, ghost C: seq<seq<Record>>, ghost cs: seq<MergeData>,
                    ghost idx: map<MergeData, nat>, ghost cnt: seq<nat>, ghost cnt2: seq<nat>, ghost log: seq<Entry>,
                    heap0: seq<MergeData>, c: MergeData, ghost rest: seq<MergeData>, ret0: seq<IteratorResult>,
                    ghost owner0: seq<nat>)
      returns (heap: seq<MergeData>, ret: seq<IteratorResult>, ghost owner: seq<nat>)
    requires Indexed(C, cs, idx) && Containers(results, idx, log)
    requires HeapAt(C, idx, heap0, cnt2) && SameAt(C, idx, [c] + rest, cnt, cnt2, owner0)
    requires Placed(C, idx, heap0, [c] + rest, cnt2, owner0) && Returned(results, ret0, owner0, log)
    modifies c`iter, c`value, c`nextValue
    ensures HeapAt(C, idx, heap, cnt2) && SameAt(C, idx, rest, cnt, cnt2, owner)
    ensures Placed(C, idx, heap, rest, cnt2, owner) && Returned(results, ret, owner, log)
  {
    var stopped := StepCursor(C, idx, cnt, cnt2, heap0, c, rest, owner0);
    ghost var a := idx[c];
    if stopped {
      heap := heap0;
      ret := ret0 + [IteratorResult(c.address, c.container)];
      owner := owner0 + [a];
      PlacedExhausted(C, idx, heap0, c, rest, cnt2, owner0);
      ReturnedAppend(results, ret0, owner0, log, a);
    } else {
      heap := heap0 + [c];
      ret, owner := ret0, owner0;
      PlacedLive(C, idx, heap0, c, rest, cnt2, owner0);
      HeapGrow(C, idx, heap0, c, cnt2);
    }
  }

  /** Advances every cursor of `same`; an exhausted one hands its container to `ret`. */
  method AdvanceAll(results: seq<IteratorResult>, ghost C: seq<seq<Record>>, ghost cs: seq<MergeData>,
                    ghost idx: map<MergeData, nat>, ghost cnt: seq<nat>, ghost cnt2: seq<nat>, ghost log: seq<Entry>,
                    heap0: seq<MergeData>, same: seq<MergeData>, ret0: seq<IteratorResult>, ghost owner0: seq<nat>)
      returns (heap: seq<MergeData>, ret: seq<IteratorResult>, ghost owner: seq<nat>)
    requires Indexed(C, cs, idx) && Containers(results, idx, log)
    requires HeapAt(C, idx, heap0, cnt2) && SameAt(C, idx, same, cnt, cnt2, owner0)
    requires Placed(C, idx, heap0, same, cnt2, owner0) && Returned(results, ret0, owner0, log)
    requires C == Collapsed(results) && MergeState(C, cnt2, log)
    modifies same`iter, same`value, same`nextValue
    ensures Between(results, C, cs, idx, cnt2, log, heap, ret, owner)
  {
    heap, ret, owner := heap0, ret0, owner0;
    var p := 0;
    while p < |same|
      invariant 0 <= p <= |same|
      invariant HeapAt(C, idx, heap, cnt2) && SameAt(C, idx, same[p..], cnt, cnt2, owner)
      invariant Placed(C, idx, heap, same[p..], cnt2, owner) && Returned(results, ret, owner, log)
      invariant Containers(results, idx, log)
    {
      assert same[p..] == [same[p]] + same[p + 1..];
      heap, ret, owner := AdvanceOne(results, C, cs, idx, cnt, cnt2, log, heap, same[p], same[p + 1..], ret, owner);
      p := p + 1;
    }
  }

  /** The cursors of one round, seen as inputs: the popped minimum is a live head no other head beats, and `s` the live inputs with its key. */
  lemma RoundInputs(C: seq<seq<Record>>, cs: seq<MergeData>, idx: map<MergeData, nat>, cnt: seq<nat>, owner: seq<nat>,
                    heap0: seq<MergeData>, minData: MergeData, others: seq<MergeData>, heap2: seq<MergeData>, s: set<nat>)
    requires Indexed(C, cs, idx) && HeapAt(C, idx, heap0, cnt) && Placed(C, idx, heap0, [], cnt, owner)
    requires minData in heap0
    requires forall x :: x in heap0 ==> Le(minData.value.value, x.value.value)
    requires forall x :: x in heap0 && x != minData <==> x in others || x in heap2
    requires forall x :: x in others ==> x.value.value.key == minData.value.value.key
    requires forall x :: x in heap2 ==> x.value.value.key > minData.value.value.key
    requires s == set a | 0 <= a < |C| && cs[a] in [minData] + others
    ensures RoundChoice(C, cnt, idx[minData], s)
  {
    var w := idx[minData];
    assert Tracks(minData, C[w], cnt[w]);
    forall j | 0 <= j < |C| && cnt[j] < |C[j]|
      ensures cs[j] in heap0 && Le(C[w][cnt[w]], C[j][cnt[j]])
    {
      assert cs[j] in idx && cs[j] !in [];
      assert Tracks(cs[j], C[j], cnt[j]);
    }
    forall j ensures j in s <==> 0 <= j < |C| && cnt[j] < |C[j]| && C[j][cnt[j]].key == C[w][cnt[w]].key {
      if 0 <= j < |C| && cs[j] in [minData] + others {
        assert cs[j] in heap0;
        assert Tracks(cs[j], C[j], cnt[j]);
      }
      if 0 <= j < |C| && cnt[j] < |C[j]| && C[j][cnt[j]].key == C[w][cnt[w]].key {
        assert cs[j] in heap0 && Tracks(cs[j], C[j], cnt[j]);
        assert cs[j] !in heap2;
      }
    }
  }

  /** After the pops of a round, the cursors split into the rest of the heap and the ones due to advance. */
  lemma RoundSplit(C: seq<seq<Record>>, cs: seq<MergeData>, idx: map<MergeData, nat>, cnt: seq<nat>, owner: seq<nat>,
                   heap0: seq<MergeData>, minData: MergeData, others: seq<MergeData>, heap2: seq<MergeData>,
                   s: set<nat>, cnt2: seq<nat>)
    requires Indexed(C, cs, idx) && HeapAt(C, idx, heap0, cnt) && Placed(C, idx, heap0, [], cnt, owner)
    requires minData in heap0 && Distinct(others) && Distinct(heap2) && minData !in others
    requires forall x :: x in heap0 && x != minData <==> x in others || x in heap2
    requires forall x :: x in others ==> x !in heap2
    requires s == set a | 0 <= a < |C| && cs[a] in [minData] + others
    requires cnt2 == Advance(cnt, s)
    ensures HeapAt(C, idx, heap2, cnt2)
    ensures SameAt(C, idx, [minData] + others, cnt, cnt2, owner)
    ensures Placed(C, idx, heap2, [minData] + others, cnt2, owner)
  {
    var same := [minData] + others;
    forall x | x in heap2 ensures x in heap0 && x !in same && idx[x] !in s && cnt2[idx[x]] == cnt[idx[x]] {
      assert cs[idx[x]] == x;
    }
    forall x | x in same ensures x in heap0 && idx[x] in s && cnt2[idx[x]] == cnt[idx[x]] + 1 && idx[x] !in owner {
      assert cs[idx[x]] == x && x !in [];
    }
    assert Distinct(same) by {
      forall a, b | 0 <= a < b < |same| ensures same[a] != same[b] {
        if a == 0 { assert same[b] in others; }
        else { assert same[a] == others[a - 1] && same[b] == others[b - 1]; }
      }
    }
    forall x | x in idx && x !in same
      ensures cnt2[idx[x]] == cnt[idx[x]] && (x in heap0 <==> x in heap2)
    {
      assert cs[idx[x]] == x;
    }
  }

  /**
   * The pops of one round of `__merge__`: the cursor with the least head,
   * then every other cursor at the top of the heap whose head has the same key.
   */
  method PopRound(ghost C: seq<seq<Record>>, ghost cs: seq<MergeData>, ghost idx: map<MergeData, nat>, ghost cnt: seq<nat>,
                  heap0: seq<MergeData>, ghost owner0: seq<nat>)
      returns (same: seq<MergeData>, heap2: seq<MergeData>, ghost s: set<nat>)
    requires Indexed(C, cs, idx) && HeapAt(C, idx, heap0, cnt) && Placed(C, idx, heap0, [], cnt, owner0)
    requires |heap0| > 0
    ensures |same| > 0 && same[0] in idx && idx[same[0]] < |C| && idx[same[0]] !in owner0
    ensures RoundChoice(C, cnt, idx[same[0]], s)
    ensures same[0].value == Some(C[idx[same[0]]][cnt[idx[same[0]]]])
    ensures HeapAt(C, idx, heap2, Advance(cnt, s))
    ensures SameAt(C, idx, same, cnt, Advance(cnt, s), owner0)
    ensures Placed(C, idx, heap2, same, Advance(cnt, s), owner0)
  {
    var k := MinIndex(heap0);
    var minData := heap0[k];
    assert minData in heap0;
    forall x | x in heap0 ensures Le(minData.value.value, x.value.value) {
      var t :| 0 <= t < |heap0| && heap0[t] == x;
    }
    RemoveAt(heap0, k);
    var heap1 := heap0[..k] + heap0[k + 1..];
    var others;
    others, heap2 := PopSameKey(heap1, minData.value.value.key);
    same := [minData] + others;
    s := set a | 0 <= a < |C| && cs[a] in same;
    assert minData !in others;
    forall x ensures x in heap0 && x != minData <==> x in others || x in heap2 {
      assert x in heap1 <==> x in heap0 && x != minData;
    }
    RoundInputs(C, cs, idx, cnt, owner0, heap0, minData, others, heap2, s);
    RoundSplit(C, cs, idx, cnt, owner0, heap0, minData, others, heap2, s, Advance(cnt, s));
    assert Tracks(minData, C[idx[minData]], cnt[idx[minData]]);
  }

  /**
   * `min_data.container.append_rr(min_data.value)`: the popped value goes to
   * its own input's container; no cursor moves and `ret` is left as it is.
   */
  method AppendValue(results: seq<IteratorResult>, ghost C: seq<seq<Record>>, ghost cs: seq<MergeData>,
                     ghost idx: map<MergeData, nat>, ghost cnt: seq<nat>, ghost cnt2: seq<nat>, ghost log0: seq<Entry>,
                     heap: seq<MergeData>, same: seq<MergeData>, minData: MergeData, ret: seq<IteratorResult>,
                     ghost owner: seq<nat>)
    requires Indexed(C, cs, idx) && Containers(results, idx, log0)
    requires HeapAt(C, idx, heap, cnt2) && SameAt(C, idx, same, cnt, cnt2, owner) && Returned(results, ret, owner, log0)
    requires minData in same && minData in idx && idx[minData] < |C| && cnt[idx[minData]] < |C[idx[minData]]|
    requires minData.value == Some(C[idx[minData]][cnt[idx[minData]]])
    modifies minData`container
    ensures Containers(results, idx, log0 + [Entry(idx[minData], C[idx[minData]][cnt[idx[minData]]])])
    ensures HeapAt(C, idx, heap, cnt2) && SameAt(C, idx, same, cnt, cnt2, owner)
    ensures Returned(results, ret, owner, log0 + [Entry(idx[minData], C[idx[minData]][cnt[idx[minData]]])])
  {
    ghost var w := idx[minData];
    ghost var e := Entry(w, C[w][cnt[w]]);
    assert w !in owner by { assert minData in same; }
    minData.container := minData.container + [minData.value.value];
    ProjectSnoc(log0, e);
    forall x | x in idx
      ensures idx[x] < |results| && x.address == results[idx[x]].address && x.container == Project(log0 + [e], idx[x])
    {
      if x != minData {
        assert idx[x] != w by { assert cs[idx[x]] == x && cs[w] == minData; }
      }
    }
    ReturnedSnoc(results, ret, owner, log0, e);
  }

  /** An append to the container of an input that has not handed it in leaves `ret` as it is. */
  lemma ReturnedSnoc(results: seq<IteratorResult>, ret: seq<IteratorResult>, owner: seq<nat>, log: seq<Entry>, e: Entry)
    requires Returned(results, ret, owner, log) && e.source !in owner
    ensures Returned(results, ret, owner, log + [e])
  {
    ProjectSnoc(log, e);
    forall t | 0 <= t < |owner| ensures Project(log + [e], owner[t]) == Project(log, owner[t]) {
      assert owner[t] != e.source;
    }
  }

  /** One round of `__merge__`: pop the minimum, append its value, pop and advance every cursor with its key. */
  method MergeRound(results: seq<IteratorResult>, ghost C: seq<seq<Record>>, ghost cs: seq<MergeData>,
                    ghost idx: map<MergeData, nat>, ghost cnt: seq<nat>, ghost log0: seq<Entry>,
                    heap0: seq<MergeData>, ret0: seq<IteratorResult>, ghost owner0: seq<nat>)
      returns (heap: seq<MergeData>, ret: seq<IteratorResult>, ghost cnt2: seq<nat>, ghost owner: seq<nat>, ghost log: seq<Entry>)
    requires Between(results, C, cs, idx, cnt, log0, heap0, ret0, owner0)
    requires |heap0| > 0
    modifies idx.Keys
    ensures Between(results, C, cs, idx, cnt2, log, heap, ret, owner)
    ensures Remaining(C, cnt2) < Remaining(C, cnt)
  {
    var same, heap2;
    ghost var s;
    same, heap2, s := PopRound(C, cs, idx, cnt, heap0, owner0);
    cnt2 := Advance(cnt, s);
    ghost var w := idx[same[0]];
    StepKeeps(C, cnt, log0, w, s);
    log := log0 + [Entry(w, C[w][cnt[w]])];
    AppendValue(results, C, cs, idx, cnt, cnt2, log0, heap2, same, same[0], ret0, owner0);
    heap, ret, owner := AdvanceAll(results, C, cs, idx, cnt, cnt2, log, heap2, same, ret0, owner0);
  }

  /** When no cursor is left, the merge state is a complete merge of the inputs. */
  lemma FinishedIsMerge(results: seq<IteratorResult>, C: seq<seq<Record>>, cs: seq<MergeData>, idx: map<MergeData, nat>,
                        cnt: seq<nat>, log: seq<Entry>, ret: seq<IteratorResult>, owner: seq<nat>)
    requires forall i :: 0 <= i < |results| ==> SortedByKey(results[i].records)
    requires C == Collapsed(results) && Indexed(C, cs, idx)
    requires Placed(C, idx, [], [], cnt, owner) && Returned(results, ret, owner, log) && MergeState(C, cnt, log)
    ensures IsMergeOf(results, ret, owner, log)
  {
    forall i | 0 <= i < |results| ensures cnt[i] == |C[i]| && (i in owner <==> results[i].records != []) {
      assert cs[i] in idx && idx[cs[i]] == i;
      CollapseFromStream(results[i].records);
    }
    forall e | e in log ensures e.source < |results| && e.rec in Collapse(results[e.source].records) {
      assert e.rec in C[e.source][..cnt[e.source]];
      assert C[e.source][..cnt[e.source]] == C[e.source];
    }
    DoneCoversAll(results, cnt, log);
  }

  /**
   * `IteratorResult.__merge__`: builds one cursor per input, then runs merge
   * rounds until no cursor is left; each container reaches `ret` when its
   * cursor runs out.
   */
  method MergeStreams(results: seq<IteratorResult>) returns (ret: seq<IteratorResult>, ghost owner: seq<nat>, ghost log: seq<Entry>)
    requires forall i :: 0 <= i < |results| ==> SortedByKey(results[i].records)
    ensures IsMergeOf(results, ret, owner, log)
  {
    ghost var C := Collapsed(results);
    forall i | 0 <= i < |results| ensures StrictlyIncreasing(C[i]) {
      CollapseKeys(results[i].records);
    }
    var heap;
    ghost var cs, idx, cnt;
    heap, cs, idx, cnt := MakeCursors(results, C);
    ret, owner, log := [], [], [];
    while |heap| > 0
      invariant forall x :: x in idx ==> fresh(x)
      invariant Between(results, C, cs, idx, cnt, log, heap, ret, owner)
      decreases Remaining(C, cnt)
    {
      heap, ret, cnt, owner, log := MergeRound(results, C, cs, idx, cnt, log, heap, ret, owner);
    }
    FinishedIsMerge(results, C, cs, idx, cnt, log, ret, owner);
  }

  /** `[d for d in results if d and len(d) != 0]`: the results present and non-empty, in order. */
  function Live(results: seq<Option<IteratorResult>>): (live: seq<IteratorResult>)
    ensures |live| <= |results|
    ensures forall r :: r in live <==> Some(r) in results && r.records != []
    decreases |results|
  {
    if results == [] then []
    else
      var rest := Live(results[1..]);
      assert forall d :: d in results <==> d == results[0] || d in results[1..];
      if results[0].Some? && results[0].value.records != [] then [results[0].value] + rest else rest
  }

  /**
   * `IteratorResult.merge`: no result when nothing is left to merge, a copy of
   * the only non-empty result when there is one, and the merge of all of them
   * otherwise.
   */
  method Merge(results: seq<Option<IteratorResult>>) returns (merged: Option<seq<IteratorResult>>)
    requires forall d :: d in results && d.Some? ==> SortedByKey(d.value.records)
    ensures merged.None? <==> Live(results) == []
    ensures |Live(results)| == 1 ==> merged == Some(Live(results))
    ensures |Live(results)| > 1 ==> merged.Some? && exists owner, log :: IsMergeOf(Live(results), merged.value, owner, log)
  {
    var live := Live(results);
    if |live| == 1 {
      return Some(live);
    } else if |live| != 0 {
      forall i | 0 <= i < |live| ensures SortedByKey(live[i].records) {
        assert live[i] in live;
      }
      var ret, owner, log := MergeStreams(live);
      return Some(ret);
    }
    return None;
  }
}
