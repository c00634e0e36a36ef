/**
 * What the output of `IteratorResult.__merge__` means for recovery: every key
 * of every node's diff ends up in exactly one output container, in the
 * container of a node that had it, carrying a record that no other node holds
 * a newer version of.
 */
module MergeProperties {
  import opened Records
  import opened MergeCursor
  import opened Merging

  /** A container holds exactly the records of the appends made to it. */
  lemma {:induction false} ProjectMembers(log: seq<Entry>, i: nat)
    ensures forall r :: r in Project(log, i) <==> Entry(i, r) in log
    decreases |log|
  {
    if log != [] {
      var init := log[..|log| - 1];
      ProjectMembers(init, i);
      assert log == init + [log[|log| - 1]];
      assert forall e :: e in log <==> e in init || e == log[|log| - 1];
    }
  }

  /** Appends in increasing key order fill every container in increasing key order. */
  lemma {:induction false} ProjectIncreasing(log: seq<Entry>, i: nat)
    requires LogIncreasing(log)
    ensures StrictlyIncreasing(Project(log, i))
    decreases |log|
  {
    if log != [] {
      var init := log[..|log| - 1];
      var last := log[|log| - 1];
      assert LogIncreasing(init);
      ProjectIncreasing(init, i);
      ProjectMembers(init, i);
      if last.source == i {
        var p := Project(init, i);
        var q := p + [last.rec];
        forall a, b | 0 <= a < b < |q| ensures q[a].key < q[b].key {
          if b == |p| {
            assert q[a] in p && Entry(i, q[a]) in init;
            var k :| 0 <= k < |init| && init[k] == Entry(i, q[a]);
            assert log[k] == init[k];
          }
        }
      }
    }
  }

  /** Two appends of the same key are the same append. */
  lemma SameKeySameEntry(log: seq<Entry>, e: Entry, f: Entry)
    requires LogIncreasing(log) && e in log && f in log && e.rec.key == f.rec.key
    ensures e == f
  {
    var a :| 0 <= a < |log| && log[a] == e;
    var b :| 0 <= b < |log| && log[b] == f;
    assert a == b;
  }

  /** Every output record is a record of the input whose container it is in. */
  lemma MergeFromOwnInput(results: seq<IteratorResult>, ret: seq<IteratorResult>, owner: seq<nat>, log: seq<Entry>)
    requires IsMergeOf(results, ret, owner, log)
    ensures forall t, r :: 0 <= t < |ret| && r in ret[t].records ==>
      ret[t].address == results[owner[t]].address && r in results[owner[t]].records
  {
    forall t, r | 0 <= t < |ret| && r in ret[t].records
      ensures ret[t].address == results[owner[t]].address && r in results[owner[t]].records
    {
      ProjectMembers(log, owner[t]);
      assert Entry(owner[t], r) in log;
      CollapseFromStream(results[owner[t]].records);
    }
  }

  /** Every key present in some input reaches an output container. */
  lemma MergeCoversKey(results: seq<IteratorResult>, ret: seq<IteratorResult>, owner: seq<nat>, log: seq<Entry>,
                       j: nat, x: Record)
    requires IsMergeOf(results, ret, owner, log)
    requires j < |results| && x in results[j].records
    ensures exists t, m :: 0 <= t < |ret| && 0 <= m < |ret[t].records| && ret[t].records[m].key == x.key
  {
    assert x.key in LogKeys(log);
    var e :| e in log && e.rec.key == x.key;
    var i := e.source;
    CollapseFromStream(results[i].records);
    assert results[i].records != [];
    var t :| 0 <= t < |owner| && owner[t] == i;
    ProjectMembers(log, i);
    assert e == Entry(i, e.rec);
    var m :| 0 <= m < |ret[t].records| && ret[t].records[m] == e.rec;
  }

  /** No key appears twice in the output: not in two containers, not twice in one. */
  lemma MergeKeysUnique(results: seq<IteratorResult>, ret: seq<IteratorResult>, owner: seq<nat>, log: seq<Entry>)
    requires IsMergeOf(results, ret, owner, log)
    ensures forall t, m, u, n ::
      (0 <= t < |ret| && 0 <= m < |ret[t].records| && 0 <= u < |ret| && 0 <= n < |ret[u].records| &&
       ret[t].records[m].key == ret[u].records[n].key) ==> t == u && m == n
  {
    forall t, m, u, n | 0 <= t < |ret| && 0 <= m < |ret[t].records| && 0 <= u < |ret| && 0 <= n < |ret[u].records|
      && ret[t].records[m].key == ret[u].records[n].key
      ensures t == u && m == n
    {
      var r, q := ret[t].records[m], ret[u].records[n];
      ProjectMembers(log, owner[t]);
      ProjectMembers(log, owner[u]);
      assert r in Project(log, owner[t]) && q in Project(log, owner[u]);
      SameKeySameEntry(log, Entry(owner[t], r), Entry(owner[u], q));
      assert owner[t] == owner[u];
      ProjectIncreasing(log, owner[t]);
    }
  }

  /**
   * The record kept for a key is at least as new as every record any input
   * holds for that key.
   */
  lemma MergeKeepsNewest(results: seq<IteratorResult>, ret: seq<IteratorResult>, owner: seq<nat>, log: seq<Entry>)
    requires forall i :: 0 <= i < |results| ==> SortedByKey(results[i].records)
    requires IsMergeOf(results, ret, owner, log)
    ensures forall t, r, j, x ::
      (0 <= t < |ret| && r in ret[t].records && 0 <= j < |results| && x in results[j].records && x.key == r.key) ==>
      !Older(r.timestamp, x.timestamp)
  {
    forall t, r, j, x | 0 <= t < |ret| && r in ret[t].records && 0 <= j < |results| &&
      x in results[j].records && x.key == r.key
      ensures !Older(r.timestamp, x.timestamp)
    {
      ProjectMembers(log, owner[t]);
      var e := Entry(owner[t], r);
      assert e in log;
      CollapseCovers(results[j].records, x);
      var y :| y in Collapse(results[j].records) && y.key == x.key;
      assert Le(r, y);
      CollapseNewest(results[j].records, y, x);
    }
  }

  /** Among the records of one key, the one kept also wins the merge order: the same size breaks a tie in timestamps. */
  lemma MergeKeepsLeast(results: seq<IteratorResult>, ret: seq<IteratorResult>, owner: seq<nat>, log: seq<Entry>)
    requires IsMergeOf(results, ret, owner, log)
    ensures forall t, r, j, y ::
      (0 <= t < |ret| && r in ret[t].records && 0 <= j < |results| && y in Collapse(results[j].records) &&
       y.key == r.key) ==> Le(r, y)
  {
    forall t, r, j, y | 0 <= t < |ret| && r in ret[t].records && 0 <= j < |results| &&
      y in Collapse(results[j].records) && y.key == r.key
      ensures Le(r, y)
    {
      ProjectMembers(log, owner[t]);
      assert Entry(owner[t], r) in log;
    }
  }

  /** Every output container is sorted by key with no key twice. */
  lemma MergeContainersIncreasing(results: seq<IteratorResult>, ret: seq<IteratorResult>, owner: seq<nat>, log: seq<Entry>)
    requires IsMergeOf(results, ret, owner, log)
    ensures forall t :: 0 <= t < |ret| ==> StrictlyIncreasing(ret[t].records)
  {
    forall t | 0 <= t < |ret| ensures StrictlyIncreasing(ret[t].records) {
      ProjectIncreasing(log, owner[t]);
    }
  }
}
