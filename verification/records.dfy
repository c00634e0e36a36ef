/** Records exchanged by the recovery iterator and the order `MergeData.__cmp__` puts on them. */
module Records {

  /** A key: a fixed-width identifier compared as an unsigned number. */
  type Key = nat

  /** The node a stream of records belongs to. */
  type Address = nat

  /** A timestamp: seconds and nanoseconds, compared as a pair. */
  datatype Time = Time(tsec: nat, tnsec: nat)

  /** One metadata record of an iterator result container. */
  datatype Record = Record(key: Key, timestamp: Time, size: nat, userFlags: nat)

  /** `a` is strictly older than `b` (lexicographic order on the pair). */
  predicate Older(a: Time, b: Time)
  {
    a.tsec < b.tsec || (a.tsec == b.tsec && a.tnsec < b.tnsec)
  }

  /** Python 2 `cmp` on numbers: -1, 0 or 1. */
  function CmpNat(a: nat, b: nat): (c: int)
    ensures c == -1 <==> a < b
    ensures c == 1 <==> a > b
    ensures c == 0 <==> a == b
  {
    if a < b then -1 else if a > b then 1 else 0
  }

  /** Python 2 `cmp` on timestamps. */
  function CmpTime(a: Time, b: Time): (c: int)
    ensures c == -1 <==> Older(a, b)
    ensures c == 1 <==> Older(b, a)
    ensures c == 0 <==> a == b
  {
    var c := CmpNat(a.tsec, b.tsec);
    if c != 0 then c else CmpNat(a.tnsec, b.tnsec)
  }

  /**
   * The merge order: key ascending, then timestamp descending (newer first),
   * then size ascending.
   */
  function Cmp(a: Record, b: Record): (c: int)
    ensures -1 <= c <= 1
    ensures c < 0 <==>
      || a.key < b.key
      || (a.key == b.key && Older(b.timestamp, a.timestamp))
      || (a.key == b.key && a.timestamp == b.timestamp && a.size < b.size)
    ensures c == 0 <==> a.key == b.key && a.timestamp == b.timestamp && a.size == b.size
  {
    var byKey := CmpNat(a.key, b.key);
    if byKey != 0 then byKey
    else
      var byTime := CmpTime(b.timestamp, a.timestamp);
      if byTime != 0 then byTime else CmpNat(a.size, b.size)
  }

  /** `a` comes no later than `b` in the merge order. */
  predicate Le(a: Record, b: Record)
  {
    Cmp(a, b) <= 0
  }

  /** The order is decided by key first: a smaller key always comes first. */
  lemma CmpKeyFirst(a: Record, b: Record)
    ensures a.key < b.key ==> Cmp(a, b) == -1
    ensures Cmp(a, b) <= 0 ==> a.key <= b.key
  {
  }

  /** On equal keys the newer record comes first, and on equal timestamps the smaller one. */
  lemma CmpSameKey(a: Record, b: Record)
    requires a.key == b.key
    ensures Older(b.timestamp, a.timestamp) ==> Cmp(a, b) == -1
    ensures a.timestamp == b.timestamp && a.size < b.size ==> Cmp(a, b) == -1
    ensures Cmp(a, b) <= 0 ==> !Older(a.timestamp, b.timestamp)
  {
  }

  /** `Cmp` is antisymmetric and zero only on records with equal key, timestamp and size. */
  lemma CmpAntisymmetric(a: Record, b: Record)
    ensures Cmp(a, b) == -Cmp(b, a)
    ensures Cmp(a, b) == 0 <==> (a.key == b.key && a.timestamp == b.timestamp && a.size == b.size)
  {
  }

  /** `Le` is a total preorder: reflexive, total and transitive. */
  lemma LeTotalPreorder(a: Record, b: Record, c: Record)
    ensures Le(a, a)
    ensures Le(a, b) || Le(b, a)
    ensures Le(a, b) && Le(b, c) ==> Le(a, c)
  {
  }
}
