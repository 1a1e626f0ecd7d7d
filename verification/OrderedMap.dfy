/**
 * A JavaScript Map as the sequence of its entries in insertion order: setting a
 * present key keeps its place, a new key goes last, and iteration starts at the
 * oldest entry.
 */
module OrderedMap {

  ghost predicate Distinct<K, V>(m: seq<(K, V)>) {
    forall i, j | 0 <= i < j < |m| :: m[i].0 != m[j].0
  }

  /** The position of key k, or -1. */
  function Find<K(==), V>(m: seq<(K, V)>, k: K): (i: int)
    ensures -1 <= i < |m|
    ensures i >= 0 ==> m[i].0 == k
    ensures i < 0 ==> forall j | 0 <= j < |m| :: m[j].0 != k
  {
    if |m| == 0 then -1
    else if m[|m| - 1].0 == k then |m| - 1
    else Find(m[..|m| - 1], k)
  }

  predicate Has<K(==), V>(m: seq<(K, V)>, k: K) {
    Find(m, k) >= 0
  }

  function Get<K(==), V>(m: seq<(K, V)>, k: K): V
    requires Has(m, k)
  {
    m[Find(m, k)].1
  }

  function Set<K(==), V>(m: seq<(K, V)>, k: K, v: V): (r: seq<(K, V)>)
    ensures Distinct(m) ==> Distinct(r)
    ensures !Has(m, k) ==> r == m + [(k, v)]
    ensures |m| <= |r| <= |m| + 1
    ensures forall e | e in r :: e in m || e == (k, v)
  {
    var i := Find(m, k);
    if i >= 0 then m[i := (k, v)] else m + [(k, v)]
  }

  function Delete<K(==), V>(m: seq<(K, V)>, k: K): (r: seq<(K, V)>)
    ensures Distinct(m) ==> Distinct(r)
    ensures Has(m, k) ==> |r| == |m| - 1
    ensures forall e | e in r :: e in m
  {
    var i := Find(m, k);
    if i >= 0 then m[..i] + m[i + 1..] else m
  }

  /** What is left after dropping the oldest entries until at most cap remain. */
  function Newest<K, V>(m: seq<(K, V)>, cap: nat): (r: seq<(K, V)>)
    ensures Distinct(m) ==> Distinct(r)
    ensures |r| <= cap
    ensures forall e | e in r :: e in m
  {
    if |m| > cap then m[|m| - cap..] else m
  }
}
