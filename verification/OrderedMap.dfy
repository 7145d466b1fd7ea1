/** A JavaScript `Map` (or plain object) as the list of its entries in insertion order.
    Re-setting a present key keeps its place; a new key goes last. */
module OrderedMap {
  datatype Option<+T> = None | Some(value: T) {
    function GetOr(default: T): T {
      if Some? then value else default
    }
  }

  ghost predicate Distinct<K, V>(m: seq<(K, V)>) {
    forall i, j :: 0 <= i < j < |m| ==> m[i].0 != m[j].0
  }

  /** The position of key `k`, or `|m|` when it is absent. */
  function Find<K(==), V>(m: seq<(K, V)>, k: K): (i: nat)
    ensures i <= |m|
    ensures i < |m| ==> m[i].0 == k
    ensures forall j :: 0 <= j < i ==> m[j].0 != k
  {
    if m == [] then 0 else if m[0].0 == k then 0 else 1 + Find(m[1..], k)
  }

  predicate Has<K(==), V>(m: seq<(K, V)>, k: K) {
    Find(m, k) < |m|
  }

  function Get<K(==), V>(m: seq<(K, V)>, k: K): Option<V> {
    var i := Find(m, k);
    if i < |m| then Some(m[i].1) else None
  }

  function Set<K(==), V>(m: seq<(K, V)>, k: K, v: V): (r: seq<(K, V)>)
    ensures Distinct(m) ==> Distinct(r)
    ensures |r| == if Has(m, k) then |m| else |m| + 1
  {
    var i := Find(m, k);
    if i < |m| then m[i := (k, v)] else m + [(k, v)]
  }

  function Delete<K(==), V>(m: seq<(K, V)>, k: K): (r: seq<(K, V)>)
    ensures Distinct(m) ==> Distinct(r)
    ensures |r| == if Has(m, k) then |m| - 1 else |m|
  {
    var i := Find(m, k);
    if i < |m| then m[..i] + m[i + 1..] else m
  }

  /** Where an entry sits is where `Find` says its key is. */
  lemma FindAt<K, V>(m: seq<(K, V)>, i: nat)
    requires Distinct(m) && i < |m|
    ensures Find(m, m[i].0) == i
  {
  }

  /** Reading after writing, and what a write leaves alone. */
  lemma GetSet<K, V>(m: seq<(K, V)>, k: K, v: V, q: K)
    ensures Get(Set(m, k, v), q) == if q == k then Some(v) else Get(m, q)
  {
    var i, r := Find(m, k), Set(m, k, v);
    assert r[i] == (k, v);
    FindUnique(r, k, i);
    if q != k {
      var j := Find(m, q);
      if j < |m| {
        FindUnique(r, q, j);
      } else {
        FindAbsent(r, q);
      }
    }
  }

  /** Reading after deleting. */
  lemma GetDelete<K, V>(m: seq<(K, V)>, k: K, q: K)
    requires Distinct(m)
    ensures Get(Delete(m, k), q) == if q == k then None else Get(m, q)
  {
    var i, r := Find(m, k), Delete(m, k);
    var j := Find(m, q);
    if q == k || j == |m| {
      FindAbsent(r, q);
    } else if i < |m| {
      FindUnique(r, q, if j < i then j else j - 1);
    }
  }

  lemma FindUnique<K, V>(m: seq<(K, V)>, k: K, i: nat)
    requires i < |m| && m[i].0 == k && forall j :: 0 <= j < i ==> m[j].0 != k
    ensures Find(m, k) == i
  {
  }

  lemma FindAbsent<K, V>(m: seq<(K, V)>, k: K)
    requires forall j :: 0 <= j < |m| ==> m[j].0 != k
    ensures Find(m, k) == |m|
  {
  }
}
