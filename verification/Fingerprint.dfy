/** Reordering body fields and headers to look like a given client. */
module Fingerprint {
  import opened OrderedMap

  type Fields<V> = seq<(string, V)>

  function Keys<V>(m: Fields<V>): (r: seq<string>)
    ensures |r| == |m| && forall i :: 0 <= i < |r| ==> r[i] == m[i].0
  {
    seq(|m|, i requires 0 <= i < |m| => m[i].0)
  }

  // ---------------------------------------------------------------- specification: fields

  /** The listed keys that are present, each at its first mention. */
  function Picked(order: seq<string>, keys: seq<string>): seq<string> {
    if order == [] then []
    else
      var earlier, k := Picked(order[..|order| - 1], keys), order[|order| - 1];
      if k in keys && k !in earlier then earlier + [k] else earlier
  }

  /** The keys that are not listed, in their own order. */
  function Unlisted(keys: seq<string>, order: seq<string>): seq<string> {
    if keys == [] then []
    else Unlisted(keys[..|keys| - 1], order) + if keys[|keys| - 1] in order then [] else [keys[|keys| - 1]]
  }

  function OrderedKeys(keys: seq<string>, order: seq<string>): seq<string> {
    Picked(order, keys) + Unlisted(keys, order)
  }

  /** `r` holds what `m` holds, under the keys `keys` in that order. */
  ghost predicate Rearranges<V>(r: Fields<V>, m: Fields<V>, keys: seq<string>) {
    Distinct(r) && Keys(r) == keys && forall k :: Get(r, k) == Get(m, k)
  }

  ghost predicate NoRepeats(s: seq<string>) {
    forall i, j :: 0 <= i < j < |s| ==> s[i] != s[j]
  }

  lemma {:induction false} PickedFacts(order: seq<string>, keys: seq<string>)
    ensures NoRepeats(Picked(order, keys))
    ensures forall k :: k in Picked(order, keys) <==> k in order && k in keys
  {
    if order != [] {
      PickedFacts(order[..|order| - 1], keys);
      assert order == order[..|order| - 1] + [order[|order| - 1]];
    }
  }

  lemma {:induction false} UnlistedFacts(keys: seq<string>, order: seq<string>)
    ensures NoRepeats(keys) ==> NoRepeats(Unlisted(keys, order))
    ensures forall k :: k in Unlisted(keys, order) <==> k in keys && k !in order
  {
    if keys != [] {
      UnlistedFacts(keys[..|keys| - 1], order);
      assert keys == keys[..|keys| - 1] + [keys[|keys| - 1]];
    }
  }

  lemma NoRepeatsPlus(a: seq<string>, b: seq<string>)
    requires NoRepeats(a) && NoRepeats(b) && forall x :: x in a ==> x !in b
    ensures NoRepeats(a + b)
  {
    forall i, j | 0 <= i < j < |a + b| ensures (a + b)[i] != (a + b)[j] {
      if i < |a| <= j {
        assert a[i] in a && b[j - |a|] in b;
      }
    }
  }

  /** The new order has the same keys, once each. */
  lemma OrderedKeysFacts(keys: seq<string>, order: seq<string>)
    requires NoRepeats(keys)
    ensures NoRepeats(OrderedKeys(keys, order))
    ensures forall k :: k in OrderedKeys(keys, order) <==> k in keys
  {
    PickedFacts(order, keys);
    UnlistedFacts(keys, order);
    NoRepeatsPlus(Picked(order, keys), Unlisted(keys, order));
  }

  lemma {:induction false} PickedSame(order: seq<string>, a: seq<string>, b: seq<string>)
    requires forall k :: k in a <==> k in b
    ensures Picked(order, a) == Picked(order, b)
  {
    if order != [] {
      PickedSame(order[..|order| - 1], a, b);
    }
  }

  lemma {:induction false} UnlistedPlus(a: seq<string>, b: seq<string>, order: seq<string>)
    ensures Unlisted(a + b, order) == Unlisted(a, order) + Unlisted(b, order)
  {
    if b == [] {
      assert a + b == a;
    } else {
      UnlistedPlus(a, b[..|b| - 1], order);
      assert (a + b)[..|a + b| - 1] == a + b[..|b| - 1];
    }
  }

  lemma {:induction false} UnlistedOfListed(keys: seq<string>, order: seq<string>)
    ensures (forall i :: 0 <= i < |keys| ==> keys[i] in order) ==> Unlisted(keys, order) == []
    ensures (forall i :: 0 <= i < |keys| ==> keys[i] !in order) ==> Unlisted(keys, order) == keys
  {
    if keys != [] {
      UnlistedOfListed(keys[..|keys| - 1], order);
      assert keys == keys[..|keys| - 1] + [keys[|keys| - 1]];
    }
  }

  lemma UnlistedOfOrdered(keys: seq<string>, order: seq<string>)
    ensures Unlisted(OrderedKeys(keys, order), order) == Unlisted(keys, order)
  {
    var p, u := Picked(order, keys), Unlisted(keys, order);
    PickedFacts(order, keys);
    UnlistedFacts(keys, order);
    assert forall i :: 0 <= i < |p| ==> p[i] in p;
    assert forall i :: 0 <= i < |u| ==> u[i] in u;
    UnlistedPlus(p, u, order);
    UnlistedOfListed(p, order);
    UnlistedOfListed(u, order);
  }

  lemma OrderedKeysFixed(keys: seq<string>, order: seq<string>)
    requires NoRepeats(keys)
    ensures OrderedKeys(OrderedKeys(keys, order), order) == OrderedKeys(keys, order)
  {
    OrderedKeysFacts(keys, order);
    PickedSame(order, OrderedKeys(keys, order), keys);
    UnlistedOfOrdered(keys, order);
  }

  /** The first place of a key, or the length. */
  function Place(s: seq<string>, k: string): (i: nat)
    ensures i <= |s| && (i < |s| ==> s[i] == k) && forall j :: 0 <= j < i ==> s[j] != k
  {
    if s == [] || s[0] == k then 0 else 1 + Place(s[1..], k)
  }

  lemma PlaceSnoc(init: seq<string>, last: string, k: string)
    ensures Place(init + [last], k)
         == if Place(init, k) < |init| then Place(init, k) else if k == last then |init| else |init| + 1
  {
    var s := init + [last];
    assert s[|init|] == last && forall j :: 0 <= j < |init| ==> s[j] == init[j];
  }

  ghost predicate Ascending(part: seq<string>, whole: seq<string>) {
    forall i, j :: 0 <= i < j < |part| ==> Place(whole, part[i]) < Place(whole, part[j])
  }

  lemma {:induction false} PickedAscends(order: seq<string>, keys: seq<string>)
    ensures Ascending(Picked(order, keys), order)
  {
    if order != [] {
      var init, k := order[..|order| - 1], order[|order| - 1];
      PickedAscends(init, keys);
      PickedFacts(init, keys);
      assert order == init + [k];
      PickedAscendsNext(Picked(init, keys), init, k, keys);
    }
  }

  lemma PickedAscendsNext(p: seq<string>, init: seq<string>, k: string, keys: seq<string>)
    requires Ascending(p, init) && forall x :: x in p <==> x in init && x in keys
    ensures Ascending(p, init + [k])
    ensures k in keys && k !in p ==> Ascending(p + [k], init + [k])
  {
    forall i | 0 <= i < |p| ensures Place(init + [k], p[i]) == Place(init, p[i]) < |init| {
      assert p[i] in p;
      PlaceSnoc(init, k, p[i]);
    }
    PlaceSnoc(init, k, k);
  }

  lemma {:induction false} UnlistedAscends(keys: seq<string>, order: seq<string>)
    requires NoRepeats(keys)
    ensures Ascending(Unlisted(keys, order), keys)
  {
    if keys != [] {
      var init, k := keys[..|keys| - 1], keys[|keys| - 1];
      UnlistedAscends(init, order);
      UnlistedFacts(init, order);
      assert keys == init + [k];
      UnlistedAscendsNext(Unlisted(init, order), init, k);
    }
  }

  lemma UnlistedAscendsNext(u: seq<string>, init: seq<string>, k: string)
    requires Ascending(u, init) && k !in init && forall x :: x in u ==> x in init
    ensures Ascending(u, init + [k]) && Ascending(u + [k], init + [k])
  {
    forall i | 0 <= i < |u| ensures Place(init + [k], u[i]) == Place(init, u[i]) < |init| {
      assert u[i] in u;
      PlaceSnoc(init, k, u[i]);
    }
    PlaceSnoc(init, k, k);
  }

  /** `a` goes before `b`: by its place in the list, and behind the list by its own. */
  predicate Before(a: string, b: string, keys: seq<string>, order: seq<string>) {
    || Place(order, a) < Place(order, b)
    || (Place(order, a) == Place(order, b) == |order| && Place(keys, a) < Place(keys, b))
  }

  /** Of any two keys, the one mentioned first in the list goes first; unlisted ones go behind, as they were. */
  lemma OrderedKeysExactly(keys: seq<string>, order: seq<string>, i: nat, j: nat)
    requires NoRepeats(keys) && i < j < |OrderedKeys(keys, order)|
    ensures Before(OrderedKeys(keys, order)[i], OrderedKeys(keys, order)[j], keys, order)
  {
    var p, u := Picked(order, keys), Unlisted(keys, order);
    PickedFacts(order, keys);
    UnlistedFacts(keys, order);
    PickedAscends(order, keys);
    UnlistedAscends(keys, order);
    if i < |p| {
      assert p[i] in p;
    } else {
      assert u[i - |p|] in u;
    }
    if j >= |p| {
      assert u[j - |p|] in u;
    }
  }

  /** Keys and values determine the fields. */
  lemma RearrangementUnique<V>(a: Fields<V>, b: Fields<V>, m: Fields<V>, keys: seq<string>)
    requires Rearranges(a, m, keys) && Rearranges(b, m, keys)
    ensures a == b
  {
    forall i | 0 <= i < |a| ensures a[i] == b[i] {
      assert Keys(a)[i] == Keys(b)[i];
      FindAt(a, i);
      FindAt(b, i);
      assert Get(a, a[i].0) == Get(b, b[i].0);
    }
  }

  // ---------------------------------------------------------------- reordering fields

  lemma GetIsIn<V>(m: Fields<V>, k: string)
    ensures Get(m, k).Some? <==> k in Keys(m)
    ensures Has(m, k) <==> k in Keys(m)
  {
    if Has(m, k) {
      assert Keys(m)[Find(m, k)] == k;
    }
  }

  /** Setting a key that is not there puts it last. */
  lemma SetNew<V>(m: Fields<V>, k: string, v: V)
    requires k !in Keys(m)
    ensures Keys(Set(m, k, v)) == Keys(m) + [k]
  {
    GetIsIn(m, k);
  }

  function Dropped(keys: seq<string>, k: string): seq<string> {
    Unlisted(keys, [k])
  }

  lemma {:induction false} UnlistedSnoc(keys: seq<string>, order: seq<string>, k: string)
    ensures Unlisted(keys, order + [k]) == Dropped(Unlisted(keys, order), k)
  {
    if keys != [] {
      var init, last := keys[..|keys| - 1], keys[|keys| - 1];
      UnlistedSnoc(init, order, k);
      var u := Unlisted(init, order);
      if last !in order {
        assert (u + [last])[..|u + [last]| - 1] == u;
      } else {
        assert u + [] == u && Dropped(u, k) + [] == Dropped(u, k);
      }
    }
  }

  /** One more field of `obj` copied behind those already placed. */
  ghost predicate Placing<V>(r: Fields<V>, obj: Fields<V>, keys: seq<string>) {
    Distinct(r) && Keys(r) == keys && forall k :: k in keys ==> Get(r, k) == Get(obj, k)
  }

  lemma PlaceNext<V>(r: Fields<V>, obj: Fields<V>, keys: seq<string>, k: string, v: V)
    requires Placing(r, obj, keys) && k !in keys && Get(obj, k) == Some(v)
    ensures Placing(Set(r, k, v), obj, keys + [k])
  {
    SetNew(r, k, v);
    forall q | q in keys + [k] ensures Get(Set(r, k, v), q) == Get(obj, q) {
      GetSet(r, k, v, q);
    }
  }

  lemma PlaceAgain<V>(r: Fields<V>, obj: Fields<V>, keys: seq<string>, k: string, v: V)
    requires Placing(r, obj, keys) && k in keys && Get(obj, k) == Some(v)
    ensures Set(r, k, v) == r
  {
    GetIsIn(r, k);
    var i := Find(r, k);
    assert r[i] == (k, v);
  }

  /** Copying field `k` again does nothing, for the first time puts it last. */
  lemma PlaceField<V>(r: Fields<V>, obj: Fields<V>, keys: seq<string>, k: string, v: V)
    requires Placing(r, obj, keys) && Get(obj, k) == Some(v)
    ensures Placing(Set(r, k, v), obj, if k in keys then keys else keys + [k])
  {
    if k in keys {
      PlaceAgain(r, obj, keys, k, v);
    } else {
      PlaceNext(r, obj, keys, k, v);
    }
  }

  lemma PickedSnoc(order: seq<string>, n: nat, keys: seq<string>)
    requires n < |order|
    ensures var p := Picked(order[..n], keys);
      Picked(order[..n + 1], keys) == if order[n] !in keys || order[n] in p then p else p + [order[n]]
    ensures Unlisted(keys, order[..n + 1]) == Dropped(Unlisted(keys, order[..n]), order[n])
    ensures order[n] !in keys ==> Dropped(Unlisted(keys, order[..n]), order[n]) == Unlisted(keys, order[..n])
  {
    assert order[..n + 1][..n] == order[..n] && order[..n + 1] == order[..n] + [order[n]];
    UnlistedSnoc(keys, order[..n], order[n]);
    var u := Unlisted(keys, order[..n]);
    UnlistedFacts(keys, order[..n]);
    if order[n] !in keys {
      assert forall i :: 0 <= i < |u| ==> u[i] in u && u[i] !in [order[n]];
      UnlistedOfListed(u, [order[n]]);
    }
  }

  method PlaceListed<V>(obj: Fields<V>, order: seq<string>) returns (result: Fields<V>, remaining: seq<string>)
    requires Distinct(obj)
    ensures Placing(result, obj, Picked(order, Keys(obj))) && remaining == Unlisted(Keys(obj), order)
  {
    result, remaining := [], Keys(obj);
    UnlistedOfListed(Keys(obj), []);
    for n := 0 to |order|
      invariant Placing(result, obj, Picked(order[..n], Keys(obj)))
      invariant remaining == Unlisted(Keys(obj), order[..n])
    {
      PickedSnoc(order, n, Keys(obj));
      GetIsIn(obj, order[n]);
      var v := Get(obj, order[n]);
      if v.Some? {
        PlaceField(result, obj, Picked(order[..n], Keys(obj)), order[n], v.value);
        result := Set(result, order[n], v.value);
        remaining := Dropped(remaining, order[n]);
      }
    }
    assert order[..|order|] == order;
  }

  method PlaceRemaining<V>(start: Fields<V>, obj: Fields<V>, ghost placed: seq<string>, remaining: seq<string>)
    returns (result: Fields<V>)
    requires Placing(start, obj, placed) && NoRepeats(placed + remaining)
    requires forall k :: k in remaining ==> k in Keys(obj)
    ensures Placing(result, obj, placed + remaining)
  {
    result := start;
    assert placed + remaining[..0] == placed;
    for n := 0 to |remaining|
      invariant Placing(result, obj, placed + remaining[..n])
    {
      var k := remaining[n];
      GetIsIn(obj, k);
      NotYetPlaced(placed, remaining, n);
      PlaceNext(result, obj, placed + remaining[..n], k, Get(obj, k).value);
      assert placed + remaining[..n + 1] == placed + remaining[..n] + [k];
      result := Set(result, k, Get(obj, k).value);
    }
    assert remaining[..|remaining|] == remaining;
  }

  lemma NotYetPlaced(placed: seq<string>, remaining: seq<string>, n: nat)
    requires NoRepeats(placed + remaining) && n < |remaining|
    ensures remaining[n] !in placed + remaining[..n]
  {
    var all := placed + remaining;
    assert all[|placed| + n] == remaining[n];
    assert forall k :: 0 <= k < |placed| + n ==> (placed + remaining[..n])[k] == all[k];
  }

  lemma AllPlaced<V>(r: Fields<V>, obj: Fields<V>, keys: seq<string>)
    requires Placing(r, obj, keys) && forall k :: k in keys <==> k in Keys(obj)
    ensures Rearranges(r, obj, keys)
  {
    forall k ensures Get(r, k) == Get(obj, k) {
      GetIsIn(r, k);
      GetIsIn(obj, k);
    }
  }

  /** The listed fields first, in list order, then the others in their own order; nothing else changes. */
  method OrderFields<V>(obj: Fields<V>, order: seq<string>) returns (result: Fields<V>)
    requires Distinct(obj)
    ensures Rearranges(result, obj, OrderedKeys(Keys(obj), order))
  {
    if order == [] {
      UnlistedOfListed(Keys(obj), []);
      return obj;
    }
    var remaining;
    result, remaining := PlaceListed(obj, order);
    OrderedKeysFacts(Keys(obj), order);
    UnlistedFacts(Keys(obj), order);
    result := PlaceRemaining(result, obj, Picked(order, Keys(obj)), remaining);
    AllPlaced(result, obj, OrderedKeys(Keys(obj), order));
  }

  /** Ordering ordered fields changes nothing. */
  lemma OrderFieldsIdempotent<V>(obj: Fields<V>, order: seq<string>, once: Fields<V>, twice: Fields<V>)
    requires Distinct(obj) && Rearranges(once, obj, OrderedKeys(Keys(obj), order))
    requires Rearranges(twice, once, OrderedKeys(Keys(once), order))
    ensures twice == once
  {
    OrderedKeysFixed(Keys(obj), order);
    RearrangementUnique(once, twice, once, Keys(once));
  }

  // ---------------------------------------------------------------- headers

  type Headers = seq<(string, string)>

  /** Headers by case-insensitive name, each name where it first occurs, with its last spelling and value. */
  function Folded(headers: Headers, lower: string -> string): Fields<(string, string)> {
    if headers == [] then []
    else
      var h := headers[|headers| - 1];
      Set(Folded(headers[..|headers| - 1], lower), lower(h.0), h)
  }

  /** The last header that goes by a case-insensitive name. */
  function Last(headers: Headers, lower: string -> string, name: string): Option<(string, string)> {
    if headers == [] then None
    else if lower(headers[|headers| - 1].0) == name then Some(headers[|headers| - 1])
    else Last(headers[..|headers| - 1], lower, name)
  }

  lemma {:induction false} FoldedFacts(headers: Headers, lower: string -> string)
    ensures Distinct(Folded(headers, lower))
    ensures forall name :: Get(Folded(headers, lower), name) == Last(headers, lower, name)
    ensures forall i :: 0 <= i < |Folded(headers, lower)| ==>
      lower(Folded(headers, lower)[i].1.0) == Folded(headers, lower)[i].0
  {
    if headers != [] {
      var init, h := headers[..|headers| - 1], headers[|headers| - 1];
      FoldedFacts(init, lower);
      forall name ensures Get(Folded(headers, lower), name) == Last(headers, lower, name) {
        GetSet(Folded(init, lower), lower(h.0), h, name);
      }
    }
  }

  function Lowered(headers: Headers, lower: string -> string): (r: seq<string>)
    ensures |r| == |headers| && forall i :: 0 <= i < |r| ==> r[i] == lower(headers[i].0)
  {
    seq(|headers|, i requires 0 <= i < |headers| => lower(headers[i].0))
  }

  /** Names keep the order in which they first occur. */
  lemma {:induction false} FoldedAscends(headers: Headers, lower: string -> string)
    ensures Ascending(Keys(Folded(headers, lower)), Lowered(headers, lower))
    ensures forall k :: k in Keys(Folded(headers, lower)) <==> k in Lowered(headers, lower)
  {
    if headers != [] {
      var init, h := headers[..|headers| - 1], headers[|headers| - 1];
      FoldedAscends(init, lower);
      assert Lowered(headers, lower) == Lowered(init, lower) + [lower(h.0)];
      FoldedAscendsNext(Folded(init, lower), Lowered(init, lower), lower(h.0), h);
    }
  }

  lemma FoldedAscendsNext(m: Fields<(string, string)>, init: seq<string>, k: string, h: (string, string))
    requires Ascending(Keys(m), init) && forall x :: x in Keys(m) <==> x in init
    ensures Ascending(Keys(Set(m, k, h)), init + [k]) && forall x :: x in Keys(Set(m, k, h)) <==> x in init + [k]
  {
    var r := Keys(Set(m, k, h));
    forall i | 0 <= i < |m| ensures Place(init + [k], Keys(m)[i]) == Place(init, Keys(m)[i]) < |init| {
      assert Keys(m)[i] in Keys(m);
      PlaceSnoc(init, k, Keys(m)[i]);
    }
    GetIsIn(m, k);
    if Has(m, k) {
      assert r == Keys(m);
    } else {
      SetNew(m, k, h);
      PlaceSnoc(init, k, k);
    }
  }

  function Values(m: Fields<(string, string)>): (r: Headers)
    ensures |r| == |m| && forall i :: 0 <= i < |r| ==> r[i] == m[i].1
  {
    seq(|m|, i requires 0 <= i < |m| => m[i].1)
  }

  function LowerAll(names: seq<string>, lower: string -> string): (r: seq<string>)
    ensures |r| == |names| && forall i :: 0 <= i < |r| ==> r[i] == lower(names[i])
  {
    seq(|names|, i requires 0 <= i < |names| => lower(names[i]))
  }

  /** `named` are the headers `r` under their case-insensitive names: those of `headers`, in order. */
  ghost predicate OrdersHeaders(
    r: Headers, named: Fields<(string, string)>, headers: Headers, order: seq<string>, lower: string -> string)
  {
    var folded := Folded(headers, lower);
    r == Values(named) && Rearranges(named, folded, OrderedKeys(Keys(folded), LowerAll(order, lower)))
  }

  method FoldHeaders(headers: Headers, lower: string -> string) returns (headerMap: Fields<(string, string)>)
    ensures headerMap == Folded(headers, lower)
  {
    headerMap := [];
    for n := 0 to |headers|
      invariant headerMap == Folded(headers[..n], lower)
    {
      assert headers[..n + 1][..n] == headers[..n];
      headerMap := Set(headerMap, lower(headers[n].0), headers[n]);
    }
    assert headers[..|headers|] == headers;
  }

  lemma DroppedBetween(before: seq<string>, k: string, after: seq<string>)
    requires k !in before && k !in after
    ensures Dropped(before + [k] + after, k) == before + after
  {
    assert forall x :: 0 <= x < |before| ==> before[x] in before;
    assert forall x :: 0 <= x < |after| ==> after[x] in after;
    UnlistedPlus(before + [k], after, [k]);
    UnlistedPlus(before, [k], [k]);
    UnlistedOfListed(before, [k]);
    UnlistedOfListed([k], [k]);
    UnlistedOfListed(after, [k]);
    assert before + [] == before;
  }

  /** Deleting a field takes its key out and leaves the others where they are. */
  lemma DeleteKeys<V>(m: Fields<V>, k: string)
    requires Distinct(m) && k in Keys(m)
    ensures Keys(Delete(m, k)) == Dropped(Keys(m), k)
  {
    GetIsIn(m, k);
    var i, keys := Find(m, k), Keys(m);
    assert forall j :: 0 <= j < |m| && j != i ==> m[j].0 != k;
    assert keys == keys[..i] + [k] + keys[i + 1..];
    DroppedBetween(keys[..i], k, keys[i + 1..]);
    assert Keys(m[..i] + m[i + 1..]) == keys[..i] + keys[i + 1..];
  }

  /** Each header sits under its own case-insensitive name. */
  ghost predicate UnderOwnName(m: Fields<(string, string)>, lower: string -> string) {
    forall i :: 0 <= i < |m| ==> lower(m[i].1.0) == m[i].0
  }

  /** A header of a new name goes last in the result too. */
  lemma AppendHeader(named: Fields<(string, string)>, lower: string -> string, h: (string, string))
    requires UnderOwnName(named, lower) && lower(h.0) !in Keys(named)
    ensures Set(Values(named), h.0, h.1) == Values(Set(named, lower(h.0), h))
    ensures UnderOwnName(Set(named, lower(h.0), h), lower)
  {
    GetIsIn(named, lower(h.0));
    forall j | 0 <= j < |named| ensures Values(named)[j].0 != h.0 {
      assert Keys(named)[j] == lower(Values(named)[j].0);
    }
    FindAbsent(Values(named), h.0);
  }

  /** What is left of `all` once some names are placed. */
  ghost predicate LeftOver(left: Fields<(string, string)>, all: Fields<(string, string)>, order: seq<string>) {
    && Distinct(left) && Keys(left) == Unlisted(Keys(all), order)
    && forall k :: k in Keys(left) ==> Get(left, k) == Get(all, k)
  }

  lemma LeftOverNext(left: Fields<(string, string)>, all: Fields<(string, string)>, order: seq<string>, n: nat)
    requires n < |order| && LeftOver(left, all, order[..n]) && order[n] in Keys(left)
    ensures LeftOver(Delete(left, order[n]), all, order[..n + 1])
  {
    DeleteKeys(left, order[n]);
    PickedSnoc(order, n, Keys(all));
    forall k | k in Keys(Delete(left, order[n])) ensures Get(Delete(left, order[n]), k) == Get(all, k) {
      UnlistedFacts(Keys(left), [order[n]]);
      GetDelete(left, order[n], k);
    }
  }

  lemma LeftOverSame(left: Fields<(string, string)>, all: Fields<(string, string)>, order: seq<string>, n: nat)
    requires n < |order| && LeftOver(left, all, order[..n]) && order[n] !in Keys(left)
    ensures LeftOver(left, all, order[..n + 1])
    ensures Picked(order[..n + 1], Keys(all)) == Picked(order[..n], Keys(all))
  {
    PickedSnoc(order, n, Keys(all));
    UnlistedFacts(Keys(all), order[..n]);
    PickedFacts(order[..n], Keys(all));
    var u := Unlisted(Keys(all), order[..n]);
    assert forall i :: 0 <= i < |u| ==> u[i] in u;
    UnlistedOfListed(u, [order[n]]);
  }

  lemma NotPickedYet(all: Fields<(string, string)>, order: seq<string>, n: nat)
    requires n < |order| && order[n] in Unlisted(Keys(all), order[..n])
    ensures order[n] !in Picked(order[..n], Keys(all)) && order[n] in Keys(all)
    ensures Picked(order[..n + 1], Keys(all)) == Picked(order[..n], Keys(all)) + [order[n]]
  {
    PickedSnoc(order, n, Keys(all));
    UnlistedFacts(Keys(all), order[..n]);
    PickedFacts(order[..n], Keys(all));
  }

  /** The listed headers, taken out of the map one by one. */
  method TakeListed(all: Fields<(string, string)>, names: seq<string>, lower: string -> string)
    returns (result: Headers, headerMap: Fields<(string, string)>, ghost named: Fields<(string, string)>)
    requires Distinct(all) && UnderOwnName(all, lower)
    ensures result == Values(named) && UnderOwnName(named, lower)
    ensures Placing(named, all, Picked(names, Keys(all))) && LeftOver(headerMap, all, names)
  {
    result, headerMap, named := [], all, [];
    UnlistedOfListed(Keys(all), []);
    for n := 0 to |names|
      invariant result == Values(named) && UnderOwnName(named, lower)
      invariant Placing(named, all, Picked(names[..n], Keys(all))) && LeftOver(headerMap, all, names[..n])
    {
      var entry := Get(headerMap, names[n]);
      GetIsIn(headerMap, names[n]);
      if entry.Some? {
        NotPickedYet(all, names, n);
        NameOf(all, lower, names[n]);
        AppendHeader(named, lower, entry.value);
        PlaceNext(named, all, Picked(names[..n], Keys(all)), names[n], entry.value);
        LeftOverNext(headerMap, all, names, n);
        result := Set(result, entry.value.0, entry.value.1);
        named := Set(named, names[n], entry.value);
        headerMap := Delete(headerMap, names[n]);
      } else {
        LeftOverSame(headerMap, all, names, n);
      }
    }
    assert names[..|names|] == names;
  }

  lemma NameOf(all: Fields<(string, string)>, lower: string -> string, name: string)
    requires UnderOwnName(all, lower) && Get(all, name).Some?
    ensures lower(Get(all, name).value.0) == name
  {
  }

  /** The others, in the order of the map. */
  method TakeOthers(
      start: Headers, headerMap: Fields<(string, string)>, all: Fields<(string, string)>, ghost placed: seq<string>,
      ghost begun: Fields<(string, string)>, lower: string -> string)
    returns (result: Headers, ghost named: Fields<(string, string)>)
    requires start == Values(begun) && UnderOwnName(begun, lower) && UnderOwnName(all, lower)
    requires Placing(begun, all, placed)
    requires Distinct(headerMap) && NoRepeats(placed + Keys(headerMap))
    requires forall k :: k in Keys(headerMap) ==> Get(headerMap, k) == Get(all, k)
    ensures result == Values(named) && Placing(named, all, placed + Keys(headerMap))
  {
    result, named := start, begun;
    ghost var keys := Keys(headerMap);
    assert placed + keys[..0] == placed;
    for n := 0 to |headerMap|
      invariant result == Values(named) && UnderOwnName(named, lower)
      invariant Placing(named, all, placed + keys[..n])
    {
      var (name, h) := headerMap[n];
      NotYetPlaced(placed, keys, n);
      FindAt(headerMap, n);
      assert keys[n] == name && Get(all, name) == Some(h);
      NameOf(all, lower, name);
      AppendHeader(named, lower, h);
      PlaceNext(named, all, placed + keys[..n], name, h);
      assert placed + keys[..n + 1] == placed + keys[..n] + [name];
      result := Set(result, h.0, h.1);
      named := Set(named, name, h);
    }
    assert keys[..|keys|] == keys;
  }

  /** One header per case-insensitive name, the listed ones first. An empty list leaves the headers alone,
      repeated names and all. */
  method OrderHeaders(headers: Headers, order: seq<string>, lower: string -> string)
    returns (result: Headers, ghost named: Fields<(string, string)>)
    ensures order == [] ==> result == headers
    ensures order != [] ==> OrdersHeaders(result, named, headers, order, lower)
  {
    if order == [] {
      return headers, [];
    }
    var all := FoldHeaders(headers, lower);
    FoldedFacts(headers, lower);
    var names := LowerAll(order, lower);
    var headerMap;
    result, headerMap, named := TakeListed(all, names, lower);
    OrderedKeysFacts(Keys(all), names);
    UnlistedFacts(Keys(all), names);
    result, named := TakeOthers(result, headerMap, all, Picked(names, Keys(all)), named, lower);
    AllPlaced(named, all, OrderedKeys(Keys(all), names));
  }

  ghost predicate OnlyAt(r: Headers, lower: string -> string, name: string, i: nat) {
    forall j :: 0 <= j < |r| && lower(r[j].0) == name ==> j == i
  }

  /** Ordered headers have exactly one entry for every case-insensitive name that occurs, the last one
      given. */
  lemma OnePerName(
    r: Headers, named: Fields<(string, string)>, headers: Headers, order: seq<string>,
    lower: string -> string, name: string)
    requires OrdersHeaders(r, named, headers, order, lower)
    ensures var last := Last(headers, lower, name);
      && (last.None? ==> forall i :: 0 <= i < |r| ==> lower(r[i].0) != name)
      && (last.Some? ==> exists i :: 0 <= i < |r| && r[i] == last.value && OnlyAt(r, lower, name, i))
  {
    FoldedFacts(headers, lower);
    forall i | 0 <= i < |r| ensures lower(r[i].0) == named[i].0 {
      NamedByLower(named, headers, order, lower, i);
    }
    GetIsIn(named, name);
    assert Get(named, name) == Last(headers, lower, name);
    var i := Find(named, name);
    if i < |named| {
      assert r[i] == Last(headers, lower, name).value;
      forall j | 0 <= j < |r| && lower(r[j].0) == name ensures j == i {
        assert named[j].0 == named[i].0;
      }
    }
  }

  lemma NamedByLower(
    named: Fields<(string, string)>, headers: Headers, order: seq<string>, lower: string -> string, i: nat)
    requires i < |named|
    requires var folded := Folded(headers, lower);
      Rearranges(named, folded, OrderedKeys(Keys(folded), LowerAll(order, lower)))
    ensures lower(named[i].1.0) == named[i].0
  {
    var folded := Folded(headers, lower);
    FoldedFacts(headers, lower);
    FindAt(named, i);
    assert Get(folded, named[i].0) == Some(named[i].1);
    assert folded[Find(folded, named[i].0)].1 == named[i].1;
  }

  lemma FoldedSnoc(init: Fields<(string, string)>, e: (string, (string, string)), lower: string -> string)
    requires Distinct(init + [e]) && lower(e.1.0) == e.0 && Folded(Values(init), lower) == init
    ensures Folded(Values(init + [e]), lower) == init + [e]
  {
    var m := init + [e];
    assert Values(m)[..|m| - 1] == Values(init) && Values(m)[|m| - 1] == e.1;
    assert m[|init|] == e;
    FindAbsent(init, e.0);
  }

  /** Headers already folded fold to themselves. */
  lemma {:induction false} FoldedFixed(m: Fields<(string, string)>, lower: string -> string)
    requires Distinct(m) && UnderOwnName(m, lower)
    ensures Folded(Values(m), lower) == m
  {
    if m != [] {
      var init, e := m[..|m| - 1], m[|m| - 1];
      assert init + [e] == m;
      FoldedFixed(init, lower);
      FoldedSnoc(init, e, lower);
    }
  }

  /** Ordering ordered headers changes nothing. */
  lemma OrderHeadersIdempotent(headers: Headers, order: seq<string>, lower: string -> string,
      once: Headers, named: Fields<(string, string)>, twice: Headers, renamed: Fields<(string, string)>)
    requires OrdersHeaders(once, named, headers, order, lower) && OrdersHeaders(twice, renamed, once, order, lower)
    ensures twice == once
  {
    FoldedFacts(headers, lower);
    forall i | 0 <= i < |named| ensures lower(named[i].1.0) == named[i].0 {
      NamedByLower(named, headers, order, lower, i);
    }
    FoldedFixed(named, lower);
    OrderFieldsIdempotent(Folded(headers, lower), LowerAll(order, lower), named, renamed);
  }

  /** Among headers of one case-insensitive name, the one that survives ordering is the last. */
  lemma {:induction false} OverrideSurvivesExactly(headers: Headers, lower: string -> string, i: nat)
    requires Distinct(headers) && i < |headers|
    ensures Last(headers, lower, lower(headers[i].0)) == Some(headers[i])
      <==> forall j :: i < j < |headers| ==> lower(headers[j].0) != lower(headers[i].0)
  {
    var init, h := headers[..|headers| - 1], headers[|headers| - 1];
    if i < |init| {
      OverrideSurvivesExactly(init, lower, i);
      assert h.0 != headers[i].0;
      assert forall j :: i < j < |init| ==> init[j] == headers[j];
    }
  }

  // ---------------------------------------------------------------- the whole fingerprint

  const INTERNAL: seq<string> :=
    ["_claudeCodeRequiresLowercaseToolNames", "_nativeCodexPassthrough", "_omnirouteResponsesStore"]

  datatype Fingerprint = Fingerprint(
    headerOrder: seq<string>, bodyOrder: seq<string>, userAgent: Option<string>, extraHeaders: Headers)

  function Stripped<V>(body: Fields<V>): Fields<V> {
    Delete(Delete(Delete(body, INTERNAL[0]), INTERNAL[1]), INTERNAL[2])
  }

  /** Only the internal fields are gone. */
  lemma StrippedFields<V>(body: Fields<V>, k: string)
    requires Distinct(body)
    ensures Get(Stripped(body), k) == if k in INTERNAL then None else Get(body, k)
  {
    var one := Delete(body, INTERNAL[0]);
    var two := Delete(one, INTERNAL[1]);
    GetDelete(body, INTERNAL[0], k);
    GetDelete(one, INTERNAL[1], k);
    GetDelete(two, INTERNAL[2], k);
  }

  /** The body that is serialised: without the internal fields, in the fingerprint's order. */
  method ApplyToBody<V>(fp: Option<Fingerprint>, body: Fields<V>) returns (ordered: Fields<V>)
    requires Distinct(body)
    ensures Distinct(ordered)
    ensures forall k :: Get(ordered, k) == if k in INTERNAL then None else Get(body, k)
    ensures fp.Some? ==> Keys(ordered) == OrderedKeys(Keys(Stripped(body)), fp.value.bodyOrder)
  {
    ordered := Stripped(body);
    forall k ensures Get(ordered, k) == if k in INTERNAL then None else Get(body, k) {
      StrippedFields(body, k);
    }
    if fp.Some? {
      ordered := OrderFields(ordered, fp.value.bodyOrder);
    }
  }

  function Assigned(headers: Headers, extra: Headers): Headers {
    if extra == [] then headers
    else Set(Assigned(headers, extra[..|extra| - 1]), extra[|extra| - 1].0, extra[|extra| - 1].1)
  }

  const AGENT: string := "User-Agent"

  /** The headers with the user agent and the extra headers set by their exact names. */
  function Dressed(fp: Fingerprint, headers: Headers): Headers {
    Assigned(if fp.userAgent.Some? then Set(headers, AGENT, fp.userAgent.value) else headers, fp.extraHeaders)
  }

  /** `result` is what a fingerprint sends for `headers`. */
  ghost predicate Sends(
    fp: Fingerprint, headers: Headers, lower: string -> string, result: Headers, named: Fields<(string, string)>)
  {
    if fp.headerOrder == [] then result == Dressed(fp, headers)
    else OrdersHeaders(result, named, Dressed(fp, headers), fp.headerOrder, lower)
  }

  /** The headers that are sent: the user agent and the extra headers set by their exact names, then all
      of them ordered. */
  method ApplyToHeaders(fp: Fingerprint, headers: Headers, lower: string -> string)
    returns (result: Headers, ghost named: Fields<(string, string)>)
    ensures Sends(fp, headers, lower, result, named)
  {
    var h := headers;
    if fp.userAgent.Some? {
      h := Set(h, AGENT, fp.userAgent.value);
    }
    ghost var start := h;
    for n := 0 to |fp.extraHeaders|
      invariant h == Assigned(start, fp.extraHeaders[..n])
    {
      assert fp.extraHeaders[..n + 1][..n] == fp.extraHeaders[..n];
      h := Set(h, fp.extraHeaders[n].0, fp.extraHeaders[n].1);
    }
    assert fp.extraHeaders[..|fp.extraHeaders|] == fp.extraHeaders;
    result, named := OrderHeaders(h, fp.headerOrder, lower);
  }

  // ---------------------------------------------------------------- is the fingerprint's user agent sent?

  /** Setting keeps every key where it is and puts a new one last. */
  lemma FindSet(m: Headers, k: string, v: string, q: string)
    ensures Find(Set(m, k, v), q)
         == if Has(m, q) then Find(m, q) else if q == k then |m| else |Set(m, k, v)|
  {
    var r := Set(m, k, v);
    if Has(m, q) {
      FindUnique(r, q, Find(m, q));
    } else if q == k {
      FindUnique(r, q, |m|);
    } else {
      FindAbsent(r, q);
    }
  }

  /** The keys of `h` stay where they are; those of `extra` that are new come behind them. */
  lemma {:induction false} FindAssigned(h: Headers, extra: Headers, q: string)
    ensures Has(h, q) ==> Find(Assigned(h, extra), q) == Find(h, q)
    ensures !Has(h, q) ==> Find(Assigned(h, extra), q) >= |h|
    ensures Has(Assigned(h, extra), q) <==> Has(h, q) || q in Keys(extra)
    ensures |Assigned(h, extra)| >= |h|
    ensures Distinct(h) ==> Distinct(Assigned(h, extra))
  {
    if extra != [] {
      var init, e := extra[..|extra| - 1], extra[|extra| - 1];
      FindAssigned(h, init, q);
      FindSet(Assigned(h, init), e.0, e.1, q);
      assert Keys(extra) == Keys(init) + [e.0];
    }
  }

  /** The value of a name is the last one assigned. */
  lemma {:induction false} GetAssigned(h: Headers, extra: Headers, q: string)
    requires Distinct(extra)
    ensures Get(Assigned(h, extra), q) == if Has(extra, q) then Get(extra, q) else Get(h, q)
  {
    if extra != [] {
      var init, e := extra[..|extra| - 1], extra[|extra| - 1];
      GetAssigned(h, init, q);
      GetSet(Assigned(h, init), e.0, e.1, q);
      assert extra == init + [e];
      HasInit(init, e, q);
    }
  }

  lemma HasInit(init: Headers, e: (string, string), q: string)
    requires Distinct(init + [e])
    ensures Get(init + [e], q) == if q == e.0 then Some(e.1) else Get(init, q)
    ensures Has(init + [e], q) <==> q == e.0 || Has(init, q)
  {
    var m := init + [e];
    assert m[|init|] == e;
    if q == e.0 {
      FindAt(m, |init|);
    } else if Has(init, q) {
      FindUnique(m, q, Find(init, q));
    } else {
      FindAbsent(m, q);
    }
  }

  /** Another spelling of the user agent's name that ends up behind it: among the caller's headers if it
      stands behind the caller's own exact name, among the extra ones if the caller has not got it. */
  ghost predicate Shadows(fp: Fingerprint, headers: Headers, lower: string -> string, k: string) {
    && k != AGENT && lower(k) == lower(AGENT)
    && if Has(headers, k) then Find(headers, k) > Find(headers, AGENT) else k in Keys(fp.extraHeaders)
  }

  ghost predicate Shadowed(fp: Fingerprint, headers: Headers, lower: string -> string) {
    exists k :: Shadows(fp, headers, lower, k)
  }

  /** In terms of the dressed headers: the other spelling stands behind the user agent. */
  lemma ShadowsBehind(fp: Fingerprint, headers: Headers, lower: string -> string, k: string)
    requires fp.userAgent.Some? && k != AGENT && lower(k) == lower(AGENT)
    ensures var s := Dressed(fp, headers);
      Shadows(fp, headers, lower, k) <==> Find(s, AGENT) < Find(s, k) < |s|
  {
    var h := Set(headers, AGENT, fp.userAgent.value);
    FindSet(headers, AGENT, fp.userAgent.value, k);
    FindSet(headers, AGENT, fp.userAgent.value, AGENT);
    FindAssigned(h, fp.extraHeaders, k);
    FindAssigned(h, fp.extraHeaders, AGENT);
  }

  /** A header is sent exactly when it is the last of its case-insensitive name. */
  lemma SentIsLast(
    r: Headers, named: Fields<(string, string)>, s: Headers, order: seq<string>,
    lower: string -> string, h: (string, string))
    requires OrdersHeaders(r, named, s, order, lower)
    ensures h in r <==> Last(s, lower, lower(h.0)) == Some(h)
  {
    OnePerName(r, named, s, order, lower, lower(h.0));
    var last := Last(s, lower, lower(h.0));
    if h in r {
      var j :| 0 <= j < |r| && r[j] == h;
      assert last.Some?;
      var i :| 0 <= i < |r| && r[i] == last.value && OnlyAt(r, lower, lower(h.0), i);
      assert j == i;
    }
  }

  lemma ShadowedExactly(fp: Fingerprint, headers: Headers, lower: string -> string)
    requires fp.userAgent.Some? && Distinct(headers)
    ensures var s := Dressed(fp, headers); var i := Find(s, AGENT);
      && i < |s|
      && (Shadowed(fp, headers, lower) <==> exists j :: i < j < |s| && lower(s[j].0) == lower(AGENT))
  {
    var s := Dressed(fp, headers);
    var h := Set(headers, AGENT, fp.userAgent.value);
    FindSet(headers, AGENT, fp.userAgent.value, AGENT);
    FindAssigned(h, fp.extraHeaders, AGENT);
    var i := Find(s, AGENT);
    if k :| Shadows(fp, headers, lower, k) {
      ShadowsBehind(fp, headers, lower, k);
      assert lower(s[Find(s, k)].0) == lower(AGENT);
    }
    if j :| i < j < |s| && lower(s[j].0) == lower(AGENT) {
      FindAt(s, j);
      ShadowsBehind(fp, headers, lower, s[j].0);
    }
  }

  /** For all headers and every fingerprint that sets a user agent: exactly that user agent is sent if and
      only if no extra header gives the name another value and, where the headers are ordered at all, no
      other spelling of the name shadows it. */
  lemma UserAgentSentExactly(
    fp: Fingerprint, headers: Headers, lower: string -> string, result: Headers, named: Fields<(string, string)>)
    requires fp.userAgent.Some? && Distinct(headers) && Distinct(fp.extraHeaders)
    requires Sends(fp, headers, lower, result, named)
    ensures (AGENT, fp.userAgent.value) in result
      <==> Get(fp.extraHeaders, AGENT).GetOr(fp.userAgent.value) == fp.userAgent.value
           && (fp.headerOrder == [] || !Shadowed(fp, headers, lower))
  {
    var ua, s := fp.userAgent.value, Dressed(fp, headers);
    ShadowedExactly(fp, headers, lower);
    AgentValue(fp, headers);
    if fp.headerOrder == [] {
      InIsAt(s, AGENT, ua);
    } else {
      SentIsLast(result, named, s, fp.headerOrder, lower, (AGENT, ua));
      LastAgentExactly(s, lower, ua);
    }
  }

  lemma LastAgentExactly(s: Headers, lower: string -> string, ua: string)
    requires Distinct(s) && Has(s, AGENT)
    ensures var i := Find(s, AGENT);
      Last(s, lower, lower(AGENT)) == Some((AGENT, ua))
      <==> Get(s, AGENT) == Some(ua) && !exists j :: i < j < |s| && lower(s[j].0) == lower(AGENT)
  {
    var i := Find(s, AGENT);
    OverrideSurvivesExactly(s, lower, i);
    LastWithValue(s, lower, (AGENT, ua));
    InIsAt(s, AGENT, ua);
    assert s[i].0 == AGENT;
  }

  lemma AgentValue(fp: Fingerprint, headers: Headers)
    requires fp.userAgent.Some? && Distinct(headers) && Distinct(fp.extraHeaders)
    ensures Distinct(Dressed(fp, headers))
    ensures Get(Dressed(fp, headers), AGENT) == Some(Get(fp.extraHeaders, AGENT).GetOr(fp.userAgent.value))
  {
    var h := Set(headers, AGENT, fp.userAgent.value);
    GetSet(headers, AGENT, fp.userAgent.value, AGENT);
    GetAssigned(h, fp.extraHeaders, AGENT);
    FindAssigned(h, fp.extraHeaders, AGENT);
  }

  lemma InIsAt(s: Headers, k: string, v: string)
    requires Distinct(s)
    ensures (k, v) in s <==> Get(s, k) == Some(v)
  {
    if (k, v) in s {
      var j :| 0 <= j < |s| && s[j] == (k, v);
      FindAt(s, j);
    }
  }

  /** The last header of a name is one of the headers. */
  lemma {:induction false} LastWithValue(s: Headers, lower: string -> string, h: (string, string))
    ensures Last(s, lower, lower(h.0)) == Some(h) ==> h in s
  {
    if s != [] {
      LastWithValue(s[..|s| - 1], lower, h);
    }
  }

  const DRESS: Fingerprint := Fingerprint([AGENT], [], Some("cli"), [])
  const SPELT: Headers := [(AGENT, "sdk"), ("user-agent", "sdk")]

  /** A fingerprint whose user agent is not sent: the client spells the name twice. */
  lemma UserAgentLost(lower: string -> string, result: Headers, named: Fields<(string, string)>)
    requires lower("user-agent") == lower(AGENT) && Sends(DRESS, SPELT, lower, result, named)
    ensures (AGENT, "cli") !in result
  {
    var h := SPELT;
    assert h[0].0[0] == 'U' && h[1].0[0] == 'u';
    FindUnique(h, AGENT, 0);
    FindUnique(h, "user-agent", 1);
    assert Shadows(DRESS, h, lower, "user-agent");
    UserAgentSentExactly(DRESS, h, lower, result, named);
  }
}
