/** The identity maps of the Claude executor: one random id per seed, kept in a map of bounded size with
    first-in first-out eviction. */
module IdentityCache {
  import opened OrderedMap

  /** Generated ids are never empty. */
  type Id = s: string | s != "" witness "-"

  type Entries = seq<(string, Id)>

  /** A seed asked for, and the random id drawn in case it is new. */
  type Call = (string, Id)

  // ---------------------------------------------------------------- specification

  function BoundedSet(m: Entries, k: string, v: Id, max: nat): Entries {
    Set(if !Has(m, k) && |m| >= max && m != [] then m[1..] else m, k, v)
  }

  function Ask(m: Entries, c: Call, max: nat): Entries {
    if Has(m, c.0) then m else BoundedSet(m, c.0, c.1, max)
  }

  /** The map after a list of calls, from empty. */
  function After(calls: seq<Call>, max: nat): Entries {
    if calls == [] then [] else Ask(After(calls[..|calls| - 1], max), calls[|calls| - 1], max)
  }

  /** The calls that found nothing and put a new id in. */
  function Inserted(calls: seq<Call>, max: nat): seq<Call> {
    if calls == [] then []
    else
      var init, c := calls[..|calls| - 1], calls[|calls| - 1];
      Inserted(init, max) + if Has(After(init, max), c.0) then [] else [c]
  }

  /** A map of limit 0 still holds the entry just made. */
  function Capacity(max: nat): nat {
    if max == 0 then 1 else max
  }

  function Window(log: seq<Call>, n: nat): Entries {
    if |log| <= n then log else log[|log| - n..]
  }

  // ---------------------------------------------------------------- every reachable map

  lemma HasAt(m: Entries, i: nat)
    requires i < |m|
    ensures Has(m, m[i].0)
  {
  }

  /** Insertions of the same seed are more than the capacity apart. */
  ghost predicate Spaced(log: seq<Call>, n: nat) {
    forall p, q :: 0 <= p < q < |log| && q - p <= n ==> log[p].0 != log[q].0
  }

  lemma WindowSnoc(log: seq<Call>, c: Call, n: nat)
    requires n > 0
    ensures Window(log + [c], n) == (if |log| < n then Window(log, n) else Window(log, n)[1..]) + [c]
  {
  }

  lemma SpacedSnoc(log: seq<Call>, c: Call, n: nat)
    requires Spaced(log, n) && !Has(Window(log, n), c.0)
    ensures Spaced(log + [c], n)
  {
    var w := Window(log, n);
    forall p | 0 <= p < |log| && |log| - p <= n
      ensures log[p].0 != c.0
    {
      HasAt(w, p - (|log| - |w|));
    }
  }

  /** A new seed shifts the window by one. */
  lemma AskShifts(log: seq<Call>, c: Call, max: nat)
    requires Spaced(log, Capacity(max)) && !Has(Window(log, Capacity(max)), c.0)
    ensures Ask(Window(log, Capacity(max)), c, max) == Window(log + [c], Capacity(max))
    ensures Spaced(log + [c], Capacity(max))
  {
    var m := Window(log, Capacity(max));
    WindowSnoc(log, c, Capacity(max));
    SpacedSnoc(log, c, Capacity(max));
    if |m| >= max && m != [] {
      FindAbsent(m[1..], c.0);
    }
  }

  /** Every reachable map is the window of the latest insertions, oldest first; so it never exceeds the
      capacity, and what is evicted is always the oldest. */
  lemma {:induction false} MapIsWindow(calls: seq<Call>, max: nat)
    ensures After(calls, max) == Window(Inserted(calls, max), Capacity(max))
    ensures Spaced(Inserted(calls, max), Capacity(max))
    ensures |After(calls, max)| <= Capacity(max)
  {
    if calls != [] {
      var init, c := calls[..|calls| - 1], calls[|calls| - 1];
      MapIsWindow(init, max);
      if Has(After(init, max), c.0) {
        assert Inserted(calls, max) == Inserted(init, max) + [] == Inserted(init, max);
      } else {
        AskShifts(Inserted(init, max), c, max);
      }
    }
  }

  lemma {:induction false} InsertedGrows(calls: seq<Call>, more: seq<Call>, max: nat)
    ensures |Inserted(calls, max)| <= |Inserted(calls + more, max)|
    ensures forall i :: 0 <= i < |Inserted(calls, max)| ==> Inserted(calls + more, max)[i] == Inserted(calls, max)[i]
  {
    if more == [] {
      assert calls + more == calls;
    } else {
      var init := more[..|more| - 1];
      InsertedGrows(calls, init, max);
      assert (calls + more)[..|calls + more| - 1] == calls + init;
    }
  }

  lemma WindowDistinct(log: seq<Call>, n: nat)
    requires Spaced(log, n)
    ensures Distinct(Window(log, n))
  {
  }

  /** An insertion is found while it is within the window, and gone as soon as it has just left it. */
  lemma WindowHolds(log: seq<Call>, p: nat, n: nat)
    requires Spaced(log, n) && p < |log|
    ensures |log| - p <= n ==> Get(Window(log, n), log[p].0) == Some(log[p].1)
    ensures |log| - p == n + 1 ==> Get(Window(log, n), log[p].0) == None
  {
    var m := Window(log, n);
    if |log| - p <= n {
      var i := p - (|log| - |m|);
      assert m[i] == log[p];
      WindowDistinct(log, n);
      FindAt(m, i);
    } else if |log| - p == n + 1 {
      forall j | 0 <= j < |m| ensures m[j].0 != log[p].0 {
        assert m[j] == log[p + 1 + j];
      }
      FindAbsent(m, log[p].0);
    }
  }

  /** What became of the insertion number `p`. */
  lemma InsertionHeld(calls: seq<Call>, p: nat, max: nat)
    requires p < |Inserted(calls, max)|
    ensures var log := Inserted(calls, max);
      && (|log| - p <= Capacity(max) ==> Get(After(calls, max), log[p].0) == Some(log[p].1))
      && (|log| - p == Capacity(max) + 1 ==> Get(After(calls, max), log[p].0) == None)
  {
    MapIsWindow(calls, max);
    WindowHolds(Inserted(calls, max), p, Capacity(max));
  }

  /** A seed that was just given an id keeps it, through any calls, while fewer new seeds than the capacity
      have come in since; and it is gone when exactly that many have. */
  lemma KeptUntilCapacity(calls: seq<Call>, more: seq<Call>, max: nat)
    requires Inserted(calls, max) != []
    ensures var given := Inserted(calls, max)[|Inserted(calls, max)| - 1];
      var newcomers := |Inserted(calls + more, max)| - |Inserted(calls, max)|;
      && (newcomers < Capacity(max) ==> Get(After(calls + more, max), given.0) == Some(given.1))
      && (newcomers == Capacity(max) ==> Get(After(calls + more, max), given.0) == None)
  {
    var p := |Inserted(calls, max)| - 1;
    InsertedGrows(calls, more, max);
    assert Inserted(calls + more, max)[p] == Inserted(calls, max)[p];
    InsertionHeld(calls + more, p, max);
  }

  // ---------------------------------------------------------------- the maps themselves

  predicate IsHex(c: char) {
    '0' <= c <= '9' || 'a' <= c <= 'f' || 'A' <= c <= 'F'
  }

  predicate IsDeviceId(s: Option<string>) {
    s.Some? && |s.value| == 64 && forall i :: 0 <= i < |s.value| ==> IsHex(s.value[i])
  }

  class BoundedMap {
    const max: nat
    var entries: Entries

    constructor (max: nat)
      ensures this.max == max && entries == []
    {
      this.max := max;
      entries := [];
    }

    method SetBounded(key: string, value: Id)
      requires Distinct(entries)
      modifies this
      ensures entries == BoundedSet(old(entries), key, value, max)
      ensures Distinct(entries)
    {
      if !Has(entries, key) && |entries| >= max && |entries| > 0 {
        var oldest := entries[0].0;
        FindAt(entries, 0);
        entries := Delete(entries, oldest);
      }
      entries := Set(entries, key, value);
    }

    /** The id of a seed: the one it has, else the one just drawn. */
    method GetSessionId(seed: string, drawn: Id) returns (id: Id)
      requires Distinct(entries)
      modifies this
      ensures entries == Ask(old(entries), (seed, drawn), max) && Distinct(entries)
      ensures id == Get(old(entries), seed).GetOr(drawn)
      ensures Get(entries, seed) == Some(id)
    {
      var known := Get(entries, seed);
      if known.Some? {
        return known.value;
      }
      id := drawn;
      SetBounded(seed, id);
      ghost var full := !Has(old(entries), seed) && |old(entries)| >= max && old(entries) != [];
      GetSet(if full then old(entries)[1..] else old(entries),
             seed, id, seed);
    }

    /** A persisted device id wins, under either of its names; else one is drawn once per seed. */
    method ResolveCliUserId(cliUserId: Option<string>, userId: Option<string>, seed: string, drawn: Id)
      returns (id: string)
      requires Distinct(entries)
      modifies this
      ensures Distinct(entries)
      ensures IsDeviceId(cliUserId) ==> id == cliUserId.value && entries == old(entries)
      ensures !IsDeviceId(cliUserId) && IsDeviceId(userId) ==> id == userId.value && entries == old(entries)
      ensures !IsDeviceId(cliUserId) && !IsDeviceId(userId) ==>
        entries == Ask(old(entries), (seed, drawn), max) && id == Get(old(entries), seed).GetOr(drawn)
    {
      if IsDeviceId(cliUserId) {
        return cliUserId.value;
      }
      if IsDeviceId(userId) {
        return userId.value;
      }
      id := GetSessionId(seed, drawn);
    }
  }
}
