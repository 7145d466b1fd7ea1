/** The Antigravity executor's cache of remaining credits: entries that expire, a bounded size, a one-time
    fill from the database, and a periodic sweep. */
module CreditCache {
  import opened OrderedMap
  import Sequences

  const MAX_ENTRIES: nat := 50
  const TTL_MS: int := 5 * 60 * 1000

  datatype Entry = Entry(balance: int, updatedAt: int)

  type Entries = seq<(string, Entry)>

  /** A value stored for an account. */
  datatype Write = Write(account: string, entry: Entry)

  /** The cache, with the log of everything ever stored in it. */
  datatype State = State(entries: Entries, hydrated: bool, log: seq<Write>)

  const EMPTY: State := State([], false, [])

  /** A call, with the time at which it is made. `persisted` is what the database holds, or nothing when
      it cannot be read. A first read that is overtaken while it waits for the database shows as its two
      halves, `HydrationStarts` and `HydrationEnds`, with other calls between them. */
  datatype Op =
    | HydrationStarts
    | HydrationEnds(rows: seq<(string, int)>, now: int)
    | Read(account: string, persisted: Option<seq<(string, int)>>, now: int)
    | Update(account: string, balance: int, now: int)
    | Sweep(now: int)

  // ---------------------------------------------------------------- specification

  predicate Stale(e: Entry, now: int) {
    now - e.updatedAt > TTL_MS
  }

  function Stored(s: State, account: string, e: Entry): State {
    s.(entries := Set(s.entries, account, e), log := s.log + [Write(account, e)])
  }

  /** Fill in the accounts the cache does not know. */
  function FillIn(s: State, persisted: seq<(string, int)>, now: int): State {
    if persisted == [] then s
    else
      var r := FillIn(s, persisted[..|persisted| - 1], now);
      var (account, balance) := persisted[|persisted| - 1];
      if Has(r.entries, account) then r else Stored(r, account, Entry(balance, now))
  }

  function Hydrated(s: State, persisted: Option<seq<(string, int)>>, now: int): State {
    if s.hydrated then s
    else if persisted.None? then s.(hydrated := true)
    else FillIn(s.(hydrated := true), persisted.value, now)
  }

  function Fresh(m: Entries, now: int): Entries {
    if m == [] then []
    else Fresh(m[..|m| - 1], now) + if Stale(m[|m| - 1].1, now) then [] else [m[|m| - 1]]
  }

  function Latest(m: Entries, n: nat): Entries {
    if |m| <= n then m else m[|m| - n..]
  }

  function Apply(s: State, op: Op): State {
    match op
    case HydrationStarts => s.(hydrated := true)
    case HydrationEnds(rows, now) => FillIn(s, rows, now)
    case Read(account, persisted, now) =>
      var h := Hydrated(s, persisted, now);
      var e := Get(h.entries, account);
      if e.Some? && Stale(e.value, now) then h.(entries := Delete(h.entries, account)) else h
    case Update(account, balance, now) =>
      var room := if |s.entries| >= MAX_ENTRIES && !Has(s.entries, account) then s.entries[1..] else s.entries;
      Stored(s.(entries := room), account, Entry(balance, now))
    case Sweep(now) => s.(entries := Latest(Fresh(s.entries, now), MAX_ENTRIES))
  }

  function ReadResult(s: State, account: string, persisted: Option<seq<(string, int)>>, now: int): Option<int> {
    var e := Get(Hydrated(s, persisted, now).entries, account);
    if e.None? || Stale(e.value, now) then None else Some(e.value.balance)
  }

  function Run(ops: seq<Op>): State {
    if ops == [] then EMPTY else Apply(Run(ops[..|ops| - 1]), ops[|ops| - 1])
  }

  /** What was last stored for an account. */
  function LastWrite(log: seq<Write>, account: string): Option<Entry> {
    if log == [] then None
    else if log[|log| - 1].account == account then Some(log[|log| - 1].entry)
    else LastWrite(log[..|log| - 1], account)
  }

  /** Every entry is the last thing stored for its account. */
  ghost predicate Agrees(s: State) {
    Distinct(s.entries) &&
    forall i :: 0 <= i < |s.entries| ==> LastWrite(s.log, s.entries[i].0) == Some(s.entries[i].1)
  }

  // ---------------------------------------------------------------- every reachable cache

  lemma StoredAgrees(s: State, account: string, e: Entry)
    requires Agrees(s)
    ensures Agrees(Stored(s, account, e))
  {
    var r := Stored(s, account, e);
    assert r.log[..|r.log| - 1] == s.log;
    forall i | 0 <= i < |r.entries|
      ensures LastWrite(r.log, r.entries[i].0) == Some(r.entries[i].1)
    {
      if r.entries[i].0 != account {
        assert r.entries[i] == s.entries[i];
      } else if Has(s.entries, account) {
        assert s.entries[i].0 == account;
      }
    }
  }

  lemma {:induction false} FillInAgrees(s: State, persisted: seq<(string, int)>, now: int)
    requires Agrees(s)
    ensures Agrees(FillIn(s, persisted, now))
  {
    if persisted != [] {
      FillInAgrees(s, persisted[..|persisted| - 1], now);
      var (account, balance) := persisted[|persisted| - 1];
      StoredAgrees(FillIn(s, persisted[..|persisted| - 1], now), account, Entry(balance, now));
    }
  }

  /** Hydration never touches an account that is already there. */
  lemma {:induction false} FillInOnlyAbsent(s: State, persisted: seq<(string, int)>, now: int, account: string)
    ensures Has(s.entries, account) ==> Get(FillIn(s, persisted, now).entries, account) == Get(s.entries, account)
    ensures var e := Get(FillIn(s, persisted, now).entries, account);
      !Has(s.entries, account) && e.Some? ==> e.value.updatedAt == now && (account, e.value.balance) in persisted
  {
    if persisted != [] {
      var init := persisted[..|persisted| - 1];
      var (added, balance) := persisted[|persisted| - 1];
      FillInOnlyAbsent(s, init, now, account);
      var r := FillIn(s, init, now);
      GetSet(r.entries, added, Entry(balance, now), account);
      assert (added, balance) in persisted && forall x :: x in init ==> x in persisted;
    }
  }

  /** `part` keeps some entries of `m`, in order. */
  ghost predicate Selected(part: Entries, m: Entries) {
    Distinct(part) && forall i :: 0 <= i < |part| ==> part[i] in m
  }

  lemma SelectedAgrees(s: State, part: Entries)
    requires Agrees(s) && Selected(part, s.entries)
    ensures Agrees(s.(entries := part))
  {
  }

  lemma {:induction false} FreshSelected(m: Entries, now: int)
    requires Distinct(m)
    ensures Selected(Fresh(m, now), m)
    ensures forall i :: 0 <= i < |Fresh(m, now)| ==> !Stale(Fresh(m, now)[i].1, now)
  {
    if m != [] {
      var init, last := m[..|m| - 1], m[|m| - 1];
      FreshSelected(init, now);
      var f := Fresh(init, now);
      forall i | 0 <= i < |f| ensures f[i] in m && f[i].0 != last.0 {
        var j :| 0 <= j < |init| && init[j] == f[i];
        assert m[j] == f[i];
      }
    }
  }

  lemma HydratedAgrees(s: State, persisted: Option<seq<(string, int)>>, now: int)
    requires Agrees(s)
    ensures Agrees(Hydrated(s, persisted, now))
  {
    if !s.hydrated && persisted.Some? {
      FillInAgrees(s.(hydrated := true), persisted.value, now);
    }
  }

  lemma DeleteSelected(m: Entries, account: string)
    requires Distinct(m)
    ensures Selected(Delete(m, account), m)
  {
    var i, r := Find(m, account), Delete(m, account);
    forall k | 0 <= k < |r| ensures r[k] in m {
      assert r[k] == if k < i then m[k] else m[k + 1];
    }
  }

  lemma UpdateAgrees(s: State, account: string, balance: int, now: int)
    requires Agrees(s)
    ensures Agrees(Apply(s, Update(account, balance, now)))
  {
    if |s.entries| >= MAX_ENTRIES && !Has(s.entries, account) {
      SelectedAgrees(s, s.entries[1..]);
      StoredAgrees(s.(entries := s.entries[1..]), account, Entry(balance, now));
    } else {
      StoredAgrees(s, account, Entry(balance, now));
    }
  }

  lemma ApplyAgrees(s: State, op: Op)
    requires Agrees(s)
    ensures Agrees(Apply(s, op))
  {
    match op
    case HydrationStarts =>
    case HydrationEnds(rows, now) => FillInAgrees(s, rows, now);
    case Read(account, persisted, now) =>
      var h := Hydrated(s, persisted, now);
      HydratedAgrees(s, persisted, now);
      DeleteSelected(h.entries, account);
      SelectedAgrees(h, Delete(h.entries, account));
    case Update(account, balance, now) => UpdateAgrees(s, account, balance, now);
    case Sweep(now) =>
      FreshSelected(s.entries, now);
      SelectedAgrees(s, Latest(Fresh(s.entries, now), MAX_ENTRIES));
  }

  /** Whatever the order of calls, every entry is the last thing stored for its account. */
  lemma {:induction false} RunAgrees(ops: seq<Op>)
    ensures Agrees(Run(ops))
  {
    if ops != [] {
      RunAgrees(ops[..|ops| - 1]);
      ApplyAgrees(Run(ops[..|ops| - 1]), ops[|ops| - 1]);
    }
  }

  /** In every reachable cache a read that answers gives the last balance stored for the account, by an
      update or by hydration, and that is no older than the time to live. */
  lemma ReadIsLastWrite(ops: seq<Op>, account: string, persisted: Option<seq<(string, int)>>, now: int)
    ensures var r := ReadResult(Run(ops), account, persisted, now);
      r.Some? ==>
        var last := LastWrite(Hydrated(Run(ops), persisted, now).log, account);
        last.Some? && last.value.balance == r.value && now - last.value.updatedAt <= TTL_MS
  {
    RunAgrees(ops);
    HydratedAgrees(Run(ops), persisted, now);
  }

  lemma HydratedKeeps(s: State, persisted: Option<seq<(string, int)>>, now: int, account: string)
    requires Has(s.entries, account)
    ensures Get(Hydrated(s, persisted, now).entries, account) == Get(s.entries, account)
  {
    if !s.hydrated && persisted.Some? {
      FillInOnlyAbsent(s.(hydrated := true), persisted.value, now, account);
    }
  }

  /** An update's value is read back at once, whatever the cache and the database hold. */
  lemma UpdateThenRead(
    s: State, account: string, balance: int, now: int, persisted: Option<seq<(string, int)>>, later: int)
    requires now <= later <= now + TTL_MS
    ensures ReadResult(Apply(s, Update(account, balance, now)), account, persisted, later) == Some(balance)
  {
    var room := if |s.entries| >= MAX_ENTRIES && !Has(s.entries, account) then s.entries[1..] else s.entries;
    GetSet(room, account, Entry(balance, now), account);
    HydratedKeeps(Apply(s, Update(account, balance, now)), persisted, later, account);
  }

  /** An update makes room first: it never takes the cache above 50 entries or above what it was. */
  lemma UpdateSize(s: State, account: string, balance: int, now: int)
    requires Distinct(s.entries)
    ensures var n, known := |s.entries|, Has(s.entries, account);
      |Apply(s, Update(account, balance, now)).entries| == if known then n else if n < MAX_ENTRIES then n + 1 else n
  {
    if |s.entries| >= MAX_ENTRIES && !Has(s.entries, account) {
      FindAbsent(s.entries[1..], account);
    }
  }

  /** A sweep leaves at most 50 entries, all fresh, and loses a fresh one only for want of room. */
  lemma SweepLeaves(s: State, now: int)
    requires Distinct(s.entries)
    ensures var m := Apply(s, Sweep(now)).entries;
      && |m| <= MAX_ENTRIES
      && (forall i :: 0 <= i < |m| ==> !Stale(m[i].1, now) && m[i] in s.entries)
      && (|Fresh(s.entries, now)| <= MAX_ENTRIES ==>
            forall i :: 0 <= i < |s.entries| && !Stale(s.entries[i].1, now) ==> s.entries[i] in m)
  {
    FreshSelected(s.entries, now);
    forall i | 0 <= i < |s.entries| && !Stale(s.entries[i].1, now) ensures s.entries[i] in Fresh(s.entries, now) {
      FreshKeeps(s.entries, now, i);
    }
  }

  lemma {:induction false} FreshKeeps(m: Entries, now: int, i: nat)
    requires i < |m| && !Stale(m[i].1, now)
    ensures m[i] in Fresh(m, now)
  {
    if i < |m| - 1 {
      FreshKeeps(m[..|m| - 1], now, i);
    }
  }

  lemma DeleteAt(before: Entries, x: (string, Entry), after: Entries)
    requires Distinct(before + [x] + after)
    ensures Delete(before + [x] + after, x.0) == before + after
    ensures Distinct(before + after)
  {
    var m := before + [x] + after;
    assert m[|before|] == x;
    FindAt(m, |before|);
    assert m[..|before|] + m[|before| + 1..] == before + after;
  }

  lemma FreshSnoc(m: Entries, n: nat, now: int)
    requires n < |m|
    ensures Fresh(m[..n], now) + m[n..] == Fresh(m[..n], now) + [m[n]] + m[n + 1..]
    ensures Fresh(m[..n + 1], now) == if Stale(m[n].1, now) then Fresh(m[..n], now) else Fresh(m[..n], now) + [m[n]]
  {
    assert m[..n + 1][..n] == m[..n];
    assert Fresh(m[..n], now) + [] == Fresh(m[..n], now);
  }

  // ---------------------------------------------------------------- which entries stay, and in which order

  /** An update puts its value where the account is, or behind all others; a full cache loses its first entry for
      a new account, and nothing else changes. */
  lemma UpdateExactly(s: State, account: string, balance: int, now: int)
    requires Distinct(s.entries)
    ensures var r, mine := Apply(s, Update(account, balance, now)).entries, (account, Entry(balance, now));
      if Has(s.entries, account) then r == s.entries[Find(s.entries, account) := mine]
      else r == (if |s.entries| < 50 then s.entries else s.entries[1..]) + [mine]
  {
    if |s.entries| >= MAX_ENTRIES && !Has(s.entries, account) {
      FindAbsent(s.entries[1..], account);
    }
  }

  /** Which entries are no older than five minutes. */
  function Young(m: Entries, now: int): nat -> bool {
    (t: nat) => t < |m| && now - m[t].1.updatedAt <= 300000
  }

  /** The stale entries go, everything else stays as it was. */
  lemma {:induction false} FreshExactly(m: Entries, n: nat, now: int)
    requires n <= |m|
    ensures Fresh(m[..n], now) == Sequences.Selected(m, n, Young(m, now))
  {
    if n > 0 {
      FreshExactly(m, n - 1, now);
      FreshNext(m, n - 1, now);
    }
  }

  lemma FreshNext(m: Entries, n: nat, now: int)
    requires n < |m| && Fresh(m[..n], now) == Sequences.Selected(m, n, Young(m, now))
    ensures Fresh(m[..n + 1], now) == Sequences.Selected(m, n + 1, Young(m, now))
  {
    Sequences.SelectedNext(m, n, Young(m, now));
    FreshSnoc(m, n, now);
  }

  /** A sweep leaves exactly the last fifty of the entries that are no older than five minutes. */
  lemma SweepExactly(s: State, now: int)
    ensures var m, r := s.entries, Apply(s, Sweep(now)).entries;
      var young := Sequences.Selected(m, |m|, Young(m, now));
      r == if |young| <= 50 then young else young[|young| - 50..]
  {
    FreshExactly(s.entries, |s.entries|, now);
    assert s.entries[..|s.entries|] == s.entries;
  }

  /** After the first, a read asks the database nothing: it changes nothing but the entry it finds too old. */
  lemma LaterReadsExactly(s: State, account: string, persisted: Option<seq<(string, int)>>, now: int)
    requires s.hydrated
    ensures var r := Apply(s, Read(account, persisted, now));
      var e := Get(s.entries, account);
      r == if e.Some? && now - e.value.updatedAt > 300000 then s.(entries := Delete(s.entries, account)) else s
  {
  }

  /** The first read, even one the database fails, is the only one that asks it; and an unknown account gets its
      first balance there. */
  lemma FirstReadHydrates(s: State, account: string, persisted: Option<seq<(string, int)>>, now: int)
    ensures Apply(s, Read(account, persisted, now)).hydrated
    ensures !s.hydrated && !Has(s.entries, account) ==>
      ReadResult(s, account, persisted, now)
      == if persisted.Some? then Get(persisted.value, account) else None
  {
    if !s.hydrated && persisted.Some? {
      FillInKeeps(s.(hydrated := true), persisted.value, now);
      if !Has(s.entries, account) {
        FillInFirst(s.(hydrated := true), persisted.value, now, account);
      }
    }
  }

  lemma {:induction false} FillInKeeps(s: State, persisted: seq<(string, int)>, now: int)
    ensures FillIn(s, persisted, now).hydrated == s.hydrated
  {
    if persisted != [] {
      FillInKeeps(s, persisted[..|persisted| - 1], now);
    }
  }

  lemma {:induction false} FillInFirst(s: State, persisted: seq<(string, int)>, now: int, account: string)
    requires !Has(s.entries, account)
    ensures var known, found := Get(persisted, account), Get(FillIn(s, persisted, now).entries, account);
      found == if known.Some? then Some(Entry(known.value, now)) else None
  {
    if persisted != [] {
      var init, row := persisted[..|persisted| - 1], persisted[|persisted| - 1];
      FillInFirst(s, init, now, account);
      GetSnoc(init, row, account);
      assert init + [row] == persisted;
      GetSet(FillIn(s, init, now).entries, row.0, Entry(row.1, now), account);
    }
  }

  lemma GetSnoc(init: seq<(string, int)>, row: (string, int), account: string)
    ensures Get(init + [row], account)
         == if Has(init, account) then Get(init, account) else if row.0 == account then Some(row.1) else None
  {
    var m, i := init + [row], Find(init, account);
    assert m[|init|] == row && forall j :: 0 <= j < |init| ==> m[j] == init[j];
    if i < |init| || row.0 == account {
      FindUnique(m, account, i);
    } else {
      FindAbsent(m, account);
    }
  }

  /** What stays keeps its order, and what is new comes behind it. */
  ghost predicate Follows(m: Entries, r: Entries) {
    Distinct(r) && forall i, j :: 0 <= i < j < |r| && Has(m, r[j].0) ==>
      Has(m, r[i].0) && Find(m, r[i].0) < Find(m, r[j].0)
  }

  lemma SelfFollows(m: Entries)
    requires Distinct(m)
    ensures Follows(m, m)
  {
    forall i | 0 <= i < |m| ensures Find(m, m[i].0) == i {
      FindAt(m, i);
    }
  }

  lemma FollowsOn(m: Entries, mid: Entries, r: Entries)
    requires Follows(m, mid) && Follows(mid, r)
    requires forall i :: 0 <= i < |r| && Has(m, r[i].0) ==> Has(mid, r[i].0)
    ensures Follows(m, r)
  {
    forall i, j | 0 <= i < j < |r| && Has(m, r[j].0)
      ensures Has(m, r[i].0) && Find(m, r[i].0) < Find(m, r[j].0)
    {
      var x, y := Find(mid, r[i].0), Find(mid, r[j].0);
      assert Has(mid, r[j].0) && Has(mid, r[i].0) && x < y;
      assert mid[x].0 == r[i].0 && mid[y].0 == r[j].0;
    }
  }

  lemma SetFollows(m: Entries, account: string, e: Entry)
    requires Distinct(m)
    ensures Follows(m, Set(m, account, e))
    ensures forall i :: 0 <= i < |m| ==> Has(Set(m, account, e), m[i].0)
  {
    var r := Set(m, account, e);
    SelfFollows(m);
    forall i | 0 <= i < |m| ensures r[i].0 == m[i].0 && Has(r, m[i].0) {
      FindAt(r, i);
    }
  }

  lemma {:induction false} FillInFollows(s: State, rows: seq<(string, int)>, now: int)
    requires Distinct(s.entries)
    ensures Follows(s.entries, FillIn(s, rows, now).entries)
    ensures forall i :: 0 <= i < |s.entries| ==> Has(FillIn(s, rows, now).entries, s.entries[i].0)
  {
    if rows == [] {
      SelfFollows(s.entries);
      forall i | 0 <= i < |s.entries| ensures Has(s.entries, s.entries[i].0) {
        FindAt(s.entries, i);
      }
    } else {
      var init, row := rows[..|rows| - 1], rows[|rows| - 1];
      FillInFollows(s, init, now);
      var r := FillIn(s, init, now).entries;
      if !Has(r, row.0) {
        var next := Set(r, row.0, Entry(row.1, now));
        SetFollows(r, row.0, Entry(row.1, now));
        forall i | 0 <= i < |s.entries| ensures Has(next, s.entries[i].0) {
          assert r[Find(r, s.entries[i].0)].0 == s.entries[i].0;
        }
        forall i | 0 <= i < |next| && Has(s.entries, next[i].0) ensures Has(r, next[i].0) {
          assert s.entries[Find(s.entries, next[i].0)].0 == next[i].0;
        }
        FollowsOn(s.entries, r, next);
      }
    }
  }

  /** Taking entries out keeps the order of the others. */
  lemma PickedFollow(m: Entries, r: Entries, at: seq<nat>)
    requires Distinct(m) && |r| == |at|
    requires forall i :: 0 <= i < |at| ==> at[i] < |m| && r[i] == m[at[i]]
    requires forall i, j :: 0 <= i < j < |at| ==> at[i] < at[j]
    ensures Follows(m, r)
  {
    forall i | 0 <= i < |at| ensures Find(m, r[i].0) == at[i] {
      FindAt(m, at[i]);
    }
  }

  lemma DeleteFollows(m: Entries, account: string)
    requires Distinct(m)
    ensures Follows(m, Delete(m, account))
  {
    var i, n := Find(m, account), |Delete(m, account)|;
    PickedFollow(m, Delete(m, account), seq(n, k requires 0 <= k < n => if k < i then k else k + 1));
  }

  lemma SweptFollows(s: State, now: int)
    requires Distinct(s.entries)
    ensures Follows(s.entries, Apply(s, Sweep(now)).entries)
  {
    var m, r := s.entries, Apply(s, Sweep(now)).entries;
    var keep := Young(m, now);
    var at := Sequences.Positions(|m|, keep);
    Sequences.SelectedExactly(m, |m|, keep);
    SweepExactly(s, now);
    PickedFollow(m, r, at[|at| - |r|..]);
  }

  lemma EvictionFollows(m: Entries, account: string, e: Entry)
    requires Distinct(m) && m != [] && !Has(m, account)
    ensures Follows(m, m[1..] + [(account, e)])
  {
    var r := m[1..] + [(account, e)];
    forall i | 0 <= i < |m| ensures Find(m, m[i].0) == i {
      FindAt(m, i);
    }
    assert r[|r| - 1].0 == account && forall i :: 0 <= i < |r| - 1 ==> r[i] == m[i + 1];
  }

  lemma UpdateFollows(s: State, account: string, balance: int, now: int)
    requires Distinct(s.entries)
    ensures Follows(s.entries, Apply(s, Update(account, balance, now)).entries)
  {
    if |s.entries| >= MAX_ENTRIES && !Has(s.entries, account) {
      UpdateExactly(s, account, balance, now);
      EvictionFollows(s.entries, account, Entry(balance, now));
    } else {
      SetFollows(s.entries, account, Entry(balance, now));
    }
  }

  lemma HydratedFollows(s: State, persisted: Option<seq<(string, int)>>, now: int)
    requires Distinct(s.entries)
    ensures Follows(s.entries, Hydrated(s, persisted, now).entries)
  {
    SelfFollows(s.entries);
    if !s.hydrated && persisted.Some? {
      FillInFollows(s.(hydrated := true), persisted.value, now);
    }
  }

  lemma DeletedHas(h: Entries, account: string, i: nat)
    requires Distinct(h) && i < |Delete(h, account)|
    ensures Has(h, Delete(h, account)[i].0)
  {
    DeleteSelected(h, account);
    var j :| 0 <= j < |h| && h[j] == Delete(h, account)[i];
    FindAt(h, j);
  }

  lemma DeleteFollowsOn(m: Entries, h: Entries, account: string)
    requires Follows(m, h)
    ensures Follows(m, Delete(h, account))
  {
    DeleteFollows(h, account);
    forall i | 0 <= i < |Delete(h, account)| ensures Has(h, Delete(h, account)[i].0) {
      DeletedHas(h, account, i);
    }
    FollowsOn(m, h, Delete(h, account));
  }

  lemma ReadFollows(s: State, account: string, persisted: Option<seq<(string, int)>>, now: int)
    requires Distinct(s.entries)
    ensures Follows(s.entries, Apply(s, Read(account, persisted, now)).entries)
  {
    HydratedFollows(s, persisted, now);
    DeleteFollowsOn(s.entries, Hydrated(s, persisted, now).entries, account);
  }

  lemma ApplyFollows(s: State, op: Op)
    requires Distinct(s.entries)
    ensures Follows(s.entries, Apply(s, op).entries)
  {
    match op
    case HydrationStarts => SelfFollows(s.entries);
    case HydrationEnds(rows, now) => FillInFollows(s, rows, now);
    case Read(account, persisted, now) => ReadFollows(s, account, persisted, now);
    case Update(account, balance, now) => UpdateFollows(s, account, balance, now);
    case Sweep(now) => SweptFollows(s, now);
  }

  /** After how many calls the account came into the cache to stay. */
  function Since(ops: seq<Op>, account: string): (n: nat)
    ensures n <= |ops|
  {
    if ops == [] then 0
    else if Has(Run(ops[..|ops| - 1]).entries, account) then Since(ops[..|ops| - 1], account)
    else |ops|
  }

  ghost predicate OldestFirst(ops: seq<Op>, m: Entries) {
    forall i, j :: 0 <= i < j < |m| ==> Since(ops, m[i].0) <= Since(ops, m[j].0)
  }

  lemma OldestFirstNext(ops: seq<Op>, init: seq<Op>)
    requires ops != [] && init == ops[..|ops| - 1]
    requires OldestFirst(init, Run(init).entries) && Follows(Run(init).entries, Run(ops).entries)
    ensures OldestFirst(ops, Run(ops).entries)
  {
    var m, r := Run(init).entries, Run(ops).entries;
    forall i, j | 0 <= i < j < |r| ensures Since(ops, r[i].0) <= Since(ops, r[j].0) {
      if Has(m, r[j].0) {
        var x, y := Find(m, r[i].0), Find(m, r[j].0);
        assert x < y && m[x].0 == r[i].0 && m[y].0 == r[j].0;
      }
    }
  }

  /** Every reachable cache holds its entries in the order in which their accounts came in; so the first entry,
      which a full cache loses, is the one that has been there longest. */
  lemma {:induction false} EntriesAreOldestFirst(ops: seq<Op>)
    ensures OldestFirst(ops, Run(ops).entries)
  {
    if ops != [] {
      var init := ops[..|ops| - 1];
      EntriesAreOldestFirst(init);
      RunAgrees(init);
      ApplyFollows(Run(init), ops[|ops| - 1]);
      OldestFirstNext(ops, init);
    }
  }

  // ---------------------------------------------------------------- the cache itself

  class Cache {
    var entries: Entries
    var hydrated: bool
    ghost var log: seq<Write>

    ghost function Value(): State
      reads this
    {
      State(entries, hydrated, log)
    }

    constructor ()
      ensures Value() == EMPTY
    {
      entries, hydrated, log := [], false, [];
    }

    method Store(account: string, e: Entry)
      modifies this
      ensures Value() == Stored(old(Value()), account, e)
    {
      entries := Set(entries, account, e);
      log := log + [Write(account, e)];
    }

    method HydrateFromDb(persisted: Option<seq<(string, int)>>, now: int)
      modifies this
      ensures Value() == Hydrated(old(Value()), persisted, now)
    {
      if hydrated {
        return;
      }
      hydrated := true;
      if persisted.None? {
        return;
      }
      ghost var start := Value();
      var rows := persisted.value;
      for n := 0 to |rows|
        invariant Value() == FillIn(start, rows[..n], now)
      {
        assert rows[..n + 1][..n] == rows[..n];
        var (account, balance) := rows[n];
        if !Has(entries, account) {
          Store(account, Entry(balance, now));
        }
      }
      assert rows[..|rows|] == rows;
    }

    method GetRemainingCredits(account: string, persisted: Option<seq<(string, int)>>, now: int)
      returns (r: Option<int>)
      modifies this
      ensures Value() == Apply(old(Value()), Read(account, persisted, now))
      ensures r == ReadResult(old(Value()), account, persisted, now)
    {
      HydrateFromDb(persisted, now);
      var e := Get(entries, account);
      if e.None? {
        return None;
      }
      if now - e.value.updatedAt > TTL_MS {
        entries := Delete(entries, account);
        return None;
      }
      r := Some(e.value.balance);
    }

    method UpdateRemainingCredits(account: string, balance: int, now: int)
      requires Distinct(entries)
      modifies this
      ensures Value() == Apply(old(Value()), Update(account, balance, now))
    {
      if |entries| >= MAX_ENTRIES && !Has(entries, account) {
        FindAt(entries, 0);
        entries := Delete(entries, entries[0].0);
      }
      Store(account, Entry(balance, now));
    }

    method DropStale(now: int)
      requires Distinct(entries)
      modifies this
      ensures Value() == old(Value()).(entries := Fresh(old(entries), now))
      ensures Distinct(entries)
    {
      var rows := entries;
      ghost var kept: Entries := [];
      for n := 0 to |rows|
        invariant kept == Fresh(rows[..n], now)
        invariant entries == kept + rows[n..] && Distinct(entries)
        invariant hydrated == old(hydrated) && log == old(log)
      {
        var x := rows[n];
        FreshSnoc(rows, n, now);
        assert entries == kept + [x] + rows[n + 1..];
        if Stale(x.1, now) {
          DeleteAt(kept, x, rows[n + 1..]);
          entries := Delete(entries, x.0);
        } else {
          kept := kept + [x];
        }
      }
      assert rows[..|rows|] == rows && rows[|rows|..] == [];
      assert kept + [] == kept;
    }

    method DropOldest()
      requires Distinct(entries)
      modifies this
      ensures Value() == old(Value()).(entries := Latest(old(entries), MAX_ENTRIES))
    {
      ghost var all := entries;
      while |entries| > MAX_ENTRIES
        invariant Distinct(entries) && |entries| <= |all|
        invariant entries == all[|all| - |entries|..]
        invariant |entries| < MAX_ENTRIES ==> entries == all
        invariant hydrated == old(hydrated) && log == old(log)
      {
        FindAt(entries, 0);
        entries := Delete(entries, entries[0].0);
      }
    }

    method EvictStale(now: int)
      requires Distinct(entries)
      modifies this
      ensures Value() == Apply(old(Value()), Sweep(now))
    {
      DropStale(now);
      DropOldest();
    }
  }
}
