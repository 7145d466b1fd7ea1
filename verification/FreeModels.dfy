/** The free-tier totals: models that share a quota pool count once, with the largest of their amounts. */
module FreeModels {
  import opened OrderedMap
  import Sequences

  datatype FreeType =
    | RecurringDaily | RecurringMonthly | RecurringCredit | RecurringUncapped | OneTimeInitial | Keyless | Discontinued

  datatype Model =
    Model(monthlyTokens: nat, creditTokens: nat, freeType: FreeType, poolKey: Option<string>, tosAvoid: bool)

  predicate Recurring(m: Model) {
    m.freeType.RecurringDaily? || m.freeType.RecurringMonthly? || m.freeType.Keyless?
  }

  predicate CreditGrant(m: Model) {
    m.freeType.RecurringCredit?
  }

  predicate SignupCredit(m: Model) {
    m.freeType.OneTimeInitial?
  }

  predicate Acceptable(m: Model) {
    !m.tosAvoid
  }

  function Monthly(m: Model): nat {
    m.monthlyTokens
  }

  function Credits(m: Model): nat {
    m.creditTokens
  }

  /** The pool of a model; an empty key is no pool. */
  function Pool(m: Model): string {
    m.poolKey.GetOr("")
  }

  /** What a model contributes to one sum: its pool, and its amount. */
  type Item = (string, nat)

  // ---------------------------------------------------------------- specification

  function LooseSum(items: seq<Item>): nat {
    if items == [] then 0
    else LooseSum(items[..|items| - 1]) + if items[|items| - 1].0 == "" then items[|items| - 1].1 else 0
  }

  function PlainSum(items: seq<Item>): nat {
    if items == [] then 0 else PlainSum(items[..|items| - 1]) + items[|items| - 1].1
  }

  function Max(a: nat, b: nat): nat { if a < b then b else a }

  /** The largest amount in a pool. */
  function PoolMax(items: seq<Item>, pool: string): nat {
    if items == [] then 0
    else
      var earlier, last := PoolMax(items[..|items| - 1], pool), items[|items| - 1];
      if last.0 == pool then Max(earlier, last.1) else earlier
  }

  function Pools(items: seq<Item>): set<string> {
    set x | x in items && x.0 != "" :: x.0
  }

  /** The sum, over some pools, of their largest amounts. */
  ghost function PoolSum(pools: set<string>, items: seq<Item>): nat {
    if pools == {} then 0
    else
      var p :| p in pools;
      PoolMax(items, p) + PoolSum(pools - {p}, items)
  }

  ghost function Total(items: seq<Item>): nat {
    LooseSum(items) + PoolSum(Pools(items), items)
  }

  function Items(models: seq<Model>, pick: Model -> nat, counted: Model -> bool): seq<Item> {
    if models == [] then []
    else
      var m := models[|models| - 1];
      Items(models[..|models| - 1], pick, counted) + if counted(m) then [(Pool(m), pick(m))] else []
  }

  /** Which pool is taken out first makes no difference. */
  lemma {:induction false} PoolSumTake(pools: set<string>, items: seq<Item>, p: string)
    requires p in pools
    ensures PoolSum(pools, items) == PoolMax(items, p) + PoolSum(pools - {p}, items)
    decreases pools
  {
    var q :| q in pools && PoolSum(pools, items) == PoolMax(items, q) + PoolSum(pools - {q}, items);
    if q != p {
      PoolSumTake(pools - {q}, items, p);
      PoolSumTake(pools - {p}, items, q);
      assert pools - {q} - {p} == pools - {p} - {q};
    }
  }

  // ---------------------------------------------------------------- the sum itself

  /** The pools seen so far, each with its largest amount. */
  ghost predicate Tracks(poolMax: seq<(string, nat)>, items: seq<Item>) {
    && Distinct(poolMax)
    && (forall p :: p != "" ==> Get(poolMax, p) == if p in Pools(items) then Some(PoolMax(items, p)) else None)
    && (forall i :: 0 <= i < |poolMax| ==> poolMax[i].0 != "")
  }

  lemma PoolsSnoc(items: seq<Item>, x: Item)
    ensures Pools(items + [x]) == Pools(items) + if x.0 != "" then {x.0} else {}
    ensures forall p :: PoolMax(items + [x], p) == if x.0 == p then Max(PoolMax(items, p), x.1) else PoolMax(items, p)
    ensures PlainSum(items + [x]) == PlainSum(items) + x.1
  {
    assert (items + [x])[..|items + [x]| - 1] == items;
  }

  lemma LooseSumSnoc(items: seq<Item>, x: Item)
    ensures LooseSum(items + [x]) == LooseSum(items) + if x.0 == "" then x.1 else 0
  {
    assert (items + [x])[..|items + [x]| - 1] == items;
  }

  lemma ItemsSnoc(models: seq<Model>, m: Model, pick: Model -> nat, counted: Model -> bool)
    ensures Items(models + [m], pick, counted)
         == if counted(m) then Items(models, pick, counted) + [(Pool(m), pick(m))] else Items(models, pick, counted)
  {
    assert (models + [m])[..|models + [m]| - 1] == models;
    assert Items(models, pick, counted) + [] == Items(models, pick, counted);
  }

  lemma {:induction false} PoolMaxOutside(items: seq<Item>, p: string)
    requires p != "" && p !in Pools(items)
    ensures PoolMax(items, p) == 0
  {
    if items != [] {
      var init, x := items[..|items| - 1], items[|items| - 1];
      assert items == init + [x];
      PoolsSnoc(init, x);
      PoolMaxOutside(init, p);
    }
  }

  lemma TracksNext(poolMax: seq<(string, nat)>, items: seq<Item>, x: Item)
    requires Tracks(poolMax, items)
    ensures x.0 == "" ==> Tracks(poolMax, items + [x])
    ensures x.0 != "" ==> Tracks(Set(poolMax, x.0, Max(Get(poolMax, x.0).GetOr(0), x.1)), items + [x])
  {
    PoolsSnoc(items, x);
    if x.0 != "" {
      var v := Max(Get(poolMax, x.0).GetOr(0), x.1);
      if x.0 !in Pools(items) {
        PoolMaxOutside(items, x.0);
      }
      forall p ensures Get(Set(poolMax, x.0, v), p) == if p == x.0 then Some(v) else Get(poolMax, p) {
        GetSet(poolMax, x.0, v, p);
      }
    }
  }

  /** The keys of the first `n` entries. */
  function KeySet(m: seq<(string, nat)>, n: nat): set<string>
    requires n <= |m|
  {
    set i | 0 <= i < n :: m[i].0
  }

  lemma KeysAreAllPools(poolMax: seq<(string, nat)>, items: seq<Item>)
    requires Tracks(poolMax, items)
    ensures KeySet(poolMax, |poolMax|) == Pools(items)
  {
    forall p ensures p in KeySet(poolMax, |poolMax|) <==> p in Pools(items) {
      var at := Find(poolMax, p);
      if at < |poolMax| {
        assert poolMax[at].0 == p && Get(poolMax, p) == Some(poolMax[at].1);
      } else {
        assert Get(poolMax, p) == None;
      }
    }
  }

  method TrackPools(models: seq<Model>, pick: Model -> nat, counted: Model -> bool)
    returns (poolMax: seq<(string, nat)>, loose: nat)
    ensures Tracks(poolMax, Items(models, pick, counted))
    ensures loose == LooseSum(Items(models, pick, counted))
  {
    poolMax, loose := [], 0;
    for n := 0 to |models|
      invariant Tracks(poolMax, Items(models[..n], pick, counted))
      invariant loose == LooseSum(Items(models[..n], pick, counted))
    {
      var m := models[n];
      ghost var items := Items(models[..n], pick, counted);
      assert models[..n + 1] == models[..n] + [m];
      ItemsSnoc(models[..n], m, pick, counted);
      if counted(m) {
        TracksNext(poolMax, items, (Pool(m), pick(m)));
        LooseSumSnoc(items, (Pool(m), pick(m)));
        if Pool(m) != "" {
          poolMax := Set(poolMax, Pool(m), Max(Get(poolMax, Pool(m)).GetOr(0), pick(m)));
        } else {
          loose := loose + pick(m);
        }
      }
    }
    assert models[..|models|] == models;
  }

  lemma KeySetNext(m: seq<(string, nat)>, n: nat, items: seq<Item>)
    requires Tracks(m, items) && n < |m|
    ensures PoolSum(KeySet(m, n + 1), items) == PoolSum(KeySet(m, n), items) + m[n].1
  {
    FindAt(m, n);
    assert Get(m, m[n].0) == Some(m[n].1);
    assert KeySet(m, n + 1) == KeySet(m, n) + {m[n].0};
    assert m[n].0 !in KeySet(m, n);
    assert KeySet(m, n + 1) - {m[n].0} == KeySet(m, n);
    PoolSumTake(KeySet(m, n + 1), items, m[n].0);
  }

  /** Each pool once, at its maximum, and every model without a pool on its own. */
  method DedupedSum(models: seq<Model>, pick: Model -> nat, counted: Model -> bool) returns (total: nat)
    ensures total == Total(Items(models, pick, counted))
  {
    ghost var items := Items(models, pick, counted);
    var poolMax, loose := TrackPools(models, pick, counted);
    total := loose;
    assert KeySet(poolMax, 0) == {};
    for n := 0 to |poolMax|
      invariant total == LooseSum(items) + PoolSum(KeySet(poolMax, n), items)
    {
      KeySetNext(poolMax, n, items);
      total := total + poolMax[n].1;
    }
    KeysAreAllPools(poolMax, items);
  }

  // ---------------------------------------------------------------- the sum does not depend on the order

  lemma {:induction false} PoolMaxIs(items: seq<Item>, p: string)
    ensures forall x :: x in items && x.0 == p ==> x.1 <= PoolMax(items, p)
    ensures PoolMax(items, p) == 0 || (p, PoolMax(items, p)) in items
  {
    if items != [] {
      var init, x := items[..|items| - 1], items[|items| - 1];
      PoolMaxIs(init, p);
      assert items == init + [x];
    }
  }

  /** A pool's maximum only depends on what is there, and grows with it. */
  lemma PoolMaxMonotone(a: seq<Item>, b: seq<Item>, p: string)
    requires forall x :: x in a ==> x in b
    ensures PoolMax(a, p) <= PoolMax(b, p)
  {
    PoolMaxIs(a, p);
    PoolMaxIs(b, p);
  }

  lemma {:induction false} PoolSumMonotone(s: set<string>, t: set<string>, a: seq<Item>, b: seq<Item>)
    requires s <= t && forall x :: x in a ==> x in b
    ensures PoolSum(s, a) <= PoolSum(t, b)
    decreases t
  {
    if t != {} {
      var p :| p in t;
      PoolSumTake(t, b, p);
      PoolMaxMonotone(a, b, p);
      if p in s {
        PoolSumTake(s, a, p);
      }
      PoolSumMonotone(s - {p}, t - {p}, a, b);
      if p !in s {
        assert s - {p} == s;
      }
    }
  }

  lemma {:induction false} LooseSumTake(items: seq<Item>, i: nat)
    requires i < |items|
    ensures LooseSum(items) == LooseSum(items[..i] + items[i + 1..]) + if items[i].0 == "" then items[i].1 else 0
  {
    var init, x := items[..|items| - 1], items[|items| - 1];
    if i < |init| {
      LooseSumTake(init, i);
      assert items[..i] + items[i + 1..] == (init[..i] + init[i + 1..]) + [x];
      LooseSumSnoc(init[..i] + init[i + 1..], x);
    } else {
      assert items[..i] + items[i + 1..] == init;
    }
  }

  lemma WithoutOne<T>(b: seq<T>, i: nat)
    requires i < |b|
    ensures multiset(b[..i] + b[i + 1..]) == multiset(b) - multiset{b[i]}
  {
    assert b == b[..i] + [b[i]] + b[i + 1..];
  }

  lemma {:induction false} LooseSumPermuted(a: seq<Item>, b: seq<Item>)
    requires multiset(a) == multiset(b)
    ensures LooseSum(a) == LooseSum(b)
  {
    if a == [] {
      assert |multiset(b)| == 0;
    } else {
      var x := a[|a| - 1];
      WithoutOne(a, |a| - 1);
      assert a[..|a| - 1] + a[|a|..] == a[..|a| - 1];
      assert x in multiset(b);
      var i :| 0 <= i < |b| && b[i] == x;
      WithoutOne(b, i);
      LooseSumTake(b, i);
      LooseSumPermuted(a[..|a| - 1], b[..i] + b[i + 1..]);
    }
  }

  /** Reordering the amounts changes no total. */
  lemma TotalPermuted(a: seq<Item>, b: seq<Item>)
    requires multiset(a) == multiset(b)
    ensures Total(a) == Total(b)
  {
    assert forall x :: x in a <==> x in multiset(a);
    assert forall x :: x in b <==> x in multiset(b);
    LooseSumPermuted(a, b);
    assert Pools(a) == Pools(b);
    PoolSumMonotone(Pools(a), Pools(b), a, b);
    PoolSumMonotone(Pools(b), Pools(a), b, a);
  }

  /** What one model puts into a sum. */
  function Share(m: Model, pick: Model -> nat, counted: Model -> bool): multiset<Item> {
    if counted(m) then multiset{(Pool(m), pick(m))} else multiset{}
  }

  lemma ItemsAdd(models: seq<Model>, m: Model, pick: Model -> nat, counted: Model -> bool)
    ensures multiset(Items(models + [m], pick, counted))
         == multiset(Items(models, pick, counted)) + Share(m, pick, counted)
  {
    ItemsSnoc(models, m, pick, counted);
  }

  lemma Swapped(a: multiset<Item>, b: multiset<Item>, c: multiset<Item>)
    ensures (a + b) + c == (a + c) + b
  {
  }

  lemma TakenSnoc<T>(init: seq<T>, i: nat, m: T)
    requires i < |init|
    ensures (init + [m])[..i] + (init + [m])[i + 1..] == (init[..i] + init[i + 1..]) + [m]
  {
  }

  lemma ItemsTakeStep(init: seq<Model>, i: nat, m: Model, pick: Model -> nat, counted: Model -> bool)
    requires i < |init|
    requires multiset(Items(init, pick, counted))
          == multiset(Items(init[..i] + init[i + 1..], pick, counted)) + Share(init[i], pick, counted)
    ensures var models := init + [m];
      multiset(Items(models, pick, counted))
      == multiset(Items(models[..i] + models[i + 1..], pick, counted)) + Share(init[i], pick, counted)
  {
    var rest := init[..i] + init[i + 1..];
    TakenSnoc(init, i, m);
    ItemsAdd(init, m, pick, counted);
    ItemsAdd(rest, m, pick, counted);
    Swapped(multiset(Items(rest, pick, counted)), Share(init[i], pick, counted), Share(m, pick, counted));
  }

  lemma {:induction false} ItemsTake(models: seq<Model>, i: nat, pick: Model -> nat, counted: Model -> bool)
    requires i < |models|
    ensures multiset(Items(models, pick, counted))
         == multiset(Items(models[..i] + models[i + 1..], pick, counted)) + Share(models[i], pick, counted)
  {
    var init, m := models[..|models| - 1], models[|models| - 1];
    assert models == init + [m];
    ItemsAdd(init, m, pick, counted);
    if i < |init| {
      ItemsTake(init, i, pick, counted);
      ItemsTakeStep(init, i, m, pick, counted);
    } else {
      assert models[..i] + models[i + 1..] == init;
    }
  }

  lemma {:induction false} ItemsPermuted(a: seq<Model>, b: seq<Model>, pick: Model -> nat, counted: Model -> bool)
    requires multiset(a) == multiset(b)
    ensures multiset(Items(a, pick, counted)) == multiset(Items(b, pick, counted))
  {
    if a == [] {
      assert |multiset(b)| == 0;
    } else {
      var last := |a| - 1;
      WithoutOne(a, last);
      assert a[last] in multiset(b);
      var i :| 0 <= i < |b| && b[i] == a[last];
      WithoutOne(b, i);
      ItemsTake(a, last, pick, counted);
      ItemsTake(b, i, pick, counted);
      assert a[..last] + a[last + 1..] == a[..last];
      ItemsPermuted(a[..last], b[..i] + b[i + 1..], pick, counted);
    }
  }

  /** Reordering the models changes no total. */
  lemma ModelsPermuted(a: seq<Model>, b: seq<Model>, pick: Model -> nat, counted: Model -> bool)
    requires multiset(a) == multiset(b)
    ensures Total(Items(a, pick, counted)) == Total(Items(b, pick, counted))
  {
    ItemsPermuted(a, b, pick, counted);
    TotalPermuted(Items(a, pick, counted), Items(b, pick, counted));
  }

  // ---------------------------------------------------------------- bounds

  /** Amounts that one more item leaves as they are. */
  lemma {:induction false} PoolSumUnmoved(s: set<string>, items: seq<Item>, x: Item)
    requires x.0 !in s
    ensures PoolSum(s, items + [x]) == PoolSum(s, items)
    decreases s
  {
    PoolsSnoc(items, x);
    if s != {} {
      var p :| p in s;
      PoolSumTake(s, items, p);
      PoolSumTake(s, items + [x], p);
      PoolSumUnmoved(s - {p}, items, x);
    }
  }

  /** What one more item adds: all of it outside a pool, in a pool only what exceeds the maximum. */
  lemma TotalSnoc(items: seq<Item>, x: Item)
    ensures Total(items + [x]) == Total(items) +
      (if x.0 == "" then x.1 else if x.1 > PoolMax(items, x.0) then x.1 - PoolMax(items, x.0) else 0)
  {
    var more := items + [x];
    PoolsSnoc(items, x);
    LooseSumSnoc(items, x);
    if x.0 == "" {
      assert Pools(more) == Pools(items);
      PoolSumUnmoved(Pools(items), items, x);
    } else {
      PoolSumTake(Pools(more), more, x.0);
      assert Pools(more) - {x.0} == Pools(items) - {x.0};
      PoolSumUnmoved(Pools(items) - {x.0}, items, x);
      if x.0 in Pools(items) {
        PoolSumTake(Pools(items), items, x.0);
      } else {
        PoolMaxOutside(items, x.0);
        assert Pools(items) - {x.0} == Pools(items);
      }
    }
  }

  /** Sharing a pool never counts for more than standing alone. */
  lemma {:induction false} TotalWithinPlainSum(items: seq<Item>)
    ensures Total(items) <= PlainSum(items)
  {
    if items != [] {
      var init, x := items[..|items| - 1], items[|items| - 1];
      TotalWithinPlainSum(init);
      TotalSnoc(init, x);
      assert items == init + [x];
    }
  }

  function Filtered(models: seq<Model>, keep: Model -> bool): seq<Model> {
    if models == [] then []
    else Filtered(models[..|models| - 1], keep) + if keep(models[|models| - 1]) then [models[|models| - 1]] else []
  }

  lemma {:induction false} FilteredWithin(
    models: seq<Model>, keep: Model -> bool, pick: Model -> nat, counted: Model -> bool)
    ensures forall x :: x in Items(Filtered(models, keep), pick, counted) ==> x in Items(models, pick, counted)
  {
    if models != [] {
      var init, m := models[..|models| - 1], models[|models| - 1];
      FilteredWithin(init, keep, pick, counted);
      ItemsSnoc(Filtered(init, keep), m, pick, counted);
      assert Filtered(init, keep) + [] == Filtered(init, keep);
    }
  }

  lemma LooseSumNext(models: seq<Model>, m: Model, pick: Model -> nat, counted: Model -> bool)
    ensures LooseSum(Items(models + [m], pick, counted))
         == LooseSum(Items(models, pick, counted)) + if counted(m) && Pool(m) == "" then pick(m) else 0
  {
    ItemsSnoc(models, m, pick, counted);
    LooseSumSnoc(Items(models, pick, counted), (Pool(m), pick(m)));
  }

  lemma {:induction false} FilteredLooseSum(
    models: seq<Model>, keep: Model -> bool, pick: Model -> nat, counted: Model -> bool)
    ensures LooseSum(Items(Filtered(models, keep), pick, counted)) <= LooseSum(Items(models, pick, counted))
  {
    if models != [] {
      var init, m := models[..|models| - 1], models[|models| - 1];
      FilteredLooseSum(init, keep, pick, counted);
      assert models == init + [m];
      LooseSumNext(init, m, pick, counted);
      if keep(m) {
        LooseSumNext(Filtered(init, keep), m, pick, counted);
      } else {
        assert Filtered(models, keep) == Filtered(init, keep) + [] == Filtered(init, keep);
      }
    }
  }

  /** Leaving models out never raises a total. */
  lemma TotalOfFiltered(models: seq<Model>, keep: Model -> bool, pick: Model -> nat, counted: Model -> bool)
    ensures Total(Items(Filtered(models, keep), pick, counted)) <= Total(Items(models, pick, counted))
  {
    var few, all := Items(Filtered(models, keep), pick, counted), Items(models, pick, counted);
    FilteredWithin(models, keep, pick, counted);
    FilteredLooseSum(models, keep, pick, counted);
    assert Pools(few) <= Pools(all);
    PoolSumMonotone(Pools(few), Pools(all), few, all);
  }

  // ---------------------------------------------------------------- the published totals

  datatype Totals = Totals(steady: nat, steadyWithCredits: nat, firstMonth: nat)

  ghost function TotalsOf(models: seq<Model>): Totals {
    var steady := Total(Items(models, Monthly, Recurring));
    var credits := Total(Items(models, Credits, CreditGrant));
    var oneTime := Total(Items(models, Credits, SignupCredit));
    Totals(steady, steady + credits, steady + credits + oneTime)
  }

  method ComputeFreeModelTotals(budgets: seq<Model>, excludeTosAvoid: bool) returns (t: Totals)
    ensures t == TotalsOf(if excludeTosAvoid then Filtered(budgets, Acceptable) else budgets)
    ensures t.steady <= t.steadyWithCredits <= t.firstMonth
  {
    var models := if excludeTosAvoid then Filtered(budgets, Acceptable) else budgets;
    var steady := DedupedSum(models, Monthly, Recurring);
    var credits := DedupedSum(models, Credits, CreditGrant);
    var oneTime := DedupedSum(models, Credits, SignupCredit);
    t := Totals(steady, steady + credits, steady + credits + oneTime);
  }

  /** Dropping the models to avoid lowers every published total or leaves it. */
  lemma AvoidingLowersTotals(budgets: seq<Model>)
    ensures var all, few := TotalsOf(budgets), TotalsOf(Filtered(budgets, Acceptable));
      few.steady <= all.steady && few.steadyWithCredits <= all.steadyWithCredits && few.firstMonth <= all.firstMonth
  {
    TotalOfFiltered(budgets, Acceptable, Monthly, Recurring);
    TotalOfFiltered(budgets, Acceptable, Credits, CreditGrant);
    TotalOfFiltered(budgets, Acceptable, Credits, SignupCredit);
  }

  // ---------------------------------------------------------------- what counts, and for how much

  /** A pool counts for the largest of its amounts. */
  lemma {:induction false} PoolMaxExactly(items: seq<Item>, pool: string)
    ensures forall i :: 0 <= i < |items| && items[i].0 == pool ==> items[i].1 <= PoolMax(items, pool)
    ensures PoolMax(items, pool) == 0
         || exists i :: 0 <= i < |items| && items[i] == (pool, PoolMax(items, pool))
  {
    if items != [] {
      var init := items[..|items| - 1];
      PoolMaxExactly(init, pool);
      assert forall i :: 0 <= i < |init| ==> items[i] == init[i];
    }
  }

  function Kept(models: seq<Model>): nat -> bool {
    (t: nat) => t < |models| && !models[t].tosAvoid
  }

  /** Exactly the models to avoid are left out. */
  lemma {:induction false} FilteredExactly(models: seq<Model>, n: nat)
    requires n <= |models|
    ensures Filtered(models[..n], Acceptable) == Sequences.Selected(models, n, Kept(models))
  {
    if n > 0 {
      FilteredExactly(models, n - 1);
      Sequences.SelectedNext(models, n - 1, Kept(models));
      assert models[..n][..n - 1] == models[..n - 1];
      assert Filtered(models[..n - 1], Acceptable) + [] == Filtered(models[..n - 1], Acceptable);
    }
  }

  /** What a model on its own counts for, by its type: monthly tokens in every total, recurring credits from the
      second on, a signup credit in the third only, and no limit or no offer for nothing. */
  function Alone(m: Model): Totals {
    match m.freeType
    case RecurringDaily => Totals(m.monthlyTokens, m.monthlyTokens, m.monthlyTokens)
    case RecurringMonthly => Totals(m.monthlyTokens, m.monthlyTokens, m.monthlyTokens)
    case Keyless => Totals(m.monthlyTokens, m.monthlyTokens, m.monthlyTokens)
    case RecurringCredit => Totals(0, m.creditTokens, m.creditTokens)
    case OneTimeInitial => Totals(0, 0, m.creditTokens)
    case RecurringUncapped => Totals(0, 0, 0)
    case Discontinued => Totals(0, 0, 0)
  }

  lemma LooseTotal(models: seq<Model>, m: Model, pick: Model -> nat, counted: Model -> bool)
    requires Pool(m) == ""
    ensures Total(Items(models + [m], pick, counted))
         == Total(Items(models, pick, counted)) + if counted(m) then pick(m) else 0
  {
    ItemsSnoc(models, m, pick, counted);
    if counted(m) {
      TotalSnoc(Items(models, pick, counted), ("", pick(m)));
    } else {
      assert Items(models, pick, counted) + [] == Items(models, pick, counted);
    }
  }

  lemma AloneCounts(m: Model)
    ensures Alone(m).steady == if Recurring(m) then Monthly(m) else 0
    ensures Alone(m).steadyWithCredits - Alone(m).steady == if CreditGrant(m) then Credits(m) else 0
    ensures Alone(m).firstMonth - Alone(m).steadyWithCredits == if SignupCredit(m) then Credits(m) else 0
  {
  }

  /** One more model outside all pools adds to each published total what it counts for on its own. */
  lemma LooseModelAdds(models: seq<Model>, m: Model)
    requires m.poolKey.GetOr("") == ""
    ensures var was, now, own := TotalsOf(models), TotalsOf(models + [m]), Alone(m);
      && now.steady == was.steady + own.steady
      && now.steadyWithCredits == was.steadyWithCredits + own.steadyWithCredits
      && now.firstMonth == was.firstMonth + own.firstMonth
  {
    AloneCounts(m);
    LooseTotal(models, m, Monthly, Recurring);
    LooseTotal(models, m, Credits, CreditGrant);
    LooseTotal(models, m, Credits, SignupCredit);
  }
}
