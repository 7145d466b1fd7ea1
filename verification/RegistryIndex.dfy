/** The shared registry helpers: a memoised index from model to provider, parsing by prefix or by index,
    and the flat listing. */
module RegistryIndex {
  import opened JsText
  import opened OrderedMap

  datatype Provider = Provider(id: string, alias: Option<string>, models: seq<string>)

  type Registry = seq<Provider>

  // ---------------------------------------------------------------- specification

  /** The plain scan: the first provider that lists the model. */
  function Lister(reg: Registry, model: string): Option<string> {
    if reg == [] then None
    else
      var earlier := Lister(reg[..|reg| - 1], model);
      if earlier.Some? then earlier
      else if model in reg[|reg| - 1].models then Some(reg[|reg| - 1].id)
      else None
  }

  ghost predicate Indexes(index: map<string, string>, reg: Registry) {
    forall m :: (if m in index then Some(index[m]) else None) == Lister(reg, m)
  }

  /** The names a provider may be addressed by. */
  function Prefixes(p: Provider): seq<string> {
    (if p.id != "" then [p.id] else []) + if p.alias.GetOr("") != "" then [p.alias.value] else []
  }

  /** What is left of `s` behind the provider's id or, failing that, its alias. */
  function Behind(p: Provider, s: string): Option<string> {
    if StartsWith(s, p.id + "/") then Some(s[|p.id| + 1..])
    else if p.alias.GetOr("") != "" && StartsWith(s, p.alias.value + "/") then Some(s[|p.alias.value| + 1..])
    else None
  }

  /** The first provider whose prefix `s` carries, with the rest. */
  function Addressed(reg: Registry, s: string): Option<(string, string)> {
    if reg == [] then None
    else
      var earlier, last := Addressed(reg[..|reg| - 1], s), reg[|reg| - 1];
      if earlier.Some? then earlier
      else if Behind(last, s).Some? then Some((last.id, Behind(last, s).value))
      else None
  }

  function Parse(reg: Registry, s: Option<string>): (Option<string>, Option<string>) {
    if s.None? || s.value == "" then (None, None)
    else
      var direct, lister := Addressed(reg, s.value), Lister(reg, s.value);
      if direct.Some? then (Some(direct.value.0), Some(direct.value.1))
      else if lister.GetOr("") != "" then (lister, s)
      else (None, s)
  }

  // ---------------------------------------------------------------- the helpers themselves

  class Helper {
    const registry: Registry
    var cached: Option<map<string, string>>

    ghost predicate Valid()
      reads this
    {
      cached.Some? ==> Indexes(cached.value, registry)
    }

    constructor (registry: Registry)
      ensures Valid() && this.registry == registry
    {
      this.registry := registry;
      cached := None;
    }

    /** Built once; the first provider wins. */
    method GetIndex() returns (index: map<string, string>)
      requires Valid()
      modifies this
      ensures Valid() && Indexes(index, registry) && cached == Some(index)
      ensures old(cached).Some? ==> cached == old(cached)
    {
      if cached.Some? {
        return cached.value;
      }
      index := map[];
      for i := 0 to |registry|
        invariant Indexes(index, registry[..i])
      {
        var p := registry[i];
        ghost var before := index;
        for k := 0 to |p.models|
          invariant forall m :: m in index <==> m in before || m in p.models[..k]
          invariant forall m :: m in index ==> index[m] == if m in before then before[m] else p.id
        {
          if p.models[k] !in index {
            index := index[p.models[k] := p.id];
          }
          assert p.models[..k + 1] == p.models[..k] + [p.models[k]];
        }
        assert p.models[..|p.models|] == p.models && registry[..i + 1][..i] == registry[..i];
        forall m ensures (if m in index then Some(index[m]) else None) == Lister(registry[..i + 1], m) {
          assert (if m in before then Some(before[m]) else None) == Lister(registry[..i], m);
        }
      }
      assert registry[..|registry|] == registry;
      cached := Some(index);
    }

    /** Parsing agrees with the plain scan, cache or no cache. */
    method ParseModel(s: Option<string>) returns (r: (Option<string>, Option<string>))
      requires Valid()
      modifies this
      ensures Valid() && r == Parse(registry, s)
    {
      if s.None? || s.value == "" {
        return (None, None);
      }
      for i := 0 to |registry|
        invariant Addressed(registry[..i], s.value) == None && Valid()
      {
        assert registry[..i + 1][..i] == registry[..i];
        var rest := Behind(registry[i], s.value);
        if rest.Some? {
          AddressedFirst(registry, i, s.value);
          return (Some(registry[i].id), rest);
        }
      }
      assert registry[..|registry|] == registry;
      var index := GetIndex();
      assert (if s.value in index then Some(index[s.value]) else None) == Lister(registry, s.value);
      if s.value in index && index[s.value] != "" {
        return (Some(index[s.value]), s);
      }
      r := (None, s);
    }

    /** Every model under every name of its provider. */
    method GetAllModels() returns (all: seq<(string, string)>)
      ensures all == Listing(registry)
    {
      all := [];
      for i := 0 to |registry|
        invariant all == Listing(registry[..i])
      {
        assert registry[..i + 1][..i] == registry[..i];
        var rows := PrintProvider(registry[i]);
        all := all + rows;
      }
      assert registry[..|registry|] == registry;
    }
  }

  method PrintProvider(p: Provider) returns (rows: seq<(string, string)>)
    ensures rows == ProviderRows(p, |p.models|)
  {
    rows := [];
    for k := 0 to |p.models|
      invariant rows == ProviderRows(p, k)
    {
      var prefixes := Prefixes(p);
      ghost var before := rows;
      for x := 0 to |prefixes|
        invariant rows == before + ModelRows(p, p.models[k], x)
      {
        rows := rows + [(prefixes[x] + "/" + p.models[k], p.id)];
      }
    }
  }

  /** The ids of one model, under the first `x` names of its provider. */
  function ModelRows(p: Provider, model: string, x: nat): seq<(string, string)>
    requires x <= |Prefixes(p)|
  {
    seq(x, y requires 0 <= y < x => (Prefixes(p)[y] + "/" + model, p.id))
  }

  function ProviderRows(p: Provider, k: nat): seq<(string, string)>
    requires k <= |p.models|
  {
    if k == 0 then [] else ProviderRows(p, k - 1) + ModelRows(p, p.models[k - 1], |Prefixes(p)|)
  }

  /** The listing, provider by provider. */
  function Listing(reg: Registry): seq<(string, string)> {
    if reg == [] then [] else Listing(reg[..|reg| - 1]) + ProviderRows(reg[|reg| - 1], |reg[|reg| - 1].models|)
  }

  /** `row` prints a model of provider `i` under one of its names. */
  ghost predicate PrintedAt(reg: Registry, i: int, row: (string, string)) {
    0 <= i < |reg| && row in ProviderRows(reg[i], |reg[i].models|)
  }

  lemma {:induction false} ListingRows(reg: Registry, row: (string, string))
    ensures row in Listing(reg) <==> exists i :: PrintedAt(reg, i, row)
  {
    if reg != [] {
      var init := reg[..|reg| - 1];
      ListingRows(init, row);
      if i :| PrintedAt(init, i, row) {
        assert PrintedAt(reg, i, row);
      }
      if i :| PrintedAt(reg, i, row) && row !in Listing(init) {
        assert i < |init| ==> PrintedAt(init, i, row);
      }
      if row in ProviderRows(reg[|reg| - 1], |reg[|reg| - 1].models|) {
        assert PrintedAt(reg, |reg| - 1, row);
      }
    }
  }

  /** `row` is the id of `model` under the name `prefix` of its provider. */
  predicate Prints(p: Provider, prefix: string, model: string, row: (string, string)) {
    prefix in Prefixes(p) && row == (prefix + "/" + model, p.id)
  }

  lemma ModelRowsAre(p: Provider, model: string, row: (string, string))
    ensures row in ModelRows(p, model, |Prefixes(p)|) <==> exists prefix :: Prints(p, prefix, model, row)
  {
    var names, rows := Prefixes(p), ModelRows(p, model, |Prefixes(p)|);
    if row in rows {
      var y :| 0 <= y < |rows| && rows[y] == row;
      assert Prints(p, names[y], model, row);
    }
    if prefix :| Prints(p, prefix, model, row) {
      var y :| 0 <= y < |names| && names[y] == prefix;
      assert rows[y] == row;
    }
  }

  lemma {:induction false} ProviderRowsAre(p: Provider, k: nat, row: (string, string))
    requires k <= |p.models|
    ensures row in ProviderRows(p, k) <==> exists prefix, j :: 0 <= j < k && Prints(p, prefix, p.models[j], row)
  {
    if k > 0 {
      ProviderRowsAre(p, k - 1, row);
      ModelRowsAre(p, p.models[k - 1], row);
    }
  }

  // ---------------------------------------------------------------- round trip, exactly

  lemma {:induction false} AddressedFirst(reg: Registry, i: nat, s: string)
    requires i < |reg| && Behind(reg[i], s).Some?
    requires Addressed(reg[..i], s) == None
    ensures Addressed(reg, s) == Some((reg[i].id, Behind(reg[i], s).value))
  {
    var init := reg[..|reg| - 1];
    if i < |init| {
      assert init[..i] == reg[..i];
      AddressedFirst(init, i, s);
    }
  }

  lemma {:induction false} AddressedNone(reg: Registry, s: string)
    requires forall i :: 0 <= i < |reg| ==> Behind(reg[i], s) == None
    ensures Addressed(reg, s) == None
  {
    if reg != [] {
      AddressedNone(reg[..|reg| - 1], s);
    }
  }

  /** Ids are distinct, and no id or alias holds a slash. */
  ghost predicate WellFormed(reg: Registry) {
    && (forall i, j :: 0 <= i < j < |reg| ==> reg[i].id != reg[j].id)
    && (forall i :: 0 <= i < |reg| ==> SlashFree(reg[i].id) && SlashFree(reg[i].alias.GetOr("")))
  }

  lemma SlashFreePrefix(q: string, prefix: string, m: string)
    requires SlashFree(q) && SlashFree(prefix)
    ensures StartsWith(prefix + "/" + m, q + "/") <==> q == prefix
    ensures (prefix + "/" + m)[|prefix| + 1..] == m
  {
    var s := prefix + "/" + m;
    IndexOfSlash(prefix, m);
    if StartsWith(s, q + "/") {
      PrefixSplit(s, q);
      IndexOfSlash(q, s[|q| + 1..]);
    }
  }

  /** A printed id is behind exactly the providers that go by its prefix. */
  lemma BehindPrinted(p: Provider, prefix: string, m: string)
    requires SlashFree(p.id) && SlashFree(p.alias.GetOr("")) && SlashFree(prefix) && prefix != ""
    ensures Behind(p, prefix + "/" + m) == if prefix in Prefixes(p) then Some(m) else None
  {
    SlashFreePrefix(p.id, prefix, m);
    SlashFreePrefix(p.alias.GetOr(""), prefix, m);
  }

  /** Provider `i`, which has models, goes by a name of the earlier provider `j`. */
  ghost predicate Shadows(reg: Registry, j: int, i: int, prefix: string) {
    && 0 <= j < i < |reg| && reg[i].models != []
    && prefix in Prefixes(reg[i]) && prefix in Prefixes(reg[j])
  }

  /** No provider with models goes by a name of an earlier one. */
  ghost predicate Unshadowed(reg: Registry) {
    forall j, i, prefix :: !Shadows(reg, j, i, prefix)
  }

  /** Every id printed for a model parses back to its provider and that model. */
  ghost predicate RoundTrips(reg: Registry) {
    forall i, prefix, m :: 0 <= i < |reg| && prefix in Prefixes(reg[i]) && m in reg[i].models ==>
      Parse(reg, Some(prefix + "/" + m)) == (Some(reg[i].id), Some(m))
  }

  /** `row` prints `model` of provider `i` and parses back to both. */
  ghost predicate ParsesBack(reg: Registry, row: (string, string), i: int, prefix: string, model: string) {
    && 0 <= i < |reg| && model in reg[i].models && Prints(reg[i], prefix, model, row)
    && Parse(reg, Some(row.0)) == (Some(row.1), Some(model))
  }

  /** So every row of the listing parses back to its provider and to a model that the row prints. */
  lemma ListingParses(reg: Registry, row: (string, string))
    requires WellFormed(reg) && Unshadowed(reg) && row in Listing(reg)
    ensures exists i, prefix, model :: ParsesBack(reg, row, i, prefix, model)
  {
    RoundTripExactly(reg);
    ListingRows(reg, row);
    var i :| PrintedAt(reg, i, row);
    ProviderRowsAre(reg[i], |reg[i].models|, row);
    var prefix, j :| 0 <= j < |reg[i].models| && Prints(reg[i], prefix, reg[i].models[j], row);
    assert ParsesBack(reg, row, i, prefix, reg[i].models[j]);
  }

  lemma ParsePrinted(reg: Registry, j: nat, prefix: string, m: string)
    requires WellFormed(reg) && j < |reg| && prefix in Prefixes(reg[j])
    requires forall k :: 0 <= k < j ==> prefix !in Prefixes(reg[k])
    ensures Parse(reg, Some(prefix + "/" + m)) == (Some(reg[j].id), Some(m))
  {
    var s := prefix + "/" + m;
    forall k | 0 <= k < j ensures Behind(reg[..j][k], s) == None {
      BehindPrinted(reg[k], prefix, m);
    }
    AddressedNone(reg[..j], s);
    BehindPrinted(reg[j], prefix, m);
    AddressedFirst(reg, j, s);
  }

  lemma {:induction false} FirstOwner(reg: Registry, i: nat, prefix: string) returns (j: nat)
    requires i < |reg| && prefix in Prefixes(reg[i])
    ensures j <= i && prefix in Prefixes(reg[j])
    ensures forall k :: 0 <= k < j ==> prefix !in Prefixes(reg[k])
  {
    if k :| 0 <= k < i && prefix in Prefixes(reg[k]) {
      j := FirstOwner(reg, k, prefix);
    } else {
      j := i;
    }
  }

  /** The listing and the parser undo each other if and only if no provider with models goes by a name of
      an earlier provider. */
  lemma RoundTripExactly(reg: Registry)
    requires WellFormed(reg)
    ensures RoundTrips(reg) <==> Unshadowed(reg)
  {
    if j, i, prefix :| Shadows(reg, j, i, prefix) {
      var m := reg[i].models[0];
      var first := FirstOwner(reg, j, prefix);
      ParsePrinted(reg, first, prefix, m);
      assert reg[first].id != reg[i].id;
      assert Parse(reg, Some(prefix + "/" + m)) != (Some(reg[i].id), Some(m));
    } else {
      forall i, prefix, m | 0 <= i < |reg| && prefix in Prefixes(reg[i]) && m in reg[i].models
        ensures Parse(reg, Some(prefix + "/" + m)) == (Some(reg[i].id), Some(m))
      {
        forall k | 0 <= k < i ensures prefix !in Prefixes(reg[k]) {
          assert !Shadows(reg, k, i, prefix);
        }
        ParsePrinted(reg, i, prefix, m);
      }
    }
  }

  /** A registry that fails: the second provider's alias is the first one's id. */
  lemma ShadowedExample()
    ensures var reg := [Provider("a", None, ["m"]), Provider("b", Some("a"), ["n"])];
      WellFormed(reg) && !RoundTrips(reg)
  {
    var reg := [Provider("a", None, ["m"]), Provider("b", Some("a"), ["n"])];
    assert "a" in Prefixes(reg[0]) && Prefixes(reg[1]) == ["b", "a"];
    assert "a" in Prefixes(reg[1]);
    assert Shadows(reg, 0, 1, "a");
    RoundTripExactly(reg);
  }

  // ---------------------------------------------------------------- ids without a prefix

  ghost predicate ListsFirst(reg: Registry, i: nat, model: string) {
    i < |reg| && model in reg[i].models && forall j :: 0 <= j < i ==> model !in reg[j].models
  }

  lemma {:induction false} ListerExactly(reg: Registry, model: string)
    ensures forall i: nat :: ListsFirst(reg, i, model) ==> Lister(reg, model) == Some(reg[i].id)
    ensures Lister(reg, model).None? <==> forall i :: 0 <= i < |reg| ==> model !in reg[i].models
  {
    if reg != [] {
      var init := reg[..|reg| - 1];
      ListerExactly(init, model);
      assert forall i :: 0 <= i < |init| ==> reg[i] == init[i];
      forall i: nat | ListsFirst(reg, i, model) ensures Lister(reg, model) == Some(reg[i].id) {
        assert i < |init| ==> ListsFirst(init, i, model);
      }
    }
  }

  /** An id behind no provider's name is a model's, of the first provider that lists it, or of none. */
  lemma BareIdParses(reg: Registry, s: string)
    requires s != "" && forall i :: 0 <= i < |reg| ==> Behind(reg[i], s).None?
    ensures var r := Parse(reg, Some(s));
      && r.1 == Some(s)
      && (forall i: nat :: ListsFirst(reg, i, s) && reg[i].id != "" ==> r.0 == Some(reg[i].id))
      && ((forall i :: 0 <= i < |reg| ==> s !in reg[i].models) ==> r.0.None?)
  {
    AddressedNone(reg, s);
    ListerExactly(reg, s);
  }

  const TWO: Registry := [Provider("a", Some("b"), ["m", "n"]), Provider("c", None, ["k"])]

  /** The listing goes provider by provider, model by model, the id before the alias. */
  lemma ListingExample()
    ensures Listing(TWO) == [("a/m", "a"), ("b/m", "a"), ("a/n", "a"), ("b/n", "a"), ("c/k", "c")]
  {
    assert Prefixes(TWO[0]) == ["a", "b"] && Prefixes(TWO[1]) == ["c"];
    assert "a" + "/" + "m" == "a/m" && "b" + "/" + "m" == "b/m";
    assert "a" + "/" + "n" == "a/n" && "b" + "/" + "n" == "b/n" && "c" + "/" + "k" == "c/k";
    assert ModelRows(TWO[0], "m", 2) == [("a/m", "a"), ("b/m", "a")];
    assert ModelRows(TWO[0], "n", 2) == [("a/n", "a"), ("b/n", "a")];
    assert ModelRows(TWO[1], "k", 1) == [("c/k", "c")];
    assert ProviderRows(TWO[0], 1) == [("a/m", "a"), ("b/m", "a")];
    assert ProviderRows(TWO[0], 2) == [("a/m", "a"), ("b/m", "a"), ("a/n", "a"), ("b/n", "a")];
    assert ProviderRows(TWO[1], 1) == [("c/k", "c")];
    assert TWO[..1] == [TWO[0]] && TWO[..1][..0] == [];
    assert Listing(TWO[..1]) == ProviderRows(TWO[0], 2);
  }

  // ---------------------------------------------------------------- growing the registry

  /** A new provider at the end changes no parse that an existing prefix decides, and none that finds its
      model by index, except those its own prefixes now capture; those become its own. */
  lemma AppendKeepsParses(reg: Registry, p: Provider, s: string)
    requires s != ""
    ensures var more := reg + [p];
      && (Addressed(reg, s).Some? ==> Parse(more, Some(s)) == Parse(reg, Some(s)))
      && (Addressed(reg, s).None? && Behind(p, s).Some? ==> Parse(more, Some(s)) == (Some(p.id), Behind(p, s)))
      && (Behind(p, s).None? && Parse(reg, Some(s)).0.Some? ==> Parse(more, Some(s)) == Parse(reg, Some(s)))
  {
    var more := reg + [p];
    assert more[..|more| - 1] == reg;
  }
}
