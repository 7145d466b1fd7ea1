/** The embedding catalogue: ids are printed as "provider/model" and parsed back. */
module EmbeddingRegistry {
  import opened JsText
  import opened OrderedMap

  /** The providers in order, each with its model ids. */
  type Registry = seq<(string, seq<string>)>

  type Parsed = (Option<string>, Option<string>)

  function Resolve(aliases: map<string, string>, id: string): string {
    if id in aliases && aliases[id] != "" then aliases[id] else id
  }

  function Normalize(reg: Registry, aliases: map<string, string>, provider: string, model: string): string {
    var resolved := Resolve(aliases, provider);
    var models := Get(reg, resolved).GetOr([]);
    if model in models then model
    else if resolved + "/" + model in models then resolved + "/" + model
    else if StartsWith(model, provider + "/") then model[|provider| + 1..]
    else model
  }

  /** The id a catalogue entry is printed with. */
  function Scoped(provider: string, model: string): string {
    if StartsWith(model, provider + "/") then model else provider + "/" + model
  }

  /** The first of some ids that `s` carries as a prefix. */
  function FirstPrefix(ids: seq<string>, s: string): (r: Option<string>)
    ensures r.Some? ==> r.value in ids && StartsWith(s, r.value + "/")
  {
    if ids == [] then None
    else if StartsWith(s, ids[0] + "/") then Some(ids[0])
    else FirstPrefix(ids[1..], s)
  }

  function Ids(reg: Registry): seq<string> {
    seq(|reg|, i requires 0 <= i < |reg| => reg[i].0)
  }

  /** The first provider that lists a model. */
  function Lister(reg: Registry, model: string): Option<string> {
    if reg == [] then None else if model in reg[0].1 then Some(reg[0].0) else Lister(reg[1..], model)
  }

  function Parse(reg: Registry, aliases: map<string, string>, dynamic: seq<string>, s: Option<string>): Parsed {
    if s.None? || s.value == "" then (None, None)
    else
      var text := s.value;
      var slash := IndexOf(text, '/');
      if 0 < slash < |text| then
        var raw, rest := text[..slash], text[slash + 1..];
        var resolved := Resolve(aliases, raw);
        var known := FirstPrefix(Ids(reg), text);
        var node := FirstPrefix(dynamic, text);
        if Has(reg, resolved) then (Some(resolved), Some(Normalize(reg, aliases, resolved, rest)))
        else if known.Some? then (known, Some(Normalize(reg, aliases, known.value, text[|known.value| + 1..])))
        else if node.Some? then (node, Some(text[|node.value| + 1..]))
        else (Some(raw), Some(rest))
      else (Lister(reg, text), Some(text))
  }

  // ---------------------------------------------------------------- printing

  /** A catalogue entry: the printed id, the provider and the model it stands for. */
  type Entry = (string, string, string)

  function ProviderEntries(provider: string, models: seq<string>): seq<Entry> {
    if models == [] then []
    else
      var m := models[|models| - 1];
      ProviderEntries(provider, models[..|models| - 1]) + [(Scoped(provider, m), provider, m)]
  }

  function Entries(reg: Registry): seq<Entry> {
    if reg == [] then [] else Entries(reg[..|reg| - 1]) + ProviderEntries(reg[|reg| - 1].0, reg[|reg| - 1].1)
  }

  method GetAllEmbeddingModels(reg: Registry) returns (all: seq<Entry>)
    ensures all == Entries(reg)
  {
    all := [];
    for i := 0 to |reg|
      invariant all == Entries(reg[..i])
    {
      var (provider, models) := reg[i];
      ghost var before := all;
      for k := 0 to |models|
        invariant all == before + ProviderEntries(provider, models[..k])
      {
        all := all + [(Scoped(provider, models[k]), provider, models[k])];
        assert models[..k + 1][..k] == models[..k];
      }
      assert models[..|models|] == models && reg[..i + 1][..i] == reg[..i];
    }
    assert reg[..|reg|] == reg;
  }

  ghost predicate Listed(reg: Registry, provider: string, model: string) {
    exists i :: 0 <= i < |reg| && reg[i].0 == provider && model in reg[i].1
  }

  lemma {:induction false} ProviderEntriesAre(provider: string, models: seq<string>, e: Entry)
    ensures e in ProviderEntries(provider, models) <==> e.1 == provider && e.2 in models && e.0 == Scoped(e.1, e.2)
  {
    if models != [] {
      ProviderEntriesAre(provider, models[..|models| - 1], e);
      assert models == models[..|models| - 1] + [models[|models| - 1]];
    }
  }

  lemma ListedSnoc(reg: Registry, p: string, m: string)
    requires reg != []
    ensures Listed(reg, p, m)
      <==> Listed(reg[..|reg| - 1], p, m) || (p == reg[|reg| - 1].0 && m in reg[|reg| - 1].1)
  {
    var init := reg[..|reg| - 1];
    if Listed(init, p, m) {
      var j :| 0 <= j < |init| && init[j].0 == p && m in init[j].1;
      assert reg[j] == init[j];
    }
    if Listed(reg, p, m) {
      var j :| 0 <= j < |reg| && reg[j].0 == p && m in reg[j].1;
      assert j < |init| ==> init[j] == reg[j];
    }
  }

  /** The catalogue holds exactly the listed models, each under its printed id. */
  lemma {:induction false} EntriesAreListed(reg: Registry, e: Entry)
    ensures e in Entries(reg) <==> Listed(reg, e.1, e.2) && e.0 == Scoped(e.1, e.2)
  {
    if reg != [] {
      EntriesAreListed(reg[..|reg| - 1], e);
      ListedSnoc(reg, e.1, e.2);
      ProviderEntriesAre(reg[|reg| - 1].0, reg[|reg| - 1].1, e);
    }
  }

  const TWO: Registry := [("p", ["m", "p/n"]), ("q", ["k"])]

  /** The catalogue goes provider by provider and model by model; a prefix is not printed twice. */
  lemma EntriesExample()
    ensures Entries(TWO) == [("p/m", "p", "m"), ("p/n", "p", "p/n"), ("q/k", "q", "k")]
  {
    assert Scoped("p", "m") == "p/m" && "p/n"[..2] == "p/" && Scoped("p", "p/n") == "p/n";
    assert Scoped("q", "k") == "q/k";
    assert ["m", "p/n"][..1] == ["m"] && ["m"][..0] == [] && ["k"][..0] == [];
    assert ProviderEntries("p", ["m"]) == [("p/m", "p", "m")];
    assert ProviderEntries("p", ["m", "p/n"]) == [("p/m", "p", "m"), ("p/n", "p", "p/n")];
    assert ProviderEntries("q", ["k"]) == [("q/k", "q", "k")];
    assert TWO[..1] == [TWO[0]] && TWO[..1][..0] == [];
    assert Entries(TWO[..1]) == ProviderEntries("p", ["m", "p/n"]);
  }

  // ---------------------------------------------------------------- round trip, exactly

  /** Provider ids are distinct, not empty, without a slash, and none is itself an alias. */
  ghost predicate WellFormed(reg: Registry, aliases: map<string, string>) {
    Distinct(reg) && forall i :: 0 <= i < |reg| ==> reg[i].0 != "" && SlashFree(reg[i].0) && reg[i].0 !in aliases
  }

  /** A printed id parses to its provider and to a model that is again of that provider. */
  lemma ParseScoped(reg: Registry, aliases: map<string, string>, dynamic: seq<string>, i: nat, m: string)
    requires WellFormed(reg, aliases) && i < |reg|
    ensures var (p, models) := reg[i];
      var rest := if StartsWith(m, p + "/") then m[|p| + 1..] else m;
      Parse(reg, aliases, dynamic, Some(Scoped(p, m))) == (Some(p), Some(Normalize(reg, aliases, p, rest)))
      && Get(reg, p) == Some(models)
  {
    var (p, models) := reg[i];
    var rest := if StartsWith(m, p + "/") then m[|p| + 1..] else m;
    FindAt(reg, i);
    assert Scoped(p, m) == p + "/" + rest by {
      if StartsWith(m, p + "/") {
        PrefixSplit(m, p);
      }
    }
    IndexOfSlash(p, rest);
  }

  /** Provider `p` lists a model both with and without its own prefix. */
  ghost predicate ListsTwice(p: string, models: seq<string>) {
    exists m :: m in models && p + "/" + m in models
  }

  /** Every id in the catalogue parses back to its entry. */
  ghost predicate RoundTrips(reg: Registry, aliases: map<string, string>, dynamic: seq<string>) {
    forall e :: e in Entries(reg) ==> Parse(reg, aliases, dynamic, Some(e.0)) == (Some(e.1), Some(e.2))
  }

  lemma EntryRoundTrips(reg: Registry, aliases: map<string, string>, dynamic: seq<string>, i: nat, m: string)
    requires WellFormed(reg, aliases) && i < |reg| && m in reg[i].1
    ensures var (p, models) := reg[i];
      Parse(reg, aliases, dynamic, Some(Scoped(p, m))) == (Some(p), Some(m))
      <==> !(StartsWith(m, p + "/") && m[|p| + 1..] in models)
  {
    var (p, models) := reg[i];
    ParseScoped(reg, aliases, dynamic, i, m);
    if StartsWith(m, p + "/") {
      var rest := m[|p| + 1..];
      PrefixSplit(m, p);
      assert |rest| < |m|;
    }
  }

  /** Every printed id parses back to its provider and its exact model, whether or not the model already
      carries the provider's prefix, if and only if no provider lists a model both ways. */
  lemma RoundTripExactly(reg: Registry, aliases: map<string, string>, dynamic: seq<string>)
    requires WellFormed(reg, aliases)
    ensures RoundTrips(reg, aliases, dynamic) <==> forall i :: 0 <= i < |reg| ==> !ListsTwice(reg[i].0, reg[i].1)
  {
    if i :| 0 <= i < |reg| && ListsTwice(reg[i].0, reg[i].1) {
      var (p, models) := reg[i];
      var m :| m in models && p + "/" + m in models;
      var long := p + "/" + m;
      assert long[..|p + "/"|] == p + "/" && long[|p| + 1..] == m;
      EntryRoundTrips(reg, aliases, dynamic, i, long);
      assert Listed(reg, p, long);
      EntriesAreListed(reg, (Scoped(p, long), p, long));
    } else {
      forall e | e in Entries(reg)
        ensures Parse(reg, aliases, dynamic, Some(e.0)) == (Some(e.1), Some(e.2))
      {
        EntriesAreListed(reg, e);
        var i :| 0 <= i < |reg| && reg[i].0 == e.1 && e.2 in reg[i].1;
        EntryRoundTrips(reg, aliases, dynamic, i, e.2);
        if StartsWith(e.2, e.1 + "/") {
          PrefixSplit(e.2, e.1);
          assert e.2[|e.1| + 1..] !in reg[i].1;
        }
      }
    }
  }

  /** A catalogue that fails: the id "p/m" of the second model means the first. */
  lemma ListedTwiceExample()
    ensures WellFormed([("p", ["m", "p/m"])], map[])
    ensures !RoundTrips([("p", ["m", "p/m"])], map[], [])
  {
    var reg: Registry := [("p", ["m", "p/m"])];
    assert "m" in reg[0].1 && "p" + "/" + "m" == "p/m" && "p/m" in reg[0].1;
    assert ListsTwice(reg[0].0, reg[0].1);
    RoundTripExactly(reg, map[], []);
  }

  /** An alias of a registered provider means the same as the provider's own id. */
  lemma AliasIsTransparent(
    reg: Registry, aliases: map<string, string>, dynamic: seq<string>, alias: string, i: nat, m: string)
    requires WellFormed(reg, aliases) && i < |reg|
    requires alias != "" && SlashFree(alias) && alias in aliases && aliases[alias] == reg[i].0
    ensures Parse(reg, aliases, dynamic, Some(alias + "/" + m))
         == Parse(reg, aliases, dynamic, Some(reg[i].0 + "/" + m))
  {
    IndexOfSlash(alias, m);
    IndexOfSlash(reg[i].0, m);
    FindAt(reg, i);
  }

  // ---------------------------------------------------------------- ids of every kind

  /** Position `i` is the first provider that lists the model. */
  ghost predicate ListsFirst(reg: Registry, i: nat, model: string) {
    i < |reg| && model in reg[i].1 && forall j :: 0 <= j < i ==> model !in reg[j].1
  }

  lemma {:induction false} ListerExactly(reg: Registry, model: string)
    ensures forall i: nat :: ListsFirst(reg, i, model) ==> Lister(reg, model) == Some(reg[i].0)
    ensures Lister(reg, model).None? <==> forall i :: 0 <= i < |reg| ==> model !in reg[i].1
  {
    if reg != [] {
      ListerExactly(reg[1..], model);
      assert forall i :: 0 < i < |reg| ==> reg[i] == reg[1..][i - 1];
      if model !in reg[0].1 {
        forall i: nat | ListsFirst(reg, i, model) ensures Lister(reg, model) == Some(reg[i].0) {
          ListsFirstBehind(reg, i, model);
        }
      }
    }
  }

  lemma ListsFirstBehind(reg: Registry, i: nat, model: string)
    requires ListsFirst(reg, i, model) && model !in reg[0].1
    ensures i > 0 && ListsFirst(reg[1..], i - 1, model) && reg[1..][i - 1] == reg[i]
  {
    assert forall j :: 0 < j < |reg| ==> reg[j] == reg[1..][j - 1];
  }

  /** An id without a slash, or with one in front, is a model's: its provider is the first that lists it. */
  lemma BareIdParses(reg: Registry, aliases: map<string, string>, dynamic: seq<string>, text: string)
    requires text != "" && (SlashFree(text) || text[0] == '/')
    ensures var r := Parse(reg, aliases, dynamic, Some(text));
      && r.1 == Some(text)
      && (forall i: nat :: ListsFirst(reg, i, text) ==> r.0 == Some(reg[i].0))
      && (r.0.None? <==> forall i :: 0 <= i < |reg| ==> text !in reg[i].1)
  {
    ListerExactly(reg, text);
  }

  /** Position `i` is the first of some ids that the text carries as a prefix. */
  ghost predicate PrefixesFirst(ids: seq<string>, i: nat, text: string) {
    i < |ids| && StartsWith(text, ids[i] + "/") && forall j :: 0 <= j < i ==> !StartsWith(text, ids[j] + "/")
  }

  lemma {:induction false} FirstPrefixExactly(ids: seq<string>, text: string)
    ensures forall i: nat :: PrefixesFirst(ids, i, text) ==> FirstPrefix(ids, text) == Some(ids[i])
    ensures FirstPrefix(ids, text).None? <==> forall i :: 0 <= i < |ids| ==> !StartsWith(text, ids[i] + "/")
  {
    if ids != [] && !StartsWith(text, ids[0] + "/") {
      FirstPrefixExactly(ids[1..], text);
      assert forall i :: 0 < i < |ids| ==> ids[i] == ids[1..][i - 1];
      forall i: nat | PrefixesFirst(ids, i, text) ensures FirstPrefix(ids, text) == Some(ids[i]) {
        PrefixesFirstBehind(ids, i, text);
      }
    }
  }

  lemma PrefixesFirstBehind(ids: seq<string>, i: nat, text: string)
    requires PrefixesFirst(ids, i, text) && !StartsWith(text, ids[0] + "/")
    ensures i > 0 && PrefixesFirst(ids[1..], i - 1, text) && ids[1..][i - 1] == ids[i]
  {
    assert forall j :: 0 < j < |ids| ==> ids[j] == ids[1..][j - 1];
  }

  /** An id of a registered provider, by its own name or an alias: the model is the one the provider lists, with or
      without its prefix, and else what follows, without the provider's prefix. */
  lemma RegisteredIdParses(
    reg: Registry, aliases: map<string, string>, dynamic: seq<string>, raw: string, i: nat, rest: string)
    requires WellFormed(reg, aliases) && i < |reg| && raw != "" && SlashFree(raw)
    requires raw == reg[i].0 || (raw in aliases && aliases[raw] == reg[i].0)
    ensures var (p, models) := reg[i];
      Parse(reg, aliases, dynamic, Some(raw + "/" + rest))
      == (Some(p), Some(if rest in models then rest
                        else if p + "/" + rest in models then p + "/" + rest
                        else if StartsWith(rest, p + "/") then rest[|p| + 1..] else rest))
  {
    IndexOfSlash(raw, rest);
    FindAt(reg, i);
  }

  /** An id whose first segment leads to no registered provider, but that carries the whole name of one: the first
      such provider's. */
  lemma PrefixedIdParses(
    reg: Registry, aliases: map<string, string>, dynamic: seq<string>, raw: string, rest: string, i: nat)
    requires raw != "" && SlashFree(raw) && Distinct(reg)
    requires !Has(reg, if raw in aliases && aliases[raw] != "" then aliases[raw] else raw)
    requires PrefixesFirst(Ids(reg), i, raw + "/" + rest) && reg[i].0 !in aliases
    ensures var (p, models) := reg[i];
      var tail := (raw + "/" + rest)[|p| + 1..];
      Parse(reg, aliases, dynamic, Some(raw + "/" + rest))
      == (Some(p), Some(if tail in models then tail
                        else if p + "/" + tail in models then p + "/" + tail
                        else if StartsWith(tail, p + "/") then tail[|p| + 1..] else tail))
  {
    IndexOfSlash(raw, rest);
    FirstPrefixExactly(Ids(reg), raw + "/" + rest);
    FindAt(reg, i);
  }

  /** An id of no registered provider is a dynamic node's, the first whose name it carries; of none, it is taken at
      its word. */
  lemma UnregisteredIdParses(
    reg: Registry, aliases: map<string, string>, dynamic: seq<string>, raw: string, rest: string)
    requires raw != "" && SlashFree(raw) && !Has(reg, raw)
    requires raw in aliases && aliases[raw] != "" ==> !Has(reg, aliases[raw])
    requires forall i :: 0 <= i < |reg| ==> !StartsWith(raw + "/" + rest, reg[i].0 + "/")
    ensures var text, r := raw + "/" + rest, Parse(reg, aliases, dynamic, Some(raw + "/" + rest));
      && (forall i: nat :: PrefixesFirst(dynamic, i, text) ==>
            r == (Some(dynamic[i]), Some(text[|dynamic[i]| + 1..])))
      && ((forall i :: 0 <= i < |dynamic| ==> !StartsWith(text, dynamic[i] + "/")) ==> r == (Some(raw), Some(rest)))
  {
    var text := raw + "/" + rest;
    IndexOfSlash(raw, rest);
    FirstPrefixExactly(Ids(reg), text);
    FirstPrefixExactly(dynamic, text);
    assert forall i :: 0 <= i < |reg| ==> Ids(reg)[i] == reg[i].0;
  }
}
