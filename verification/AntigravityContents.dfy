/** The Antigravity executor's clean-up of a conversation: parts that the upstream rejects go, turns that
    are left empty go, neighbouring turns of one role become one, and for Claude models a trailing model
    turn goes. */
module AntigravityContents {
  import opened OrderedMap
  import Sequences

  /** A part; `call` is the name of its function call (empty when it has none), `data` whatever else it
      carries. */
  datatype Part = Part(
    text: Option<string>, call: Option<string>, isResponse: bool, isThought: bool, signature: string, data: string)

  datatype Content = Content(role: Option<string>, parts: Option<seq<Part>>)

  const SENTINEL: string := "skip_thought_signature_validator"

  // ---------------------------------------------------------------- one turn

  predicate HasResponse(c: Content) {
    c.parts.Some? && exists i :: 0 <= i < |c.parts.value| && c.parts.value[i].isResponse
  }

  predicate HasCall(c: Content) {
    c.parts.Some? && exists i :: 0 <= i < |c.parts.value| && c.parts.value[i].call.Some?
  }

  predicate Keeps(p: Part, hasCall: bool) {
    && p.text != Some("")
    && p.call != Some("")
    && !p.isThought
    && (hasCall || p.signature == "" || p.signature == SENTINEL)
  }

  function Kept(parts: seq<Part>, hasCall: bool): seq<Part> {
    if parts == [] then []
    else Kept(parts[..|parts| - 1], hasCall) + if Keeps(parts[|parts| - 1], hasCall) then [parts[|parts| - 1]] else []
  }

  /** A tool response always speaks as the user. */
  function Normalized(c: Content): Content {
    Content(Some(if HasResponse(c) then "user" else c.role.GetOr("user")),
            Some(Kept(c.parts.GetOr([]), HasCall(c))))
  }

  function NormalizedAll(raw: seq<Content>): (r: seq<Content>)
    ensures |r| == |raw|
  {
    seq(|raw|, i requires 0 <= i < |raw| => Normalized(raw[i]))
  }

  /** A part that goes: an empty text, a call without a name, a thought, or anything signed in a turn that calls
      no function, but for the signature that means none. */
  predicate Goes(p: Part, calls: bool) {
    match p
    case Part(Some(""), _, _, _, _, _) => true
    case Part(_, Some(""), _, _, _, _) => true
    case Part(_, _, _, true, _, _) => true
    case Part(_, _, _, _, "", _) => false
    case Part(_, _, _, _, "skip_thought_signature_validator", _) => false
    case _ => !calls
  }

  function Staying(parts: seq<Part>, calls: bool): nat -> bool {
    (t: nat) => t < |parts| && !Goes(parts[t], calls)
  }

  lemma {:induction false} KeptExactly(parts: seq<Part>, n: nat, calls: bool)
    requires n <= |parts|
    ensures Kept(parts[..n], calls) == Sequences.Selected(parts, n, Staying(parts, calls))
  {
    if n > 0 {
      KeptExactly(parts, n - 1, calls);
      Sequences.SelectedNext(parts, n - 1, Staying(parts, calls));
      assert parts[..n][..n - 1] == parts[..n - 1];
    }
  }

  /** Of every turn exactly the parts that do not go are kept, in order; and it speaks as the user when one of its
      parts is a response or nobody is named. */
  lemma NormalizedExactly(c: Content)
    ensures var parts, r := c.parts.GetOr([]), Normalized(c);
      var calls := exists i :: 0 <= i < |parts| && parts[i].call.Some?;
      && r.parts == Some(Sequences.Selected(parts, |parts|, Staying(parts, calls)))
      && r.role == Some(if (exists i :: 0 <= i < |parts| && parts[i].isResponse) || c.role.None? then "user"
                        else c.role.value)
  {
    var parts := c.parts.GetOr([]);
    KeptExactly(parts, |parts|, HasCall(c));
    assert parts[..|parts|] == parts;
  }

  // ---------------------------------------------------------------- specification

  type Spoken = seq<(Option<string>, Part)>

  /** What a turn says, part by part, with who says it. */
  function Said(c: Content): (r: Spoken)
    ensures |r| == |c.parts.GetOr([])|
    ensures forall i :: 0 <= i < |r| ==> r[i].0 == c.role
  {
    seq(|c.parts.GetOr([])|, i requires 0 <= i < |c.parts.GetOr([])| => (c.role, c.parts.GetOr([])[i]))
  }

  function Flat(cs: seq<Content>): Spoken {
    if cs == [] then [] else Flat(cs[..|cs| - 1]) + Said(cs[|cs| - 1])
  }

  /** No turn is empty and no two neighbours have the same role. */
  ghost predicate NormalForm(cs: seq<Content>) {
    && (forall i :: 0 <= i < |cs| ==> cs[i].role.Some? && cs[i].parts.Some? && cs[i].parts.value != [])
    && (forall i :: 0 < i < |cs| ==> cs[i - 1].role != cs[i].role)
  }

  lemma FlatSnoc(cs: seq<Content>, c: Content)
    ensures Flat(cs + [c]) == Flat(cs) + Said(c)
  {
    assert (cs + [c])[..|cs + [c]| - 1] == cs;
  }

  lemma {:induction false} FlatNonEmpty(cs: seq<Content>)
    requires NormalForm(cs) && cs != []
    ensures Flat(cs) != [] && Flat(cs)[|Flat(cs)| - 1].0 == cs[|cs| - 1].role
  {
    assert |Said(cs[|cs| - 1])| > 0;
  }

  /** How many parts at the end are said by the one who says the last. */
  function TailRun(f: Spoken): nat {
    if |f| <= 1 then |f|
    else if f[|f| - 2].0 == f[|f| - 1].0 then 1 + TailRun(f[..|f| - 1])
    else 1
  }

  lemma {:induction false} TailRunPlus(a: Spoken, b: Spoken, role: Option<string>)
    requires b != [] && forall i :: 0 <= i < |b| ==> b[i].0 == role
    requires a != [] ==> a[|a| - 1].0 != role
    ensures TailRun(a + b) == |b|
  {
    var f, last := a + b, |b| - 1;
    if last > 0 {
      TailRunPlus(a, b[..last], role);
      assert f[..|f| - 1] == a + b[..last];
      assert f[|f| - 2] == b[last - 1] && f[|f| - 1] == b[last];
    } else if a != [] {
      assert f[|f| - 2] == a[|a| - 1];
    }
  }

  /** In normal form the last turn is the whole run at the end. */
  lemma LastTurnIsTailRun(cs: seq<Content>)
    requires NormalForm(cs) && cs != []
    ensures TailRun(Flat(cs)) == |cs[|cs| - 1].parts.value|
  {
    var init, x := cs[..|cs| - 1], cs[|cs| - 1];
    if init != [] {
      FlatNonEmpty(init);
      assert init[|init| - 1] == cs[|cs| - 2];
    }
    TailRunPlus(Flat(init), Said(x), x.role);
  }

  lemma SaidInjective(x: Content, y: Content)
    requires x.parts.Some? && y.parts.Some? && x.role == y.role && Said(x) == Said(y)
    ensures x == y
  {
    var p, q := x.parts.value, y.parts.value;
    assert |p| == |Said(x)| == |q|;
    forall i | 0 <= i < |p| ensures p[i] == q[i] {
      assert Said(x)[i] == (x.role, p[i]) && Said(y)[i] == (y.role, q[i]);
    }
    assert p == q;
  }

  lemma {:induction false} LastTurnSame(a: seq<Content>, b: seq<Content>)
    requires NormalForm(a) && NormalForm(b) && Flat(a) == Flat(b) && a != [] && b != []
    ensures Flat(a[..|a| - 1]) == Flat(b[..|b| - 1]) && a[|a| - 1] == b[|b| - 1]
  {
    var initA, initB, x, y := a[..|a| - 1], b[..|b| - 1], a[|a| - 1], b[|b| - 1];
    FlatNonEmpty(a);
    FlatNonEmpty(b);
    LastTurnIsTailRun(a);
    LastTurnIsTailRun(b);
    var k := |Flat(initA)|;
    assert Flat(initA) == Flat(a)[..k] && Said(x) == Flat(a)[k..];
    assert Flat(initB) == Flat(b)[..k] && Said(y) == Flat(b)[k..];
    SaidInjective(x, y);
  }

  /** A conversation has one normal form only. */
  lemma {:induction false} NormalFormUnique(a: seq<Content>, b: seq<Content>)
    requires NormalForm(a) && NormalForm(b) && Flat(a) == Flat(b)
    ensures a == b
  {
    if a != [] {
      FlatNonEmpty(a);
    }
    if b != [] {
      FlatNonEmpty(b);
    }
    if a != [] && b != [] {
      LastTurnSame(a, b);
      NormalFormUnique(a[..|a| - 1], b[..|b| - 1]);
      assert a == a[..|a| - 1] + [a[|a| - 1]] && b == b[..|b| - 1] + [b[|b| - 1]];
    }
  }

  /** The turns gathered so far, with one more. */
  function Gather(cs: seq<Content>, c: Content): seq<Content> {
    if c.parts.GetOr([]) == [] then cs
    else if cs != [] && cs[|cs| - 1].role == c.role
    then cs[..|cs| - 1] + [Content(c.role, Some(cs[|cs| - 1].parts.GetOr([]) + c.parts.value))]
    else cs + [c]
  }

  lemma GatherFlat(cs: seq<Content>, c: Content)
    ensures Flat(Gather(cs, c)) == Flat(cs) + Said(c)
  {
    FlatSnoc(cs, c);
    if c.parts.GetOr([]) == [] {
      assert Flat(cs) + Said(c) == Flat(cs);
    } else if Gather(cs, c) != cs + [c] {
      var init, last := cs[..|cs| - 1], cs[|cs| - 1];
      var both := Content(c.role, Some(last.parts.GetOr([]) + c.parts.value));
      assert init + [last] == cs;
      FlatSnoc(init, both);
      FlatSnoc(init, last);
      assert Said(both) == Said(last) + Said(c);
      assert (Flat(init) + Said(last)) + Said(c) == Flat(init) + (Said(last) + Said(c));
    }
  }

  lemma GatherKeepsForm(cs: seq<Content>, c: Content)
    requires NormalForm(cs) && c.role.Some?
    ensures NormalForm(Gather(cs, c))
  {
  }

  /** Everything that survives the filter. */
  function Survivors(raw: seq<Content>): Spoken {
    Flat(NormalizedAll(raw))
  }

  // ---------------------------------------------------------------- the clean-up itself

  method GatherOne(contents: seq<Content>, c: Content) returns (r: seq<Content>)
    ensures r == Gather(contents, c)
  {
    r := contents;
    if c.parts.Some? && |c.parts.value| > 0 {
      var last := |r| - 1;
      if |r| > 0 && r[last].role == c.role {
        r := r[..last] + [Content(c.role, Some(r[last].parts.GetOr([]) + c.parts.value))];
      } else {
        r := r + [c];
      }
    }
  }

  lemma GatheredNext(contents: seq<Content>, normalized: seq<Content>, n: nat)
    requires n < |normalized| && normalized[n].role.Some?
    requires NormalForm(contents) && Flat(contents) == Flat(normalized[..n])
    ensures NormalForm(Gather(contents, normalized[n]))
    ensures Flat(Gather(contents, normalized[n])) == Flat(normalized[..n + 1])
  {
    GatherKeepsForm(contents, normalized[n]);
    GatherFlat(contents, normalized[n]);
    assert normalized[..n + 1] == normalized[..n] + [normalized[n]];
    FlatSnoc(normalized[..n], normalized[n]);
  }

  /** Merge the filtered turns. The result is the one normal form of what survives. */
  method GatherContents(normalized: seq<Content>) returns (contents: seq<Content>)
    requires forall i :: 0 <= i < |normalized| ==> normalized[i].role.Some?
    ensures NormalForm(contents) && Flat(contents) == Flat(normalized)
  {
    contents := [];
    for n := 0 to |normalized|
      invariant NormalForm(contents) && Flat(contents) == Flat(normalized[..n])
    {
      GatheredNext(contents, normalized, n);
      contents := GatherOne(contents, normalized[n]);
    }
    assert normalized[..|normalized|] == normalized;
  }

  /** The contents that go upstream: the gathered ones, but the request's own, unfiltered, when nothing
      was gathered. */
  method TransformContents(raw: seq<Content>) returns (sent: seq<Content>)
    ensures Survivors(raw) != [] ==> NormalForm(sent) && Flat(sent) == Survivors(raw)
    ensures Survivors(raw) == [] ==> sent == raw
  {
    var contents := GatherContents(NormalizedAll(raw));
    if |contents| > 0 {
      FlatNonEmpty(contents);
      sent := contents;
    } else {
      sent := raw;
    }
  }

  /** A list is what the clean-up may send: determined by the two cases. */
  ghost predicate SentFor(raw: seq<Content>, sent: seq<Content>) {
    if Survivors(raw) != [] then NormalForm(sent) && Flat(sent) == Survivors(raw) else sent == raw
  }

  /** The request goes out in normal form, saying exactly what survived the filter, if and only if
      something did survive or there was nothing to begin with. */
  lemma NormalFormExactly(raw: seq<Content>, sent: seq<Content>)
    requires SentFor(raw, sent)
    ensures NormalForm(sent) && Flat(sent) == Survivors(raw) <==> Survivors(raw) != [] || raw == []
  {
    if Survivors(raw) == [] && raw != [] && NormalForm(sent) {
      FlatNonEmpty(sent);
    }
  }

  const EMPTY_TEXT: Part := Part(Some(""), None, false, false, "", "")

  /** A request that goes out unfiltered: its only part is an empty text. */
  lemma UnfilteredExample(sent: seq<Content>)
    requires SentFor([Content(Some("user"), Some([EMPTY_TEXT]))], sent)
    ensures Flat(sent) != Survivors([Content(Some("user"), Some([EMPTY_TEXT]))])
  {
    var c := Content(Some("user"), Some([EMPTY_TEXT]));
    assert Kept([EMPTY_TEXT], false) == Kept([EMPTY_TEXT][..0], false) == [];
    assert !c.parts.value[0].call.Some?;
    assert Normalized(c).parts == Some([]);
    assert NormalizedAll([c]) == [Normalized(c)];
    FlatSnoc([], Normalized(c));
    FlatSnoc([], c);
    assert [c] == [] + [c] && [Normalized(c)] == [] + [Normalized(c)];
    assert |Flat([c])| == 1;
  }

  /** Cleaning up twice is cleaning up once, where every part is kept as it stands. */
  lemma CleanIsFixed(raw: seq<Content>, sent: seq<Content>)
    requires SentFor(raw, sent) && NormalForm(raw) && NormalizedAll(raw) == raw
    ensures sent == raw
  {
    if Survivors(raw) != [] {
      NormalFormUnique(sent, raw);
    }
  }

  // ---------------------------------------------------------------- Claude's trailing turn

  predicate IsModel(c: Content) {
    c.role == Some("model")
  }

  /** Trailing model turns go, but never the last turn left. */
  method StripTrailingAssistantTurn(contents: seq<Content>) returns (r: seq<Content>)
    ensures r <= contents && (contents != [] ==> r != [])
    ensures forall i :: |r| <= i < |contents| ==> IsModel(contents[i])
    ensures |r| > 1 ==> !IsModel(r[|r| - 1])
    ensures NormalForm(contents) ==> |contents| - |r| <= 1
  {
    r := contents;
    while |r| > 1 && IsModel(r[|r| - 1])
      invariant r <= contents && (contents != [] ==> r != [])
      invariant forall i :: |r| <= i < |contents| ==> IsModel(contents[i])
    {
      r := r[..|r| - 1];
    }
    if |contents| - |r| > 1 {
      assert contents[|r|].role == contents[|r| + 1].role;
    }
  }
}
