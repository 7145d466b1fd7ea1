/** The tool-use / tool-result repair of the Bedrock executor.

    Bedrock wants every tool use of an assistant message answered in the very next message. The
    repair keeps a tool use when the next message answers it, gives its id one unit of a budget
    that is global over the conversation, and then lets results through while the budget lasts. */
module BedrockPairs {
  import opened JsText
  import opened OrderedMap
  import opened Sequences

  datatype Role = User | Assistant

  /** A tool id as written, and its normal form: trimmed, or nothing when blank. */
  datatype ToolId = ToolId(raw: string, key: Option<string>)

  datatype Block =
    | Text(text: string)
    | Image(bytes: string)
    | ToolUse(id: ToolId, name: string, input: string)
    | ToolResult(id: ToolId, content: seq<string>, failed: bool)

  datatype Turn = Turn(role: Role, content: seq<Block>)

  const BLANK: Block := Text(" ")

  function NormalizeId(raw: string): Option<string> {
    var id := Trim(raw);
    if id == "" then None else Some(id)
  }

  function Identified(raw: string): ToolId {
    ToolId(raw, NormalizeId(raw))
  }

  function UseId(b: Block): Option<string> {
    if b.ToolUse? then b.id.key else None
  }

  function ResultId(b: Block): Option<string> {
    if b.ToolResult? then b.id.key else None
  }

  predicate HoldsUse(content: seq<Block>, id: string) {
    exists t :: 0 <= t < |content| && UseId(content[t]) == Some(id)
  }

  predicate HoldsResult(content: seq<Block>, id: string) {
    exists t :: 0 <= t < |content| && ResultId(content[t]) == Some(id)
  }

  /** How many results of `id` a content list holds. */
  function Count(content: seq<Block>, id: string): nat {
    if content == [] then 0
    else Count(content[..|content| - 1], id) + if ResultId(content[|content| - 1]) == Some(id) then 1 else 0
  }

  predicate ResultOnly(m: Turn) {
    m.role == User && m.content != [] && forall b <- m.content :: ResultId(b).Some?
  }

  // ---------------------------------------------------------------- specification

  /** Consecutive result-only messages fold into the first of them. */
  function Merged(ms: seq<Turn>): seq<Turn> {
    if ms == [] then [] else MergeOne(Merged(ms[..|ms| - 1]), ms[|ms| - 1])
  }

  function MergeOne(done: seq<Turn>, m: Turn): seq<Turn> {
    if done != [] && ResultOnly(done[|done| - 1]) && ResultOnly(m)
    then done[..|done| - 1] + [Turn(User, done[|done| - 1].content + m.content)]
    else done + [m]
  }

  /** Assistant message `i` holds a use of `id` that message `i + 1` answers. */
  predicate Paired(ms: seq<Turn>, i: int, id: string) {
    && 0 <= i < |ms| - 1
    && ms[i].role == Assistant && HoldsUse(ms[i].content, id)
    && ms[i + 1].role == User && HoldsResult(ms[i + 1].content, id)
  }

  /** The budget of `id` earned by the first `n` messages. */
  function Pairs(ms: seq<Turn>, n: nat, id: string): nat
    requires n <= |ms|
  {
    if n == 0 then 0 else Pairs(ms, n - 1, id) + if Paired(ms, n - 1, id) then 1 else 0
  }

  function TurnResults(m: Turn, id: string): nat {
    if m.role == User then Count(m.content, id) else 0
  }

  /** Results of `id` in the user messages among the first `n`. */
  function Results(ms: seq<Turn>, n: nat, id: string): nat
    requires n <= |ms|
  {
    if n == 0 then 0 else Results(ms, n - 1, id) + TurnResults(ms[n - 1], id)
  }

  /** Block `t` of user message `j` survives: it is no result, or it is among the first results of
      its id in the whole conversation, as many as the id has pairs. */
  predicate Survives(ms: seq<Turn>, j: nat, t: nat)
    requires j < |ms| && t < |ms[j].content|
  {
    match ResultId(ms[j].content[t])
    case None => true
    case Some(id) => Results(ms, j, id) + Count(ms[j].content[..t], id) < Pairs(ms, |ms|, id)
  }

  function KeptResults(ms: seq<Turn>, j: nat, t: nat): seq<Block>
    requires j < |ms| && t <= |ms[j].content|
  {
    if t == 0 then []
    else KeptResults(ms, j, t - 1) + if Survives(ms, j, t - 1) then [ms[j].content[t - 1]] else []
  }

  predicate UseStays(ms: seq<Turn>, i: nat, b: Block) {
    match UseId(b) case None => true case Some(id) => Paired(ms, i, id)
  }

  function KeptUses(ms: seq<Turn>, i: nat, t: nat): seq<Block>
    requires i < |ms| && t <= |ms[i].content|
  {
    if t == 0 then []
    else
      var b := ms[i].content[t - 1];
      KeptUses(ms, i, t - 1) + if UseStays(ms, i, b) then [b] else []
  }

  function NonEmpty(content: seq<Block>): seq<Block> {
    if content == [] then [BLANK] else content
  }

  predicate HasUses(content: seq<Block>) {
    exists t :: 0 <= t < |content| && UseId(content[t]).Some?
  }

  /** Assistant messages after the first pass. */
  function Trimmed(ms: seq<Turn>, i: nat): Turn
    requires i < |ms|
  {
    if ms[i].role == Assistant && HasUses(ms[i].content)
    then Turn(Assistant, NonEmpty(KeptUses(ms, i, |ms[i].content|)))
    else ms[i]
  }

  /** One message of an already merged list after both passes. */
  function Repaired(ms: seq<Turn>, i: nat): Turn
    requires i < |ms|
  {
    if ms[i].role == User
    then Turn(User, NonEmpty(KeptResults(ms, i, |ms[i].content|)))
    else Trimmed(ms, i)
  }

  function RepairAll(ms: seq<Turn>): (r: seq<Turn>)
    ensures |r| == |ms|
  {
    seq(|ms|, i requires 0 <= i < |ms| => Repaired(ms, i))
  }

  /** After the first pass only. */
  function TrimAll(ms: seq<Turn>): (r: seq<Turn>)
    ensures |r| == |ms|
  {
    seq(|ms|, i requires 0 <= i < |ms| => Trimmed(ms, i))
  }

  function Sanitized(ms: seq<Turn>): seq<Turn> {
    RepairAll(Merged(ms))
  }

  // ---------------------------------------------------------------- what each message holds afterwards

  lemma {:induction false} HoldsResultIffCount(content: seq<Block>, id: string)
    ensures HoldsResult(content, id) <==> Count(content, id) > 0
  {
    if content != [] {
      var init := content[..|content| - 1];
      HoldsResultIffCount(init, id);
      if HoldsResult(init, id) {
        var t :| 0 <= t < |init| && ResultId(init[t]) == Some(id);
        assert ResultId(content[t]) == Some(id);
      }
      if HoldsResult(content, id) && !HoldsResult(init, id) {
        var t :| 0 <= t < |content| && ResultId(content[t]) == Some(id);
        assert t < |init| ==> ResultId(init[t]) == Some(id);
      }
    }
  }

  function Min(a: nat, b: nat): nat { if a < b then a else b }

  lemma CountSnoc(a: seq<Block>, b: Block, id: string)
    ensures Count(a + [b], id) == Count(a, id) + if ResultId(b) == Some(id) then 1 else 0
  {
    assert (a + [b])[..|a + [b]| - 1] == a;
  }

  lemma CountNext(content: seq<Block>, t: nat, id: string)
    requires t < |content|
    ensures Count(content[..t + 1], id) == Count(content[..t], id) + if ResultId(content[t]) == Some(id) then 1 else 0
  {
    assert content[..t + 1] == content[..t] + [content[t]];
    CountSnoc(content[..t], content[t], id);
  }

  /** Of one more block that is a result of `id`, what is kept. */
  lemma KeptResult(ms: seq<Turn>, j: nat, t: nat, id: string)
    requires j < |ms| && t < |ms[j].content| && ResultId(ms[j].content[t]) == Some(id)
    ensures Count(KeptResults(ms, j, t + 1), id)
         == Count(KeptResults(ms, j, t), id)
            + if Results(ms, j, id) + Count(ms[j].content[..t], id) < Pairs(ms, |ms|, id) then 1 else 0
  {
    CountSnoc(KeptResults(ms, j, t), ms[j].content[t], id);
    KeptSnoc(ms, j, t);
  }

  lemma KeptOther(ms: seq<Turn>, j: nat, t: nat, id: string)
    requires j < |ms| && t < |ms[j].content| && ResultId(ms[j].content[t]) != Some(id)
    ensures Count(KeptResults(ms, j, t + 1), id) == Count(KeptResults(ms, j, t), id)
  {
    CountSnoc(KeptResults(ms, j, t), ms[j].content[t], id);
    KeptSnoc(ms, j, t);
  }

  lemma KeptSnoc(ms: seq<Turn>, j: nat, t: nat)
    requires j < |ms| && t < |ms[j].content|
    ensures KeptResults(ms, j, t + 1)
         == if Survives(ms, j, t) then KeptResults(ms, j, t) + [ms[j].content[t]] else KeptResults(ms, j, t)
  {
    assert KeptResults(ms, j, t) + [] == KeptResults(ms, j, t);
  }

  /** The budget turns "how many results" into a minimum. */
  lemma {:induction false} KeptCount(ms: seq<Turn>, j: nat, t: nat, id: string)
    requires j < |ms| && t <= |ms[j].content|
    ensures Count(KeptResults(ms, j, t), id)
         == Min(Pairs(ms, |ms|, id), Results(ms, j, id) + Count(ms[j].content[..t], id))
            - Min(Pairs(ms, |ms|, id), Results(ms, j, id))
  {
    var c, budget, spent := ms[j].content, Pairs(ms, |ms|, id), Results(ms, j, id);
    if t == 0 {
      assert Count(c[..t], id) == 0 && Count(KeptResults(ms, j, t), id) == 0;
    } else {
      var p := t - 1;
      var more := if ResultId(c[p]) == Some(id) then 1 else 0;
      KeptCount(ms, j, p, id);
      var kept, seen := Count(KeptResults(ms, j, p), id), Count(c[..p], id);
      assert kept == Min(budget, spent + seen) - Min(budget, spent);
      CountNext(c, p, id);
      if more == 1 {
        KeptResult(ms, j, p, id);
      } else {
        KeptOther(ms, j, p, id);
      }
      MinStep(budget, spent, seen, more);
      assert Count(KeptResults(ms, j, t), id) == kept + if spent + seen < budget then more else 0;
      assert Count(c[..t], id) == seen + more;
    }
  }

  lemma MinStep(budget: nat, spent: nat, seen: nat, more: nat)
    requires more <= 1
    ensures Min(budget, spent + seen + more) - Min(budget, spent)
         == Min(budget, spent + seen) - Min(budget, spent) + if spent + seen < budget then more else 0
  {
  }

  lemma CountNonEmpty(content: seq<Block>, id: string)
    ensures Count(NonEmpty(content), id) == Count(content, id)
  {
    if content == [] {
      assert [BLANK][..0] == [];
    }
  }

  /** Results of `id` that message `j` keeps. */
  lemma RepairedCount(ms: seq<Turn>, j: nat, id: string)
    requires j < |ms|
    ensures TurnResults(Repaired(ms, j), id)
         == Min(Pairs(ms, |ms|, id), Results(ms, j + 1, id)) - Min(Pairs(ms, |ms|, id), Results(ms, j, id))
  {
    if ms[j].role == User {
      var c := ms[j].content;
      KeptCount(ms, j, |c|, id);
      assert c[..|c|] == c;
      CountNonEmpty(KeptResults(ms, j, |c|), id);
    }
  }

  lemma {:induction false} ResultsAfter(ms: seq<Turn>, n: nat, id: string)
    requires n <= |ms|
    ensures Results(RepairAll(ms), n, id) == Min(Pairs(ms, |ms|, id), Results(ms, n, id))
  {
    if n > 0 {
      ResultsAfter(ms, n - 1, id);
      RepairedCount(ms, n - 1, id);
    }
  }

  lemma {:induction false} KeptUsesHold(ms: seq<Turn>, i: nat, t: nat, id: string)
    requires i < |ms| && t <= |ms[i].content|
    ensures HoldsUse(KeptUses(ms, i, t), id) <==> HoldsUse(ms[i].content[..t], id) && Paired(ms, i, id)
  {
    if t > 0 {
      KeptUsesHold(ms, i, t - 1, id);
      var c, k := ms[i].content, KeptUses(ms, i, t - 1);
      var b := c[t - 1];
      HoldsUseSnoc(c[..t - 1], b, id);
      assert c[..t] == c[..t - 1] + [b];
      HoldsUseSnoc(k, b, id);
      assert k + [] == k;
    }
  }

  lemma HoldsUseSnoc(a: seq<Block>, b: Block, id: string)
    ensures HoldsUse(a + [b], id) <==> HoldsUse(a, id) || UseId(b) == Some(id)
  {
    if HoldsUse(a, id) {
      var t :| 0 <= t < |a| && UseId(a[t]) == Some(id);
      assert UseId((a + [b])[t]) == Some(id);
    }
    if UseId(b) == Some(id) {
      assert UseId((a + [b])[|a|]) == Some(id);
    }
    if HoldsUse(a + [b], id) && UseId(b) != Some(id) {
      var t :| 0 <= t < |a + [b]| && UseId((a + [b])[t]) == Some(id);
      assert UseId(a[t]) == Some(id);
    }
  }

  /** An assistant message keeps exactly the uses that were paired. */
  lemma UsesAfter(ms: seq<Turn>, i: nat, id: string)
    requires i < |ms| && ms[i].role == Assistant
    ensures HoldsUse(RepairAll(ms)[i].content, id) <==> Paired(ms, i, id)
  {
    var c := ms[i].content;
    if HasUses(c) {
      KeptUsesHold(ms, i, |c|, id);
      assert c[..|c|] == c;
    } else {
      assert !HoldsUse(c, id);
    }
  }

  // ---------------------------------------------------------------- which blocks stay

  /** Block `t` of message `i` stays: in an assistant message, if it is no use or the next message answers its
      id; in a user message, if it is no result or fewer results of its id come before it, anywhere, than
      the id has answered assistant messages. */
  predicate Stays(ms: seq<Turn>, i: nat, t: nat)
    requires i < |ms| && t < |ms[i].content|
  {
    var c := ms[i].content;
    if ms[i].role == Assistant then UseId(c[t]).None? || Paired(ms, i, UseId(c[t]).value)
    else ResultId(c[t]).None?
         || Results(ms, i, ResultId(c[t]).value) + Count(c[..t], ResultId(c[t]).value)
            < Pairs(ms, |ms|, ResultId(c[t]).value)
  }

  /** `out` is message `i` with exactly the blocks that stay, in their order; a blank stands for none, but an
      assistant message that was empty to begin with is left so. */
  predicate HoldsWhatStays(ms: seq<Turn>, i: nat, out: Turn)
    requires i < |ms|
  {
    var c := ms[i].content;
    var staying := Selected(c, |c|, (t: nat) => t < |c| && Stays(ms, i, t));
    && out.role == ms[i].role
    && out.content == if staying == [] && !(ms[i].role == Assistant && c == []) then [Text(" ")] else staying
  }

  function KeptBlocks(ms: seq<Turn>, i: nat, n: nat): seq<Block>
    requires i < |ms| && n <= |ms[i].content|
  {
    if ms[i].role == Assistant then KeptUses(ms, i, n) else KeptResults(ms, i, n)
  }

  lemma KeptBlocksNext(ms: seq<Turn>, i: nat, n: nat)
    requires i < |ms| && n < |ms[i].content|
    ensures KeptBlocks(ms, i, n + 1)
         == if Stays(ms, i, n) then KeptBlocks(ms, i, n) + [ms[i].content[n]] else KeptBlocks(ms, i, n)
  {
    assert KeptBlocks(ms, i, n) + [] == KeptBlocks(ms, i, n);
  }

  lemma {:induction false} KeptIsSelected(ms: seq<Turn>, i: nat, n: nat, keep: nat -> bool)
    requires i < |ms| && n <= |ms[i].content|
    requires forall t: nat :: t < |ms[i].content| ==> keep(t) == Stays(ms, i, t)
    ensures KeptBlocks(ms, i, n) == Selected(ms[i].content, n, keep)
  {
    if n > 0 {
      KeptIsSelected(ms, i, n - 1, keep);
      KeptBlocksNext(ms, i, n - 1);
      SelectedNext(ms[i].content, n - 1, keep);
    }
  }

  lemma NoUsesStay(ms: seq<Turn>, i: nat, t: nat)
    requires i < |ms| && t <= |ms[i].content| && !HasUses(ms[i].content)
    ensures KeptUses(ms, i, t) == ms[i].content[..t]
  {
    if t > 0 {
      NoUsesStay(ms, i, t - 1);
      assert ms[i].content[..t] == ms[i].content[..t - 1] + [ms[i].content[t - 1]];
    }
  }

  /** After the repair message `i` holds, in order, exactly the blocks that stay: every text and image, the
      uses that the next message answers, and the results that the budget still pays for. */
  lemma RepairSelects(ms: seq<Turn>, i: nat)
    requires i < |ms|
    ensures HoldsWhatStays(ms, i, RepairAll(ms)[i])
  {
    var c := ms[i].content;
    KeptIsSelected(ms, i, |c|, (t: nat) => t < |c| && Stays(ms, i, t));
    if ms[i].role == Assistant && !HasUses(c) {
      NoUsesStay(ms, i, |c|);
      assert c[..|c|] == c;
    }
  }

  /** The repair changes nothing else: message by message, the merged list with what stays. */
  lemma SanitizedSelects(ms: seq<Turn>)
    ensures |Sanitized(ms)| == |Merged(ms)|
    ensures forall i :: 0 <= i < |Merged(ms)| ==> HoldsWhatStays(Merged(ms), i, Sanitized(ms)[i])
  {
    var m := Merged(ms);
    forall i | 0 <= i < |m| ensures HoldsWhatStays(m, i, Sanitized(ms)[i]) {
      RepairSelects(m, i);
    }
  }

  const CHECK: Turn := Turn(Assistant, [Text("Let me check."), ToolUse(ToolId("a", Some("a")), "f", "")])

  /** A use that is not answered next door goes, the text beside it stays. */
  lemma TextStaysExample()
    ensures var late := Turn(User, [ToolResult(ToolId("a", Some("a")), [], false)]);
      Repaired([CHECK, Turn(User, [Text("wait")]), late], 0) == Turn(Assistant, [Text("Let me check.")])
  {
    var ms := [CHECK, Turn(User, [Text("wait")]), Turn(User, [ToolResult(ToolId("a", Some("a")), [], false)])];
    assert !HoldsResult(ms[1].content, "a");
    assert UseId(CHECK.content[1]) == Some("a");
    assert KeptUses(ms, 0, 1) == [Text("Let me check.")];
    assert KeptUses(ms, 0, 2) == KeptUses(ms, 0, 1) + [];
  }

  // ---------------------------------------------------------------- conservation

  /** Assistant messages among the first `n` that hold a use of `id`. */
  function Askers(ms: seq<Turn>, n: nat, id: string): nat
    requires n <= |ms|
  {
    if n == 0 then 0
    else Askers(ms, n - 1, id) + if ms[n - 1].role == Assistant && HoldsUse(ms[n - 1].content, id) then 1 else 0
  }

  /** Every pair is paid for by a result in the message right after it. */
  lemma {:induction false} PairsWithinResults(ms: seq<Turn>, n: nat, id: string)
    requires n < |ms|
    ensures Pairs(ms, n, id) <= Results(ms, n + 1, id)
  {
    if n > 0 {
      PairsWithinResults(ms, n - 1, id);
      HoldsResultIffCount(ms[n].content, id);
    }
  }

  lemma AllPairsWithinResults(ms: seq<Turn>, id: string)
    ensures Pairs(ms, |ms|, id) <= Results(ms, |ms|, id)
  {
    if ms != [] {
      PairsWithinResults(ms, |ms| - 1, id);
    }
  }

  lemma {:induction false} AskersAfter(ms: seq<Turn>, n: nat, id: string)
    requires n <= |ms|
    ensures Askers(RepairAll(ms), n, id) == Pairs(ms, n, id)
  {
    if n > 0 {
      AskersAfter(ms, n - 1, id);
      if ms[n - 1].role == Assistant {
        UsesAfter(ms, n - 1, id);
      }
    }
  }

  /** Every id has as many results in user messages as assistant messages asking for it. */
  ghost predicate Balanced(m: seq<Turn>) {
    forall id :: Results(m, |m|, id) == Askers(m, |m|, id)
  }

  lemma RepairAllBalanced(m: seq<Turn>)
    ensures Balanced(RepairAll(m))
  {
    forall id ensures Results(RepairAll(m), |m|, id) == Askers(RepairAll(m), |m|, id) {
      ResultsAfter(m, |m|, id);
      AskersAfter(m, |m|, id);
      AllPairsWithinResults(m, id);
    }
  }

  /** Conservation: for every conversation and every id, as many results stay in user messages as
      there are assistant messages that still ask for them; and both are the number of pairs. */
  lemma Conservation(ms: seq<Turn>, id: string)
    ensures var out := Sanitized(ms);
      && Results(out, |out|, id) == Askers(out, |out|, id) == Pairs(Merged(ms), |Merged(ms)|, id)
  {
    RepairAllBalanced(Merged(ms));
    AskersAfter(Merged(ms), |Merged(ms)|, id);
  }

  // ---------------------------------------------------------------- adjacency, exactly

  /** The message before `j` is an assistant message that asks for `id`. */
  predicate AskedBefore(out: seq<Turn>, j: int, id: string) {
    0 < j <= |out| && out[j - 1].role == Assistant && HoldsUse(out[j - 1].content, id)
  }

  /** Every surviving use has exactly one result in the next message, and every user message holds
      only results that the message just before asked for. */
  ghost predicate Adjacent(out: seq<Turn>) {
    forall j, id :: 0 <= j < |out| && out[j].role == User ==>
      Count(out[j].content, id) == if AskedBefore(out, j, id) then 1 else 0
  }

  /** Every use of an assistant message is answered by the next message. */
  ghost predicate Answered(out: seq<Turn>) {
    forall i, id :: 0 <= i < |out| && out[i].role == Assistant && HoldsUse(out[i].content, id) ==> Paired(out, i, id)
  }

  /** No user message with a surplus of results of an id comes before a later pair of that id. */
  ghost predicate NoEarlySurplus(m: seq<Turn>) {
    forall j, k, id :: 0 <= j < k < |m| && m[j].role == User && Paired(m, k, id) ==>
      Count(m[j].content, id) == if Paired(m, j - 1, id) then 1 else 0
  }

  /** The simpler sufficient condition: all results of an id sit in one user message. */
  ghost predicate OneHome(m: seq<Turn>) {
    forall j, k, id | 0 <= j < |m| && 0 <= k < |m| && m[j].role == User && m[k].role == User ::
      HoldsResult(m[j].content, id) && HoldsResult(m[k].content, id) ==> j == k
  }

  lemma {:induction false} PairsMonotone(ms: seq<Turn>, a: nat, b: nat, id: string)
    requires a <= b <= |ms|
    ensures Pairs(ms, a, id) <= Pairs(ms, b, id)
    ensures (forall k :: a <= k < b ==> !Paired(ms, k, id)) ==> Pairs(ms, a, id) == Pairs(ms, b, id)
  {
    if a < b {
      PairsMonotone(ms, a, b - 1, id);
    }
  }

  lemma {:induction false} ResultsMonotone(ms: seq<Turn>, a: nat, b: nat, id: string)
    requires a <= b <= |ms|
    ensures Results(ms, a, id) <= Results(ms, b, id)
  {
    if a < b {
      ResultsMonotone(ms, a, b - 1, id);
    }
  }

  /** Pairs whose answering message is among the first `n`. */
  function PaidPairs(ms: seq<Turn>, n: nat, id: string): nat
    requires n <= |ms|
  {
    Pairs(ms, if n == 0 then 0 else n - 1, id)
  }

  lemma PaidPairsStep(ms: seq<Turn>, n: nat, id: string)
    requires n < |ms|
    ensures PaidPairs(ms, n + 1, id) == PaidPairs(ms, n, id) + if Paired(ms, n - 1, id) then 1 else 0
    ensures Paired(ms, n - 1, id) ==> ms[n].role == User && Count(ms[n].content, id) >= 1
    ensures ms[n].role == User ==> Pairs(ms, n + 1, id) == PaidPairs(ms, n + 1, id)
  {
    HoldsResultIffCount(ms[n].content, id);
  }

  /** With no early surplus the budget is always spent on the message it was earned for. */
  lemma {:induction false} SpentInPlace(ms: seq<Turn>, n: nat, id: string)
    requires n <= |ms| && NoEarlySurplus(ms)
    ensures Min(Pairs(ms, |ms|, id), Results(ms, n, id)) == PaidPairs(ms, n, id)
  {
    if n > 0 {
      var j := n - 1;
      SpentInPlace(ms, j, id);
      PaidPairsStep(ms, j, id);
      PairsMonotone(ms, n, |ms|, id);
      PairsMonotone(ms, j, |ms|, id);
      if ms[j].role == User && Count(ms[j].content, id) != (if Paired(ms, j - 1, id) then 1 else 0) {
        assert forall k :: n <= k < |ms| ==> !Paired(ms, k, id);
      }
    }
  }

  /** Conversely, spending in place everywhere leaves no early surplus. */
  lemma SpentInPlaceConverse(ms: seq<Turn>, j: nat, k: nat, id: string)
    requires j < k < |ms| && ms[j].role == User && Paired(ms, k, id)
    requires forall n :: 0 <= n <= |ms| ==> Min(Pairs(ms, |ms|, id), Results(ms, n, id)) == PaidPairs(ms, n, id)
    ensures Count(ms[j].content, id) == if Paired(ms, j - 1, id) then 1 else 0
  {
    PaidPairsStep(ms, j, id);
    PairsMonotone(ms, j + 1, k, id);
    PairsMonotone(ms, k + 1, |ms|, id);
    assert Min(Pairs(ms, |ms|, id), Results(ms, j + 1, id)) == PaidPairs(ms, j + 1, id);
    assert Min(Pairs(ms, |ms|, id), Results(ms, j, id)) == PaidPairs(ms, j, id);
  }

  lemma AdjacentAt(m: seq<Turn>, j: nat, id: string)
    requires j < |m| && m[j].role == User
    ensures AskedBefore(RepairAll(m), j, id) <==> Paired(m, j - 1, id)
    ensures Count(RepairAll(m)[j].content, id)
         == Min(Pairs(m, |m|, id), Results(m, j + 1, id)) - Min(Pairs(m, |m|, id), Results(m, j, id))
  {
    RepairedCount(m, j, id);
    if j > 0 && m[j - 1].role == Assistant {
      UsesAfter(m, j - 1, id);
    }
  }

  lemma {:induction false} AdjacentSpends(m: seq<Turn>, n: nat, id: string)
    requires n <= |m| && Adjacent(RepairAll(m))
    ensures Min(Pairs(m, |m|, id), Results(m, n, id)) == PaidPairs(m, n, id)
  {
    if n > 0 {
      AdjacentSpends(m, n - 1, id);
      PaidPairsStep(m, n - 1, id);
      if m[n - 1].role == User {
        AdjacentAt(m, n - 1, id);
        assert RepairAll(m)[n - 1].role == User;
      }
    }
  }

  /** Adjacency of the repaired list, decided on the merged input. */
  lemma AdjacentExactly(m: seq<Turn>)
    ensures Adjacent(RepairAll(m)) <==> NoEarlySurplus(m)
  {
    var out := RepairAll(m);
    if NoEarlySurplus(m) {
      forall j, id | 0 <= j < |out| && out[j].role == User
        ensures Count(out[j].content, id)
             == if AskedBefore(out, j, id) then 1 else 0
      {
        AdjacentAt(m, j, id);
        SpentInPlace(m, j, id);
        SpentInPlace(m, j + 1, id);
        PaidPairsStep(m, j, id);
      }
    }
    if Adjacent(out) {
      forall j, k, id | 0 <= j < k < |m| && m[j].role == User && Paired(m, k, id)
        ensures Count(m[j].content, id) == if Paired(m, j - 1, id) then 1 else 0
      {
        forall n | 0 <= n <= |m|
          ensures Min(Pairs(m, |m|, id), Results(m, n, id)) == PaidPairs(m, n, id)
        {
          AdjacentSpends(m, n, id);
        }
        SpentInPlaceConverse(m, j, k, id);
      }
    }
  }

  lemma OneHomeSuffices(m: seq<Turn>)
    requires OneHome(m)
    ensures NoEarlySurplus(m)
  {
    forall j, k, id | 0 <= j < k < |m| && m[j].role == User && Paired(m, k, id)
      ensures Count(m[j].content, id) == if Paired(m, j - 1, id) then 1 else 0
    {
      HoldsResultIffCount(m[j].content, id);
      assert HoldsResult(m[k + 1].content, id);
    }
  }

  // ---------------------------------------------------------------- one result of each id

  /** Results of `id` from user message `j` on, at most, and in particular one there. */
  lemma {:induction false} ResultsAt(ms: seq<Turn>, j: nat, n: nat, id: string)
    requires j < n <= |ms|
    ensures Results(ms, n, id) >= Results(ms, j, id) + TurnResults(ms[j], id)
  {
    if j < n - 1 {
      ResultsAt(ms, j, n - 1, id);
    }
  }

  lemma OneResultAtMost(ms: seq<Turn>, id: string)
    requires Results(ms, |ms|, id) <= 1
    ensures forall j, k :: 0 <= j < k < |ms| ==> TurnResults(ms[j], id) + TurnResults(ms[k], id) <= 1
  {
    forall j, k | 0 <= j < k < |ms|
      ensures TurnResults(ms[j], id) + TurnResults(ms[k], id) <= 1
    {
      ResultsAt(ms, k, |ms|, id);
      ResultsAt(ms, j, k, id);
    }
  }

  lemma {:induction false} CountPlus(a: seq<Block>, b: seq<Block>, id: string)
    ensures Count(a + b, id) == Count(a, id) + Count(b, id)
  {
    if b == [] {
      assert a + b == a;
    } else {
      CountPlus(a, b[..|b| - 1], id);
      assert (a + b)[..|a + b| - 1] == a + b[..|b| - 1];
    }
  }

  /** Results only depend on the messages they are counted in. */
  lemma {:induction false} ResultsSame(a: seq<Turn>, b: seq<Turn>, n: nat, id: string)
    requires n <= |a| && n <= |b| && forall i :: 0 <= i < n ==> a[i] == b[i]
    ensures Results(a, n, id) == Results(b, n, id)
  {
    if n > 0 {
      ResultsSame(a, b, n - 1, id);
    }
  }

  lemma ResultsSnoc(ms: seq<Turn>, m: Turn, id: string)
    ensures Results(ms + [m], |ms| + 1, id) == Results(ms, |ms|, id) + TurnResults(m, id)
  {
    ResultsSame(ms + [m], ms, |ms|, id);
  }

  lemma MergeOneResults(done: seq<Turn>, m: Turn, id: string)
    ensures Results(MergeOne(done, m), |MergeOne(done, m)|, id) == Results(done, |done|, id) + TurnResults(m, id)
  {
    ResultsSnoc(done, m, id);
    if MergeOne(done, m) != done + [m] {
      var init, last := done[..|done| - 1], done[|done| - 1];
      ResultsSnoc(init, last, id);
      ResultsSnoc(init, Turn(User, last.content + m.content), id);
      assert init + [last] == done;
      CountPlus(last.content, m.content, id);
    }
  }

  /** Merging neither adds nor drops a result. */
  lemma {:induction false} MergedResults(ms: seq<Turn>, id: string)
    ensures Results(Merged(ms), |Merged(ms)|, id) == Results(ms, |ms|, id)
  {
    if ms != [] {
      var init, last := ms[..|ms| - 1], ms[|ms| - 1];
      assert init + [last] == ms;
      calc {
        Results(Merged(ms), |Merged(ms)|, id);
        { MergeOneResults(Merged(init), last, id); }
        Results(Merged(init), |Merged(init)|, id) + TurnResults(last, id);
        { MergedResults(init, id); }
        Results(init, |init|, id) + TurnResults(last, id);
        { ResultsSnoc(init, last, id); }
        Results(ms, |ms|, id);
      }
    }
  }

  /** When user messages hold at most one result of every id, each id has one home after the merge. */
  lemma OneResultOneHome(ms: seq<Turn>)
    requires forall id :: Results(ms, |ms|, id) <= 1
    ensures OneHome(Merged(ms))
  {
    var m := Merged(ms);
    forall j, k, id | 0 <= j < k < |m| && m[j].role == User && m[k].role == User
      ensures !(HoldsResult(m[j].content, id) && HoldsResult(m[k].content, id))
    {
      MergedResults(ms, id);
      OneResultAtMost(m, id);
      assert TurnResults(m[j], id) + TurnResults(m[k], id) <= 1;
      HoldsResultIffCount(m[j].content, id);
      HoldsResultIffCount(m[k].content, id);
    }
  }

  // ---------------------------------------------------------------- idempotence, exactly

  ghost predicate NoAdjacentResultOnly(ms: seq<Turn>) {
    forall i :: 0 < i < |ms| ==> !(ResultOnly(ms[i - 1]) && ResultOnly(ms[i]))
  }

  /** A conversation as one list of blocks, each with the role that said it. */
  function Flat(ms: seq<Turn>): seq<(Role, Block)> {
    if ms == [] then [] else Flat(ms[..|ms| - 1]) + Said(ms[|ms| - 1])
  }

  function Said(m: Turn): (r: seq<(Role, Block)>)
    ensures |r| == |m.content|
  {
    seq(|m.content|, i requires 0 <= i < |m.content| => (m.role, m.content[i]))
  }

  lemma FlatSnoc(ms: seq<Turn>, m: Turn)
    ensures Flat(ms + [m]) == Flat(ms) + Said(m)
  {
    assert (ms + [m])[..|ms + [m]| - 1] == ms;
  }

  lemma MergeOneFlat(done: seq<Turn>, m: Turn)
    ensures Flat(MergeOne(done, m)) == Flat(done) + Said(m)
  {
    FlatSnoc(done, m);
    if MergeOne(done, m) != done + [m] {
      var init, last := done[..|done| - 1], done[|done| - 1];
      var both := Turn(User, last.content + m.content);
      FlatSnoc(init, both);
      FlatSnoc(init, last);
      assert init + [last] == done;
      assert Said(both) == Said(last) + Said(m);
      Regroup(Flat(init), Said(last), Said(m));
    }
  }

  lemma NoAdjacentSnoc(done: seq<Turn>, m: Turn)
    requires NoAdjacentResultOnly(done)
    requires done != [] ==> !(ResultOnly(done[|done| - 1]) && ResultOnly(m))
    ensures NoAdjacentResultOnly(done + [m])
  {
  }

  lemma MergeOneApart(done: seq<Turn>, m: Turn)
    requires NoAdjacentResultOnly(done)
    ensures NoAdjacentResultOnly(MergeOne(done, m))
  {
    if done != [] && ResultOnly(done[|done| - 1]) && ResultOnly(m) {
      NoAdjacentSnoc(done[..|done| - 1], Turn(User, done[|done| - 1].content + m.content));
    } else {
      NoAdjacentSnoc(done, m);
    }
  }

  /** Merging moves no block and leaves no two result-only neighbours. */
  lemma {:induction false} MergedProperties(ms: seq<Turn>)
    ensures Flat(Merged(ms)) == Flat(ms)
    ensures NoAdjacentResultOnly(Merged(ms))
  {
    if ms != [] {
      MergedProperties(ms[..|ms| - 1]);
      MergeOneFlat(Merged(ms[..|ms| - 1]), ms[|ms| - 1]);
      MergeOneApart(Merged(ms[..|ms| - 1]), ms[|ms| - 1]);
    }
  }

  /** Message `i` hands its blocks to the one before it. */
  predicate HandsOver(ms: seq<Turn>, i: nat)
    requires i < |ms|
  {
    i > 0 && ResultOnly(ms[i - 1]) && ResultOnly(ms[i])
  }

  function Staying(ms: seq<Turn>, n: nat): nat
    requires n <= |ms|
  {
    if n == 0 then 0 else Staying(ms, n - 1) + if HandsOver(ms, n - 1) then 0 else 1
  }

  /** Exactly the result-only messages that follow another one are merged away. */
  lemma {:induction false} MergedLength(ms: seq<Turn>, n: nat)
    requires n <= |ms|
    ensures |Merged(ms[..n])| == Staying(ms, n)
    ensures n > 0 ==> var m := Merged(ms[..n]); m != [] && (ResultOnly(m[|m| - 1]) <==> ResultOnly(ms[n - 1]))
  {
    if n > 0 {
      MergedLength(ms, n - 1);
      assert ms[..n][..n - 1] == ms[..n - 1] && ms[..n][n - 1] == ms[n - 1];
      var done := Merged(ms[..n - 1]);
      if done != [] && ResultOnly(done[|done| - 1]) && ResultOnly(ms[n - 1]) {
        BothResultOnly(done[|done| - 1], ms[n - 1]);
      }
    }
  }

  lemma BothResultOnly(a: Turn, b: Turn)
    requires ResultOnly(a) && ResultOnly(b)
    ensures ResultOnly(Turn(User, a.content + b.content))
  {
  }

  /** Merging neither loses the conversation nor empties a message. */
  lemma {:induction false} MergedHasContent(ms: seq<Turn>)
    requires NoneEmpty(ms)
    ensures NoneEmpty(Merged(ms))
    ensures ms != [] ==> Merged(ms) != []
  {
    if ms != [] {
      MergedHasContent(ms[..|ms| - 1]);
      MergeOneNoneEmpty(Merged(ms[..|ms| - 1]), ms[|ms| - 1]);
    }
  }

  ghost predicate NoneEmpty(ms: seq<Turn>) {
    forall i :: 0 <= i < |ms| ==> ms[i].content != []
  }

  lemma MergeOneNoneEmpty(done: seq<Turn>, m: Turn)
    requires NoneEmpty(done) && m.content != []
    ensures NoneEmpty(MergeOne(done, m)) && MergeOne(done, m) != []
  {
  }

  /** Merging changes nothing when there is nothing to merge. */
  lemma {:induction false} MergedFixed(ms: seq<Turn>)
    requires NoAdjacentResultOnly(ms)
    ensures Merged(ms) == ms
  {
    if ms != [] {
      var init, last := ms[..|ms| - 1], ms[|ms| - 1];
      MergedFixed(init);
      if init != [] {
        assert !(ResultOnly(ms[|ms| - 2]) && ResultOnly(last)) && init[|init| - 1] == ms[|ms| - 2];
      }
      assert MergeOne(init, last) == init + [last] == ms;
    }
  }

  lemma {:induction false} KeepsNonResult(ms: seq<Turn>, j: nat, t: nat, u: nat)
    requires j < |ms| && u < t <= |ms[j].content| && ResultId(ms[j].content[u]) == None
    ensures ms[j].content[u] in KeptResults(ms, j, t)
  {
    if u < t - 1 {
      KeepsNonResult(ms, j, t - 1, u);
    }
  }

  lemma ResultOnlyBefore(m: seq<Turn>, i: nat)
    requires i < |m| && !ResultOnly(m[i])
    ensures !ResultOnly(Repaired(m, i))
  {
    var c := m[i].content;
    if m[i].role == User {
      if c == [] {
        assert BLANK in Repaired(m, i).content;
      } else {
        var u :| 0 <= u < |c| && ResultId(c[u]) == None;
        KeepsNonResult(m, i, |c|, u);
        assert c[u] in Repaired(m, i).content;
      }
    }
  }

  lemma RepairKeepsApart(m: seq<Turn>)
    requires NoAdjacentResultOnly(m)
    ensures NoAdjacentResultOnly(RepairAll(m))
  {
    forall i | 0 <= i < |m| && !ResultOnly(m[i])
      ensures !ResultOnly(RepairAll(m)[i])
    {
      ResultOnlyBefore(m, i);
    }
  }

  lemma AdjacentIsAnswered(m: seq<Turn>)
    requires Adjacent(RepairAll(m))
    ensures Answered(RepairAll(m))
  {
    var out := RepairAll(m);
    forall i, id | 0 <= i < |out| && out[i].role == Assistant && HoldsUse(out[i].content, id)
      ensures Paired(out, i, id)
    {
      UsesAfter(m, i, id);
      HoldsResultIffCount(out[i + 1].content, id);
    }
  }

  lemma AnsweredPaysStep(m: seq<Turn>, n: nat, id: string)
    requires n < |m| && Answered(RepairAll(m)) && Paired(m, n - 1, id)
    ensures TurnResults(RepairAll(m)[n], id) >= 1
  {
    var out := RepairAll(m);
    UsesAfter(m, n - 1, id);
    assert out[n - 1].role == Assistant;
    assert Paired(out, n - 1, id);
    HoldsResultIffCount(out[n].content, id);
  }

  /** What the first `n` messages hold back, and what the rest must still pay. */
  lemma {:induction false} AnsweredPays(m: seq<Turn>, a: nat, b: nat, id: string)
    requires a <= b <= |m| && Answered(RepairAll(m))
    ensures Results(RepairAll(m), b, id) - Results(RepairAll(m), a, id) >= PaidPairs(m, b, id) - PaidPairs(m, a, id)
  {
    if a < b {
      AnsweredPays(m, a, b - 1, id);
      PaidPairsStep(m, b - 1, id);
      if Paired(m, b - 2, id) {
        AnsweredPaysStep(m, b - 1, id);
      }
    }
  }

  lemma AnsweredExactly(m: seq<Turn>)
    ensures Answered(RepairAll(m)) <==> NoEarlySurplus(m)
  {
    AdjacentExactly(m);
    if NoEarlySurplus(m) {
      AdjacentIsAnswered(m);
    }
    if Answered(RepairAll(m)) {
      forall j, k, id | 0 <= j < k < |m| && m[j].role == User && Paired(m, k, id)
        ensures Count(m[j].content, id) == if Paired(m, j - 1, id) then 1 else 0
      {
        forall n | 0 <= n <= |m|
          ensures Min(Pairs(m, |m|, id), Results(m, n, id)) == PaidPairs(m, n, id)
        {
          AnsweredPays(m, 0, n, id);
          AnsweredPays(m, n, |m|, id);
          ResultsAfter(m, n, id);
          ResultsAfter(m, |m|, id);
          AllPairsWithinResults(m, id);
        }
        SpentInPlaceConverse(m, j, k, id);
      }
    }
  }

  lemma {:induction false} AnsweredAskers(out: seq<Turn>, n: nat, id: string)
    requires n <= |out| && Answered(out)
    ensures Askers(out, n, id) == Pairs(out, n, id)
  {
    if n > 0 {
      AnsweredAskers(out, n - 1, id);
    }
  }

  lemma {:induction false} KeptAll(out: seq<Turn>, j: nat, t: nat)
    requires j < |out| && t <= |out[j].content|
    requires forall u :: 0 <= u < t ==> Survives(out, j, u)
    ensures KeptResults(out, j, t) == out[j].content[..t]
  {
    if t > 0 {
      KeptAll(out, j, t - 1);
      assert out[j].content[..t] == out[j].content[..t - 1] + [out[j].content[t - 1]];
    }
  }

  lemma {:induction false} KeptAllUses(out: seq<Turn>, j: nat, t: nat)
    requires j < |out| && t <= |out[j].content|
    requires forall u :: 0 <= u < t ==> UseStays(out, j, out[j].content[u])
    ensures KeptUses(out, j, t) == out[j].content[..t]
  {
    if t > 0 {
      KeptAllUses(out, j, t - 1);
      assert out[j].content[..t] == out[j].content[..t - 1] + [out[j].content[t - 1]];
    }
  }

  lemma {:induction false} CountPrefix(content: seq<Block>, t: nat, id: string)
    requires t <= |content|
    ensures Count(content[..t], id) <= Count(content, id)
  {
    if t < |content| {
      var init := content[..|content| - 1];
      CountPrefix(init, t, id);
      assert init[..t] == content[..t];
    } else {
      assert content[..t] == content;
    }
  }

  lemma AnsweredSurvives(out: seq<Turn>, i: nat, u: nat, id: string)
    requires Answered(out) && i < |out| && out[i].role == User && u < |out[i].content|
    requires ResultId(out[i].content[u]) == Some(id) && Results(out, |out|, id) == Askers(out, |out|, id)
    ensures Survives(out, i, u)
  {
    var c := out[i].content;
    assert c[..u + 1] == c[..u] + [c[u]];
    CountSnoc(c[..u], c[u], id);
    CountPrefix(c, u + 1, id);
    ResultsMonotone(out, i + 1, |out|, id);
    AnsweredAskers(out, |out|, id);
  }

  /** Where askers and results balance, an answered list survives a second repair block by block. */
  lemma AnsweredIsFixedAt(out: seq<Turn>, i: nat)
    requires Answered(out) && i < |out| && out[i].content != []
    requires Balanced(out)
    ensures Repaired(out, i) == out[i]
  {
    var c := out[i].content;
    assert c[..|c|] == c;
    if out[i].role == User {
      forall u | 0 <= u < |c| && ResultId(c[u]).Some?
        ensures Survives(out, i, u)
      {
        AnsweredSurvives(out, i, u, ResultId(c[u]).value);
      }
      KeptAll(out, i, |c|);
    } else {
      forall u | 0 <= u < |c| && UseId(c[u]).Some?
        ensures UseStays(out, i, c[u])
      {
        assert HoldsUse(c, UseId(c[u]).value);
      }
      KeptAllUses(out, i, |c|);
    }
  }

  lemma AnsweredIsFixed(out: seq<Turn>)
    requires Answered(out) && forall m <- out :: m.content != []
    requires Balanced(out)
    ensures RepairAll(out) == out
  {
    forall i | 0 <= i < |out|
      ensures Repaired(out, i) == out[i]
    {
      assert out[i] in out;
      AnsweredIsFixedAt(out, i);
    }
  }

  lemma FixedIsAnswered(m: seq<Turn>)
    requires RepairAll(m) == m
    ensures Answered(m)
  {
    forall i, id | 0 <= i < |m| && m[i].role == Assistant && HoldsUse(m[i].content, id)
      ensures Paired(m, i, id)
    {
      UsesAfter(m, i, id);
    }
  }

  /** The repair drops nothing exactly from a list whose uses are answered next door and whose ids
      balance. */
  lemma KeepsEverythingExactly(m: seq<Turn>)
    requires forall t <- m :: t.content != []
    ensures RepairAll(m) == m <==> Answered(m) && Balanced(m)
  {
    if RepairAll(m) == m {
      RepairAllBalanced(m);
      FixedIsAnswered(m);
    } else if Answered(m) && Balanced(m) {
      AnsweredIsFixed(m);
    }
  }

  /** Every message the repair returns has content, if every message it was given had some. */
  lemma SanitizedHasContent(ms: seq<Turn>)
    requires forall m <- ms :: m.content != []
    ensures forall m <- Sanitized(ms) :: m.content != []
    ensures ms != [] ==> Sanitized(ms) != []
  {
    MergedHasContent(ms);
    var m := Merged(ms);
    assert forall i :: 0 <= i < |m| ==> Repaired(m, i).content != [];
  }

  /** The repair is idempotent, every use is answered next door, and every result belongs next door,
      all under one and the same condition on the merged input. */
  lemma SanitizedExactly(ms: seq<Turn>)
    requires forall m <- ms :: m.content != []
    ensures var out := Sanitized(ms);
      && (Sanitized(out) == out <==> NoEarlySurplus(Merged(ms)))
      && (Adjacent(out) <==> NoEarlySurplus(Merged(ms)))
      && (Answered(out) <==> NoEarlySurplus(Merged(ms)))
  {
    var m, out := Merged(ms), Sanitized(ms);
    MergedProperties(ms);
    RepairKeepsApart(m);
    MergedFixed(out);
    AdjacentExactly(m);
    AnsweredExactly(m);
    SanitizedHasContent(ms);
    if Answered(out) {
      RepairAllBalanced(m);
      AnsweredIsFixed(out);
    }
    if Sanitized(out) == out {
      FixedIsAnswered(out);
    }
  }

  const ASK: Block := ToolUse(ToolId("a", Some("a")), "f", "")
  const REPLY: Block := ToolResult(ToolId("a", Some("a")), [], false)
  const REPEATED: seq<Turn> :=
    [Turn(Assistant, [ASK]), Turn(User, [REPLY, REPLY]), Turn(Assistant, [ASK]), Turn(User, [REPLY])]

  lemma SurplusAt(m: seq<Turn>, j: nat, k: nat, id: string)
    requires j < k < |m| && m[j].role == User && Paired(m, k, id) && Count(m[j].content, id) > 1
    ensures !NoEarlySurplus(m)
  {
    var before := Paired(m, j - 1, id);
    assert Count(m[j].content, id) != if before then 1 else 0;
  }

  lemma TwoReplies()
    ensures Count([REPLY, REPLY], "a") == 2
  {
    CountSnoc([], REPLY, "a");
    CountSnoc([REPLY], REPLY, "a");
    assert [REPLY, REPLY] == [REPLY] + [REPLY] && [REPLY] == [] + [REPLY];
  }

  lemma RepeatedPaired()
    ensures Paired(REPEATED, 2, "a")
  {
    assert UseId([ASK][0]) == Some("a") && ResultId([REPLY][0]) == Some("a");
    assert HoldsUse([ASK], "a") && HoldsResult([REPLY], "a");
  }

  lemma RepeatedHasSurplus()
    ensures !NoEarlySurplus(REPEATED)
  {
    TwoReplies();
    RepeatedPaired();
    SurplusAt(REPEATED, 1, 2, "a");
  }

  lemma RepeatedIsMerged()
    ensures Merged(REPEATED) == REPEATED
  {
    assert !ResultOnly(REPEATED[0]) && !ResultOnly(REPEATED[2]);
    MergedFixed(REPEATED);
  }

  /** A doubled result early on eats the budget that the same id earns later: one such conversation. */
  lemma EarlySurplusExample()
    ensures !Answered(Sanitized(REPEATED)) && !Adjacent(Sanitized(REPEATED))
    ensures Sanitized(Sanitized(REPEATED)) != Sanitized(REPEATED)
  {
    RepeatedIsMerged();
    RepeatedHasSurplus();
    assert forall m <- REPEATED :: m.content != [];
    SanitizedExactly(REPEATED);
  }
}
