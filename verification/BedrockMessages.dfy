/** The Bedrock executor's message objects: translation from OpenAI history and in-place repair. */
module BedrockMessages {
  import opened OrderedMap
  import opened BedrockPairs

  class Message {
    const role: Role
    var content: seq<Block>

    constructor (role: Role, content: seq<Block>)
      ensures Value() == Turn(role, content)
    {
      this.role := role;
      this.content := content;
    }

    function Value(): Turn
      reads this
    {
      Turn(role, content)
    }
  }

  ghost function Values(ms: seq<Message>): (r: seq<Turn>)
    reads ms
    ensures |r| == |ms|
  {
    seq(|ms|, i requires 0 <= i < |ms| reads ms => ms[i].Value())
  }

  /** The messages hold these turns, one by one. */
  ghost predicate Shows(ms: seq<Message>, ts: seq<Turn>)
    reads ms
  {
    |ms| == |ts| && forall k :: 0 <= k < |ms| ==> ms[k].Value() == ts[k]
  }

  lemma ShowsValues(ms: seq<Message>, ts: seq<Turn>)
    ensures Shows(ms, ts) <==> Values(ms) == ts
  {
    if Shows(ms, ts) {
      assert forall k :: 0 <= k < |ms| ==> Values(ms)[k] == ms[k].Value() == ts[k];
    }
    if Values(ms) == ts {
      assert forall k :: 0 <= k < |ms| ==> ms[k].Value() == Values(ms)[k];
    }
  }

  ghost predicate Apart(ms: seq<Message>) {
    forall i, j :: 0 <= i < j < |ms| ==> ms[i] != ms[j]
  }

  /** One step of the merge: a result-only message that follows another hands over its blocks. */
  method MergeNext(merged: seq<Message>, message: Message, ghost done: seq<Turn>) returns (r: seq<Message>)
    requires Apart(merged) && message !in merged && Shows(merged, done)
    modifies merged
    ensures Shows(r, MergeOne(done, old(message.Value())))
    ensures r == merged || r == merged + [message]
  {
    var last := |merged| - 1;
    if merged != [] && ResultOnly(merged[last].Value()) && ResultOnly(message.Value()) {
      var previous := merged[last];
      previous.content := previous.content + message.content;
      r := merged;
      assert forall k :: 0 <= k < last ==> merged[k] != previous;
    } else {
      r := merged + [message];
    }
  }

  /** Merged message `k` is input message `at[k]`, all of them before `n`. */
  ghost predicate MergedFrom(merged: seq<Message>, messages: seq<Message>, at: seq<nat>, n: nat)
    requires n <= |messages|
  {
    && |at| == |merged|
    && (forall k :: 0 <= k < |at| ==> at[k] < n && merged[k] == messages[at[k]])
    && (forall a, b :: 0 <= a < b < |at| ==> at[a] != at[b])
  }

  lemma MergedApart(merged: seq<Message>, messages: seq<Message>, at: seq<nat>, n: nat)
    requires n <= |messages| && Apart(messages) && MergedFrom(merged, messages, at, n)
    ensures Apart(merged)
  {
    forall a, b | 0 <= a < b < |merged| ensures merged[a] != merged[b] {
      assert at[a] != at[b];
    }
  }

  lemma MergedWithin(merged: seq<Message>, messages: seq<Message>, at: seq<nat>, n: nat)
    requires n <= |messages| && MergedFrom(merged, messages, at, n)
    ensures forall m :: m in merged ==> m in messages
  {
  }

  /** A message still to come is none of the merged ones. */
  lemma NotMergedYet(merged: seq<Message>, messages: seq<Message>, at: seq<nat>, n: nat, k: nat)
    requires n <= k < |messages| && Apart(messages) && MergedFrom(merged, messages, at, n)
    ensures messages[k] !in merged
  {
    forall a | 0 <= a < |merged| ensures merged[a] != messages[k] {
      assert at[a] < n;
    }
  }

  lemma PlacedNext(merged: seq<Message>, messages: seq<Message>, at: seq<nat>, n: nat, r: seq<Message>)
    requires n < |messages| && MergedFrom(merged, messages, at, n)
    requires r == merged || r == merged + [messages[n]]
    ensures MergedFrom(r, messages, if |r| == |merged| then at else at + [n], n + 1)
  {
  }

  /** Message `n` is merged in; the ones behind it stay as they were. */
  method MergeAt(merged: seq<Message>, messages: seq<Message>, n: nat, ghost was: seq<Turn>, ghost at: seq<nat>)
    returns (r: seq<Message>, ghost placed: seq<nat>)
    requires Apart(messages) && n < |messages| == |was| && MergedFrom(merged, messages, at, n)
    requires Shows(merged, Merged(was[..n]))
    requires forall k :: n <= k < |messages| ==> messages[k].Value() == was[k]
    modifies merged
    ensures MergedFrom(r, messages, placed, n + 1) && Shows(r, Merged(was[..n + 1]))
    ensures forall k :: n + 1 <= k < |messages| ==> messages[k].Value() == was[k]
  {
    MergedApart(merged, messages, at, n);
    NotMergedYet(merged, messages, at, n, n);
    MergedStep(was, n);
    assert messages[n].Value() == was[n];
    r := MergeNext(merged, messages[n], Merged(was[..n]));
    PlacedNext(merged, messages, at, n, r);
    placed := if |r| == |merged| then at else at + [n];
    forall k | n + 1 <= k < |messages| ensures messages[k].Value() == was[k] {
      NotMergedYet(merged, messages, at, n, k);
      assert old(messages[k].Value()) == was[k];
    }
  }

  /** The first result-only message of a run takes over the blocks of the others. */
  method MergeConsecutiveToolResultMessages(messages: seq<Message>) returns (merged: seq<Message>)
    requires Apart(messages)
    modifies messages
    ensures Values(merged) == Merged(old(Values(messages)))
    ensures Apart(merged) && forall m <- merged :: m in messages
  {
    ghost var was, at: seq<nat> := Values(messages), [];
    ShowsValues(messages, was);
    merged := [];
    for n := 0 to |messages|
      invariant MergedFrom(merged, messages, at, n)
      invariant Shows(merged, Merged(was[..n]))
      invariant forall k :: n <= k < |messages| ==> messages[k].Value() == was[k]
    {
      MergedWithin(merged, messages, at, n);
      merged, at := MergeAt(merged, messages, n, was, at);
    }
    MergedApart(merged, messages, at, |messages|);
    MergedWithin(merged, messages, at, |messages|);
    assert was[..|messages|] == was;
    ShowsValues(merged, Merged(was));
  }

  lemma MergedStep(was: seq<Turn>, n: nat)
    requires n < |was|
    ensures Merged(was[..n + 1]) == MergeOne(Merged(was[..n]), was[n])
  {
    assert was[..n + 1][..n] == was[..n];
  }

  function Remaining(counts: map<string, nat>, id: string): nat {
    if id in counts then counts[id] else 0
  }

  function UseIds(content: seq<Block>): set<string> {
    set b | b in content && UseId(b).Some? :: UseId(b).value
  }

  function ResultIds(content: seq<Block>): set<string> {
    set b | b in content && ResultId(b).Some? :: ResultId(b).value
  }

  lemma UseIdsEmpty(content: seq<Block>)
    ensures UseIds(content) == {} <==> !HasUses(content)
  {
    if HasUses(content) {
      var t :| 0 <= t < |content| && UseId(content[t]).Some?;
      assert UseId(content[t]).value in UseIds(content);
    }
  }

  function KeepAllowed(content: seq<Block>, allowed: set<string>): seq<Block> {
    if content == [] then []
    else
      var b := content[|content| - 1];
      KeepAllowed(content[..|content| - 1], allowed) + if UseId(b).None? || UseId(b).value in allowed then [b] else []
  }

  lemma {:induction false} KeepAllowedIsKeptUses(m: seq<Turn>, i: nat, t: nat, allowed: set<string>)
    requires i < |m| && t <= |m[i].content|
    requires forall id :: id in allowed <==> Paired(m, i, id)
    ensures KeepAllowed(m[i].content[..t], allowed) == KeptUses(m, i, t)
  {
    if t > 0 {
      KeepAllowedIsKeptUses(m, i, t - 1, allowed);
      assert m[i].content[..t][..t - 1] == m[i].content[..t - 1];
    }
  }

  /** One assistant message of the first pass: which ids stay, and the message left with them. */
  method TrimToolUses(message: Message, next: Message?, ghost m: seq<Turn>, ghost i: nat) returns (allowed: set<string>)
    requires i < |m| && message.Value() == m[i] && m[i].role == Assistant
    requires (next == null) == (i + 1 == |m|)
    requires next != null ==> next.Value() == m[i + 1]
    modifies message
    ensures message.Value() == Trimmed(m, i)
    ensures forall id :: id in allowed <==> Paired(m, i, id)
  {
    var nextIds := if next != null && next.role == User then ResultIds(next.content) else {};
    var useIds := UseIds(message.content);
    allowed := useIds * nextIds;
    assert forall id :: id in useIds <==> HoldsUse(m[i].content, id);
    if next != null {
      ghost var answers := m[i + 1].content;
      assert forall id :: id in ResultIds(answers) <==> HoldsResult(answers, id);
    }
    UseIdsEmpty(m[i].content);
    if useIds == {} {
      return;
    }
    KeepAllowedIsKeptUses(m, i, |m[i].content|, allowed);
    assert m[i].content[..|m[i].content|] == m[i].content;
    message.content := KeepAllowed(message.content, allowed);
    if message.content == [] {
      message.content := [BLANK];
    }
  }

  /** The budget after the assistant messages before `i`. */
  ghost predicate Earned(counts: map<string, nat>, m: seq<Turn>, i: nat)
    requires i <= |m|
  {
    forall id {:trigger Remaining(counts, id)} :: Remaining(counts, id) == Pairs(m, i, id)
  }

  /** One unit for every id that stays. */
  method Earn(counts: map<string, nat>, allowed: set<string>, ghost m: seq<Turn>, ghost i: nat)
    returns (r: map<string, nat>)
    requires i < |m| && Earned(counts, m, i)
    requires forall id :: id in allowed <==> Paired(m, i, id)
    ensures Earned(r, m, i + 1)
  {
    r := counts;
    var todo := allowed;
    while todo != {}
      invariant todo <= allowed
      invariant forall id :: Remaining(r, id) == Remaining(counts, id) + if id in allowed - todo then 1 else 0
    {
      var id :| id in todo;
      r := r[id := Remaining(r, id) + 1];
      todo := todo - {id};
    }
    forall id ensures Remaining(r, id) == Pairs(m, i + 1, id) {
      assert Remaining(counts, id) == Pairs(m, i, id);
    }
  }

  /** One assistant message of the first pass, with the budget it earns. */
  method TrimAndEarn(message: Message, next: Message?, counts: map<string, nat>, ghost m: seq<Turn>, ghost i: nat)
    returns (r: map<string, nat>)
    requires i < |m| && message.Value() == m[i] && m[i].role == Assistant && Earned(counts, m, i)
    requires (next == null) == (i + 1 == |m|)
    requires next != null ==> next.Value() == m[i + 1]
    modifies message
    ensures message.Value() == Trimmed(m, i) && Earned(r, m, i + 1)
  {
    var allowed := TrimToolUses(message, next, m, i);
    r := Earn(counts, allowed, m, i);
  }

  lemma NothingEarned(counts: map<string, nat>, m: seq<Turn>, i: nat)
    requires i < |m| && m[i].role == User && Earned(counts, m, i)
    ensures Earned(counts, m, i + 1)
  {
  }

  /** What is left of the budget of `id` once `spent` results of it have been seen. */
  function Left(budget: nat, spent: nat): nat {
    if spent < budget then budget - spent else 0
  }

  predicate Affordable(counts: map<string, nat>, b: Block) {
    ResultId(b) == None || Remaining(counts, ResultId(b).value) > 0
  }

  ghost predicate Spent(counts: map<string, nat>, r: map<string, nat>, keep: bool, b: Block) {
    forall id {:trigger Remaining(r, id)} ::
      Remaining(r, id) == Remaining(counts, id) - if keep && ResultId(b) == Some(id) then 1 else 0
  }

  /** One block of the second pass: is it kept, and what does that cost. */
  method Spend(counts: map<string, nat>, b: Block) returns (keep: bool, r: map<string, nat>)
    ensures keep == Affordable(counts, b)
    ensures Spent(counts, r, keep, b)
  {
    keep, r := true, counts;
    var resultId := ResultId(b);
    if resultId.Some? {
      var remaining := Remaining(counts, resultId.value);
      if remaining <= 0 {
        keep := false;
      } else {
        r := counts[resultId.value := remaining - 1];
      }
    }
  }

  /** `counts` is the budget once user messages before `j` and the first `t` blocks of `j` are seen. */
  ghost predicate Budgeted(counts: map<string, nat>, m: seq<Turn>, j: nat, t: nat)
    requires j < |m| && t <= |m[j].content|
  {
    forall id {:trigger Remaining(counts, id)} ::
      Remaining(counts, id) == Left(Pairs(m, |m|, id), Results(m, j, id) + Count(m[j].content[..t], id))
  }

  lemma BudgetedStep(was: map<string, nat>, r: map<string, nat>, keep: bool, m: seq<Turn>, j: nat, t: nat)
    requires j < |m| && t < |m[j].content| && Budgeted(was, m, j, t)
    requires var b := m[j].content[t];
      && keep == Affordable(was, b) && Spent(was, r, keep, b)
    ensures keep == Survives(m, j, t)
    ensures Budgeted(r, m, j, t + 1)
  {
    SurvivesIffAffordable(was, m, j, t);
    forall id
      ensures Remaining(r, id) == Left(Pairs(m, |m|, id), Results(m, j, id) + Count(m[j].content[..t + 1], id))
    {
      BudgetedStepAt(was, r, keep, m, j, t, id);
    }
  }

  lemma SurvivesIffAffordable(was: map<string, nat>, m: seq<Turn>, j: nat, t: nat)
    requires j < |m| && t < |m[j].content| && Budgeted(was, m, j, t)
    ensures Affordable(was, m[j].content[t]) == Survives(m, j, t)
  {
    var b := m[j].content[t];
    if ResultId(b).Some? {
      var id := ResultId(b).value;
      assert Remaining(was, id) == Left(Pairs(m, |m|, id), Results(m, j, id) + Count(m[j].content[..t], id));
    }
  }

  lemma SpentAt(was: map<string, nat>, r: map<string, nat>, keep: bool, b: Block, id: string)
    requires Spent(was, r, keep, b)
    ensures Remaining(r, id) == Remaining(was, id) - if keep && ResultId(b) == Some(id) then 1 else 0
  {
  }

  lemma BudgetedFor(was: map<string, nat>, m: seq<Turn>, j: nat, t: nat, id: string)
    requires j < |m| && t <= |m[j].content| && Budgeted(was, m, j, t)
    ensures Remaining(was, id) == Left(Pairs(m, |m|, id), Results(m, j, id) + Count(m[j].content[..t], id))
  {
  }

  /** One result more is paid for while there is budget. */
  lemma LeftNext(budget: nat, seen: nat)
    ensures Left(budget, seen + 1) == Left(budget, seen) - if Left(budget, seen) > 0 then 1 else 0
  {
  }

  /** The budget of one id over one block. */
  lemma BudgetedStepAt(
    was: map<string, nat>, r: map<string, nat>, keep: bool, m: seq<Turn>, j: nat, t: nat, id: string)
    requires j < |m| && t < |m[j].content| && Budgeted(was, m, j, t)
    requires var b := m[j].content[t];
      && keep == Affordable(was, b) && Spent(was, r, keep, b)
    ensures Remaining(r, id) == Left(Pairs(m, |m|, id), Results(m, j, id) + Count(m[j].content[..t + 1], id))
  {
    var content := m[j].content;
    SpentAt(was, r, keep, content[t], id);
    BudgetedFor(was, m, j, t, id);
    CountNext(content, t, id);
    LeftNext(Pairs(m, |m|, id), Results(m, j, id) + Count(content[..t], id));
  }

  method FilterResults(content: seq<Block>, counts: map<string, nat>, ghost m: seq<Turn>, ghost j: nat)
    returns (kept: seq<Block>, r: map<string, nat>)
    requires j < |m| && content == m[j].content && Budgeted(counts, m, j, 0)
    ensures kept == KeptResults(m, j, |content|)
    ensures Budgeted(r, m, j, |content|)
  {
    kept, r := [], counts;
    for t := 0 to |content|
      invariant kept == KeptResults(m, j, t)
      invariant Budgeted(r, m, j, t)
    {
      ghost var was := r;
      var keep;
      keep, r := Spend(r, content[t]);
      BudgetedStep(was, r, keep, m, j, t);
      if keep {
        kept := kept + [content[t]];
      }
    }
  }

  /** The budget before user message `j`. */
  ghost predicate BudgetedAt(counts: map<string, nat>, m: seq<Turn>, j: nat)
    requires j <= |m|
  {
    forall id {:trigger Remaining(counts, id)} ::
      Remaining(counts, id) == Left(Pairs(m, |m|, id), Results(m, j, id))
  }

  /** One user message of the second pass. */
  method SpendResults(message: Message, counts: map<string, nat>, ghost m: seq<Turn>, ghost j: nat)
    returns (r: map<string, nat>)
    requires j < |m| && message.Value() == m[j] && m[j].role == User && BudgetedAt(counts, m, j)
    modifies message
    ensures message.Value() == Repaired(m, j)
    ensures BudgetedAt(r, m, j + 1)
  {
    var content := message.content;
    assert content[..0] == [] && content[..|content|] == content;
    var kept;
    kept, r := FilterResults(content, counts, m, j);
    message.content := kept;
    if message.content == [] {
      message.content := [BLANK];
    }
  }

  lemma RoleStays(m: seq<Turn>, j: nat)
    requires j < |m|
    ensures Trimmed(m, j).role == Repaired(m, j).role == m[j].role
    ensures m[j].role == User ==> Trimmed(m, j) == m[j]
    ensures m[j].role == Assistant ==> Repaired(m, j) == Trimmed(m, j)
  {
  }

  lemma BudgetKept(counts: map<string, nat>, m: seq<Turn>, j: nat)
    requires j < |m| && m[j].role == Assistant && BudgetedAt(counts, m, j)
    ensures BudgetedAt(counts, m, j + 1)
  {
    forall id ensures Remaining(counts, id) == Left(Pairs(m, |m|, id), Results(m, j + 1, id)) {
      assert Results(m, j + 1, id) == Results(m, j, id);
    }
  }

  /** The messages hold `goal` before `i`, and from there on still `start`. */
  ghost predicate Midway(ms: seq<Message>, goal: seq<Turn>, start: seq<Turn>, i: nat)
    reads ms
  {
    && |ms| == |goal| == |start|
    && forall k :: 0 <= k < |ms| ==> ms[k].Value() == if k < i then goal[k] else start[k]
  }

  method FirstPassAssistant(normalized: seq<Message>, i: nat, counts: map<string, nat>, ghost m: seq<Turn>)
    returns (r: map<string, nat>)
    requires i < |normalized| == |m| && Earned(counts, m, i) && Midway(normalized, TrimAll(m), m, i)
    requires normalized[i].role == Assistant
    modifies normalized[i]
    ensures normalized[i].Value() == Trimmed(m, i) && Earned(r, m, i + 1)
  {
    assert normalized[i].Value() == m[i];
    var next: Message? := null;
    if i + 1 < |normalized| {
      next := normalized[i + 1];
      assert next.Value() == m[i + 1];
    }
    r := TrimAndEarn(normalized[i], next, counts, m, i);
  }

  /** The first pass at message `i`. */
  method FirstPassAt(normalized: seq<Message>, i: nat, counts: map<string, nat>, ghost m: seq<Turn>)
    returns (r: map<string, nat>)
    requires Apart(normalized) && i < |normalized| == |m|
    requires Earned(counts, m, i) && Midway(normalized, TrimAll(m), m, i)
    modifies normalized[i]
    ensures Midway(normalized, TrimAll(m), m, i + 1) && Earned(r, m, i + 1)
  {
    RoleStays(m, i);
    assert normalized[i].Value() == m[i];
    if normalized[i].role == Assistant {
      r := FirstPassAssistant(normalized, i, counts, m);
    } else {
      r := counts;
      NothingEarned(r, m, i);
    }
    assert forall k :: 0 <= k < |m| && k != i ==> normalized[k] != normalized[i];
  }

  /** Before the second pass nothing of the budget is spent. */
  lemma EarnedIsBudget(counts: map<string, nat>, m: seq<Turn>)
    requires Earned(counts, m, |m|)
    ensures BudgetedAt(counts, m, 0)
  {
    forall id ensures Remaining(counts, id) == Left(Pairs(m, |m|, id), Results(m, 0, id)) {
      assert Remaining(counts, id) == Pairs(m, |m|, id);
    }
  }

  /** First pass: assistant messages keep the uses answered next door, and earn budget for them. */
  method FirstPass(normalized: seq<Message>, ghost m: seq<Turn>) returns (counts: map<string, nat>)
    requires Apart(normalized) && Shows(normalized, m)
    modifies normalized
    ensures Shows(normalized, TrimAll(m))
    ensures BudgetedAt(counts, m, 0)
  {
    counts := map[];
    for i := 0 to |normalized|
      invariant Midway(normalized, TrimAll(m), m, i)
      invariant Earned(counts, m, i)
    {
      assert normalized[i] in normalized;
      counts := FirstPassAt(normalized, i, counts, m);
    }
    EarnedIsBudget(counts, m);
  }

  /** The second pass at message `j`. */
  method SecondPassAt(normalized: seq<Message>, j: nat, counts: map<string, nat>, ghost m: seq<Turn>)
    returns (r: map<string, nat>)
    requires Apart(normalized) && j < |normalized| == |m| && BudgetedAt(counts, m, j)
    requires Midway(normalized, RepairAll(m), TrimAll(m), j)
    modifies normalized[j]
    ensures Midway(normalized, RepairAll(m), TrimAll(m), j + 1) && BudgetedAt(r, m, j + 1)
  {
    RoleStays(m, j);
    assert normalized[j].Value() == Trimmed(m, j);
    if normalized[j].role == User {
      r := SpendResults(normalized[j], counts, m, j);
    } else {
      r := counts;
      BudgetKept(r, m, j);
    }
    assert forall k :: 0 <= k < |m| && k != j ==> normalized[k] != normalized[j];
  }

  /** Second pass: user messages spend it. */
  method SecondPass(normalized: seq<Message>, start: map<string, nat>, ghost m: seq<Turn>)
    requires Apart(normalized) && Shows(normalized, TrimAll(m)) && BudgetedAt(start, m, 0)
    modifies normalized
    ensures Shows(normalized, RepairAll(m))
  {
    var counts := start;
    for j := 0 to |normalized|
      invariant Midway(normalized, RepairAll(m), TrimAll(m), j)
      invariant BudgetedAt(counts, m, j)
    {
      assert normalized[j] in normalized;
      counts := SecondPassAt(normalized, j, counts, m);
    }
  }

  /** The whole repair, in place. */
  method SanitizeBedrockToolPairs(messages: seq<Message>) returns (normalized: seq<Message>)
    requires Apart(messages)
    modifies messages
    ensures Values(normalized) == Sanitized(old(Values(messages)))
    ensures Apart(normalized) && forall x <- normalized :: x in messages
  {
    normalized := MergeConsecutiveToolResultMessages(messages);
    ghost var m := Values(normalized);
    ShowsValues(normalized, m);
    assert forall k :: 0 <= k < |normalized| ==> normalized[k] in messages;
    var counts := FirstPass(normalized, m);
    SecondPass(normalized, counts, m);
    ShowsValues(normalized, RepairAll(m));
  }
}
