/** Whose answer a run of the base executor's request loop returns: when each repair retry is made, what it
    sends, and which fetch each outcome in the log is the answer to. */
module RetryAnswers {
  import opened OrderedMap
  import opened BaseRetry

  // ---------------------------------------------------------------- when a retry is made, and what it brings

  /** `r` is `b` with every budget above `max` lowered to it. */
  ghost predicate Lowered(r: Body, b: Body, max: nat) {
    && r.fields == b.fields && |r.budgets| == |b.budgets|
    && forall i :: 0 <= i < |b.budgets| ==> r.budgets[i] == if b.budgets[i] > max then max else b.budgets[i]
  }

  /** The first body of an attempt: what was built, under the maximum if one is known, and with context
      editing if that is on. */
  ghost predicate Opens(c: Config, st: State, b: Body, first: Body) {
    && (if st.thinkingMax.Some? then Lowered(first.(fields := b.fields), b, st.thinkingMax.value)
        else first.budgets == b.budgets)
    && first.fields
       == b.fields + if c.claudeLike && c.contextEditing && !st.contextEditingDisabled then {CONTEXT_FIELD} else {}
  }

  predicate EditingDue(c: Config, off: bool, body: Body, reply: Outcome) {
    c.contextEditing && !off && CONTEXT_FIELD in body.fields && reply.Is(400) && reply.complaint.contextEditing
  }

  predicate BudgetDue(known: Option<nat>, body: Body, reply: Outcome) {
    && known.None? && reply.Is(400) && reply.complaint.thinkingMax.Some?
    && exists i :: 0 <= i < |body.budgets| && body.budgets[i] > reply.complaint.thinkingMax.value
  }

  predicate Takeable(stripped: set<string>, body: Body, field: Option<string>) {
    field.Some? && field.value in body.fields && field.value !in stripped
  }

  /** The reply names a field of the body that has not been stripped yet: outright. */
  predicate Offends(stripped: set<string>, body: Body, reply: Outcome) {
    reply.Is(400) && Takeable(stripped, body, reply.complaint.offending)
  }

  /** Or only as unsupported. */
  predicate Unwelcome(stripped: set<string>, body: Body, reply: Outcome) {
    && reply.Is(400) && !Takeable(stripped, body, reply.complaint.offending)
    && Takeable(stripped, body, reply.complaint.unsupported)
  }

  /** The field that a retry leaves out: one named outright, or an unsupported one that could be learnt. */
  function Gone(stripped: set<string>, body: Body, reply: Outcome, learning: Learning): Option<string> {
    if Offends(stripped, body, reply) then reply.complaint.offending
    else if Unwelcome(stripped, body, reply) && learning == Learnt then reply.complaint.unsupported
    else None
  }

  /** An attempt from the first of its fetches on: which of the three retries were made, each on the reply to the
      body before it, what each sent, and whose answer the attempt ended with. */
  ghost predicate Story(c: Config, w: World, st: State, b: Body, t: Try, edits: nat, cuts: nat, gone: Option<string>) {
    var n := |st.sent|;
    var sent := t.st.sent;
    var last := n + edits + cuts;
    && |sent| == last + (if gone.Some? then 2 else 1) && sent[..n] == st.sent
    && Opens(c, st, b, sent[n])
    && edits == (if EditingDue(c, st.contextEditingDisabled, sent[n], w.net(n)) then 1 else 0)
    && (edits == 1 ==> sent[n + 1] == sent[n].(fields := sent[n].fields - {CONTEXT_FIELD}))
    && cuts == (if BudgetDue(st.thinkingMax, sent[n + edits], w.net(n + edits)) then 1 else 0)
    && (cuts == 1 ==> Lowered(sent[last], sent[last - 1], w.net(n + edits).complaint.thinkingMax.value))
    && gone == Gone(st.strippedFields, sent[last], w.net(last), w.learn(last + 1))
    && (gone.Some? ==> sent[last + 1] == sent[last].(fields := sent[last].fields - {gone.value}))
    && t.reply == if gone.Some? && !(w.net(last + 1).Threw? && !Offends(st.strippedFields, sent[last], w.net(last)))
                  then w.net(last + 1) else w.net(last)
  }

  /** What is remembered of it. */
  ghost predicate Lessons(c: Config, w: World, st: State, t: Try, edits: nat, cuts: nat, gone: Option<string>) {
    var n := |st.sent|;
    var last := n + edits + cuts;
    && |st.sent| <= |t.st.sent| && last < |t.st.sent| && t.st.log == st.log && t.st.waited == st.waited
    && |t.st.owners| == |t.st.sent| && |st.owners| == n && t.st.owners[..n] == st.owners
    && (forall k :: n <= k < |t.st.owners| ==> t.st.owners[k] == |st.log|)
    && (t.st.contextEditingDisabled <==> st.contextEditingDisabled || edits == 1)
    && t.st.thinkingMax
       == (if st.thinkingMax.Some? || !w.net(n + edits).Is(400) then st.thinkingMax
           else w.net(n + edits).complaint.thinkingMax)
    && t.st.strips == st.strips + (if gone.Some? then [gone.value] else [])
    && t.st.stripAt == st.stripAt + (if gone.Some? then [last + 1] else [])
    && t.st.strippedFields
       == st.strippedFields
          + if gone.Some? then {gone.value}
            else if Unwelcome(st.strippedFields, t.st.sent[last], w.net(last)) && w.learn(last + 1) == NotSaved
            then {w.net(last).complaint.unsupported.value} else {}
  }

  /** The reply in hand is the answer to the last fetch, which was made with the body in hand. */
  ghost predicate Current(w: World, t: Try) {
    t.st.sent != [] && t.body == t.st.sent[|t.st.sent| - 1] && t.reply == w.net(|t.st.sent| - 1)
  }

  /** One more fetch in `r` than in `t`. */
  ghost predicate OneMore(w: World, t: Try, r: Try) {
    Current(w, r) && r.st.sent == t.st.sent + [r.body] && r.st.owners == t.st.owners + [|t.st.log|]
  }

  lemma EditingRetry(c: Config, w: World, t: Try)
    requires Current(w, t)
    ensures var r, due := RepairContextEditing(c, w, t), EditingDue(c, t.st.contextEditingDisabled, t.body, t.reply);
      && (!due ==> r == t)
      && (due ==> OneMore(w, t, r) && r.body == t.body.(fields := t.body.fields - {CONTEXT_FIELD})
                  && r.st.contextEditingDisabled)
      && r.st.thinkingMax == t.st.thinkingMax && r.st.strippedFields == t.st.strippedFields
      && r.st.strips == t.st.strips && r.st.stripAt == t.st.stripAt && r.st.log == t.st.log
      && r.st.waited == t.st.waited
  {
  }

  lemma BudgetRetry(w: World, t: Try)
    requires Current(w, t)
    ensures var r, due := RepairThinkingBudget(w, t), BudgetDue(t.st.thinkingMax, t.body, t.reply);
      && (!due ==> r.st.sent == t.st.sent && r.st.owners == t.st.owners && r.body == t.body && r.reply == t.reply)
      && (due ==> OneMore(w, t, r) && Lowered(r.body, t.body, t.reply.complaint.thinkingMax.value))
      && r.st.thinkingMax
         == (if t.st.thinkingMax.Some? || !t.reply.Is(400) then t.st.thinkingMax else t.reply.complaint.thinkingMax)
      && r.st.contextEditingDisabled == t.st.contextEditingDisabled && r.st.strippedFields == t.st.strippedFields
      && r.st.strips == t.st.strips && r.st.stripAt == t.st.stripAt && r.st.log == t.st.log
      && r.st.waited == t.st.waited
  {
  }

  lemma FieldRetry(w: World, t: Try)
    requires Current(w, t)
    ensures var r, n := RepairField(w, t), |t.st.sent|;
      var gone := Gone(t.st.strippedFields, t.body, t.reply, w.learn(n));
      && (gone.None? ==> r.st.sent == t.st.sent && r.st.owners == t.st.owners && r.reply == t.reply
                         && r.st.strips == t.st.strips && r.st.stripAt == t.st.stripAt)
      && (gone.Some? ==>
            && r.st.sent == t.st.sent + [t.body.(fields := t.body.fields - {gone.value})]
            && r.st.owners == t.st.owners + [|t.st.log|]
            && r.st.strips == t.st.strips + [gone.value] && r.st.stripAt == t.st.stripAt + [n]
            && r.reply == if w.net(n).Threw? && !Offends(t.st.strippedFields, t.body, t.reply) then t.reply
                          else w.net(n))
      && r.st.contextEditingDisabled == t.st.contextEditingDisabled && r.st.thinkingMax == t.st.thinkingMax
      && r.st.log == t.st.log && r.st.waited == t.st.waited
      && r.st.strippedFields
         == t.st.strippedFields
            + if gone.Some? then {gone.value}
              else if Unwelcome(t.st.strippedFields, t.body, t.reply) && w.learn(n) == NotSaved
              then {t.reply.complaint.unsupported.value} else {}
  {
  }

  lemma FirstFetch(c: Config, w: World, st: State, b: Body)
    ensures var t0 := Try(st, Outgoing(c, st, b), Threw);
      OneMore(w, t0, Fetch(w, t0)) && Opens(c, st, b, t0.body) && Fetch(w, t0).body == t0.body
  {
  }

  /** An attempt up to its field repair. */
  ghost predicate Halfway(c: Config, w: World, st: State, b: Body, t: Try, edits: nat, cuts: nat) {
    var n, sent := |st.sent|, t.st.sent;
    && Current(w, t) && |sent| == n + edits + cuts + 1 && sent[..n] == st.sent && Opens(c, st, b, sent[n])
    && edits == (if EditingDue(c, st.contextEditingDisabled, sent[n], w.net(n)) then 1 else 0)
    && (edits == 1 ==> sent[n + 1] == sent[n].(fields := sent[n].fields - {CONTEXT_FIELD}))
    && cuts == (if BudgetDue(st.thinkingMax, sent[n + edits], w.net(n + edits)) then 1 else 0)
    && (cuts == 1 ==>
          Lowered(sent[n + edits + 1], sent[n + edits], w.net(n + edits).complaint.thinkingMax.value))
  }

  ghost predicate HalfwayLessons(w: World, st: State, t: Try, edits: nat) {
    var n := |st.sent|;
    && |t.st.owners| == |t.st.sent| >= |st.owners| == n && t.st.owners[..n] == st.owners
    && (forall k :: n <= k < |t.st.owners| ==> t.st.owners[k] == |st.log|)
    && (t.st.contextEditingDisabled <==> st.contextEditingDisabled || edits == 1)
    && t.st.thinkingMax
       == (if st.thinkingMax.Some? || !w.net(n + edits).Is(400) then st.thinkingMax
           else w.net(n + edits).complaint.thinkingMax)
    && t.st.log == st.log && t.st.waited == st.waited && t.st.strippedFields == st.strippedFields
    && t.st.strips == st.strips && t.st.stripAt == st.stripAt
  }

  lemma TwoRepairs(c: Config, w: World, st: State, b: Body) returns (t: Try, edits: nat, cuts: nat)
    requires |st.owners| == |st.sent|
    ensures Attempt(c, w, st, b) == RepairField(w, t)
    ensures Halfway(c, w, st, b, t, edits, cuts) && HalfwayLessons(w, st, t, edits)
  {
    var t0 := Try(st, Outgoing(c, st, b), Threw);
    FirstFetch(c, w, st, b);
    var t1 := Fetch(w, t0);
    EditingRetry(c, w, t1);
    var t2 := RepairContextEditing(c, w, t1);
    edits := |t2.st.sent| - |t1.st.sent|;
    BudgetRetry(w, t2);
    t := RepairThinkingBudget(w, t2);
    cuts := |t.st.sent| - |t2.st.sent|;
  }

  lemma LastRepair(
    c: Config, w: World, st: State, b: Body, t: Try, r: Try, edits: nat, cuts: nat, gone: Option<string>)
    requires Halfway(c, w, st, b, t, edits, cuts) && HalfwayLessons(w, st, t, edits)
    requires r == RepairField(w, t) && gone == Gone(st.strippedFields, t.body, t.reply, w.learn(|t.st.sent|))
    ensures Story(c, w, st, b, r, edits, cuts, gone) && Lessons(c, w, st, r, edits, cuts, gone)
  {
    FieldRetry(w, t);
    assert forall k :: 0 <= k < |t.st.sent| ==> r.st.sent[k] == t.st.sent[k];
  }

  /** An attempt tells its whole story: each repair is made exactly when the last reply and the last body call
      for it, each retry sends that body without what was rejected, and the reply is the answer to the last
      fetch, but for the retry of a learnt field that threw. */
  lemma AttemptStory(c: Config, w: World, st: State, b: Body) returns (edits: nat, cuts: nat, gone: Option<string>)
    requires |st.owners| == |st.sent|
    ensures Story(c, w, st, b, Attempt(c, w, st, b), edits, cuts, gone)
    ensures Lessons(c, w, st, Attempt(c, w, st, b), edits, cuts, gone)
  {
    var t;
    t, edits, cuts := TwoRepairs(c, w, st, b);
    gone := Gone(st.strippedFields, t.body, t.reply, w.learn(|t.st.sent|));
    LastRepair(c, w, st, b, t, RepairField(w, t), edits, cuts, gone);
  }

  // ---------------------------------------------------------------- whose answer each outcome is

  predicate Blames(o: Outcome, field: string) {
    o.Response? && o.complaint.offending == Some(field)
  }

  /** Fetch `k` left out a field that the reply before it named as unsupported only. */
  ghost predicate LearntRetry(w: World, st: State, k: nat) {
    && k > 0 && |st.strips| == |st.stripAt|
    && exists j :: 0 <= j < |st.strips| && st.stripAt[j] == k && !Blames(w.net(k - 1), st.strips[j])
  }

  /** What an iteration gets whose last fetch is `k`: the answer to it, but for a learnt field whose retry threw,
      and then the answer before. */
  ghost function Answer(w: World, st: State, k: nat): Outcome {
    if w.net(k).Threw? && LearntRetry(w, st, k) then w.net(k - 1) else w.net(k)
  }

  /** Fetch `k` is the last that iteration `i` made. */
  predicate LastFetch(owners: seq<nat>, i: nat, k: nat) {
    k < |owners| && owners[k] == i && forall j :: k < j < |owners| ==> owners[j] != i
  }

  /** The outcome logged for iteration `i` is what its last fetch got. */
  ghost predicate Answered(w: World, st: State, i: nat) {
    i < |st.log| && exists k: nat :: LastFetch(st.owners, i, k) && st.log[i].1 == Answer(w, st, k)
  }

  ghost predicate AllAnswered(w: World, st: State) {
    && |st.owners| == |st.sent| && |st.stripAt| == |st.strips|
    && (forall k :: 0 <= k < |st.owners| ==> st.owners[k] < |st.log|)
    && (forall j :: 0 <= j < |st.stripAt| ==> st.stripAt[j] < |st.sent|)
    && (forall i :: 0 <= i < |st.log| ==> Answered(w, st, i))
  }

  /** `r` is `st` after more fetches, all by the iteration that is being made. */
  ghost predicate Continues(st: State, r: State) {
    && |st.sent| == |st.owners| <= |r.owners| == |r.sent| && |st.strips| == |st.stripAt| <= |r.stripAt| == |r.strips|
    && r.owners[..|st.owners|] == st.owners
    && (forall k :: |st.owners| <= k < |r.owners| ==> r.owners[k] == |st.log|)
    && (forall j :: 0 <= j < |st.strips| ==> r.strips[j] == st.strips[j] && r.stripAt[j] == st.stripAt[j])
    && (forall j :: |st.strips| <= j < |r.strips| ==> |st.sent| <= r.stripAt[j] < |r.sent|)
    && |st.log| < |r.log| && r.log[..|st.log|] == st.log
  }

  lemma AnswerStays(w: World, st: State, r: State, k: nat)
    requires Continues(st, r) && k < |st.sent|
    ensures Answer(w, r, k) == Answer(w, st, k)
  {
    if LearntRetry(w, r, k) {
      var j :| 0 <= j < |r.strips| && r.stripAt[j] == k && !Blames(w.net(k - 1), r.strips[j]);
      assert j < |st.strips| && st.stripAt[j] == k;
    }
    if LearntRetry(w, st, k) {
      var j :| 0 <= j < |st.strips| && st.stripAt[j] == k && !Blames(w.net(k - 1), st.strips[j]);
      assert r.stripAt[j] == k && r.strips[j] == st.strips[j];
    }
  }

  lemma AnsweredStays(w: World, st: State, r: State, i: nat)
    requires Continues(st, r) && Answered(w, st, i)
    ensures Answered(w, r, i)
  {
    var k: nat :| LastFetch(st.owners, i, k) && st.log[i].1 == Answer(w, st, k);
    AnswerStays(w, st, r, k);
    assert r.owners[k] == r.owners[..|st.owners|][k] && r.log[i] == r.log[..|st.log|][i];
    forall j | k < j < |r.owners| ensures r.owners[j] != i {
      if j < |st.owners| {
        assert r.owners[j] == r.owners[..|st.owners|][j];
      }
    }
    assert LastFetch(r.owners, i, k);
  }

  lemma AnswerIs(
    c: Config, w: World, st: State, b: Body, t: Try, r: State, edits: nat, cuts: nat, gone: Option<string>)
    requires Story(c, w, st, b, t, edits, cuts, gone) && Lessons(c, w, st, t, edits, cuts, gone)
    requires |st.stripAt| == |st.strips| && (forall j :: 0 <= j < |st.stripAt| ==> st.stripAt[j] < |st.sent|)
    requires r.sent == t.st.sent && r.strips == t.st.strips && r.stripAt == t.st.stripAt
    ensures t.reply == Answer(w, r, |r.sent| - 1)
  {
    var last := |st.sent| + edits + cuts;
    if gone.Some? {
      assert r.stripAt[|st.strips|] == last + 1 == |r.sent| - 1 && r.strips[|st.strips|] == gone.value;
    }
  }

  lemma AttemptContinues(c: Config, w: World, st: State, b: Body, u: nat, r: State)
    requires AllAnswered(w, st)
    requires var t := Attempt(c, w, st, b);
      var logged := Logged(t.st, u, t.reply); r == logged || r == logged.(waited := logged.waited + DELAY_MS)
    ensures Continues(st, r) && r.log == st.log + [(u, Attempt(c, w, st, b).reply)] && |r.sent| > |st.sent|
    ensures Attempt(c, w, st, b).reply == Answer(w, r, |r.sent| - 1)
  {
    var edits, cuts, gone := AttemptStory(c, w, st, b);
    AnswerIs(c, w, st, b, Attempt(c, w, st, b), r, edits, cuts, gone);
  }

  lemma AllAnsweredNext(w: World, st: State, r: State, u: nat, reply: Outcome)
    requires AllAnswered(w, st) && Continues(st, r) && r.log == st.log + [(u, reply)] && |r.sent| > |st.sent|
    requires reply == Answer(w, r, |r.sent| - 1)
    ensures AllAnswered(w, r)
  {
    assert LastFetch(r.owners, |st.log|, |r.sent| - 1);
    forall i | 0 <= i < |r.log| ensures Answered(w, r, i) {
      if i < |st.log| {
        AnsweredStays(w, st, r, i);
      }
    }
    forall k | 0 <= k < |r.owners| ensures r.owners[k] < |r.log| {
      assert k < |st.owners| ==> r.owners[k] == r.owners[..|st.owners|][k];
    }
  }

  lemma IterateAnswered(c: Config, w: World, u: nat, tries: nat, st: State)
    requires AllAnswered(w, st)
    ensures AllAnswered(w, Iterate(c, w, u, tries, st).1)
  {
    if w.prepare(|st.log|).Prepared? {
      var b := w.prepare(|st.log|).body;
      IterateForm(c, w, u, tries, st);
      AttemptContinues(c, w, st, b, u, Iterate(c, w, u, tries, st).1);
      AllAnsweredNext(w, st, Iterate(c, w, u, tries, st).1, u, Attempt(c, w, st, b).reply);
    }
  }

  /** On every run each outcome in the log is the answer to the last fetch of its iteration, but for the retry of
      a learnt field that threw: then it is the answer to the fetch before. */
  lemma {:induction false} OutcomesAreAnswers(c: Config, w: World, u: nat, tries: nat, st: State)
    requires u < c.urls && tries <= MAX_ATTEMPTS && AllAnswered(w, st)
    ensures AllAnswered(w, Run(c, w, u, tries, st).1)
    decreases c.urls - u, MAX_ATTEMPTS - tries
  {
    var (v, after) := Iterate(c, w, u, tries, st);
    IterateAnswered(c, w, u, tries, st);
    RunStep(c, w, u, tries, st);
    match v
    case Finish(_) =>
    case SameUrl => OutcomesAreAnswers(c, w, u, tries + 1, after);
    case NextUrl => OutcomesAreAnswers(c, w, u + 1, 0, after);
  }

  /** What comes back is the last entry of the log, or the builder's own error. */
  ghost predicate EndsWith(w: World, result: Result, st: State) {
    match result
    case Returned(status, u) => st.log != [] && st.log[|st.log| - 1].0 == u && st.log[|st.log| - 1].1.Is(status)
    case Raised(u) => st.log != [] && st.log[|st.log| - 1] == (u, Threw)
    case PrepareRaised(_) => w.prepare(|st.log|).PrepareThrew?
  }

  lemma IterateEnds(c: Config, w: World, u: nat, tries: nat, st: State)
    ensures var (v, r) := Iterate(c, w, u, tries, st); v.Finish? ==> EndsWith(w, v.result, r)
  {
    if w.prepare(|st.log|).Prepared? {
      IterateForm(c, w, u, tries, st);
    }
  }

  lemma {:induction false} RunEnds(c: Config, w: World, u: nat, tries: nat, st: State)
    requires u < c.urls && tries <= MAX_ATTEMPTS
    ensures EndsWith(w, Run(c, w, u, tries, st).0, Run(c, w, u, tries, st).1)
    decreases c.urls - u, MAX_ATTEMPTS - tries
  {
    var (v, after) := Iterate(c, w, u, tries, st);
    IterateEnds(c, w, u, tries, st);
    RunStep(c, w, u, tries, st);
    match v
    case Finish(_) =>
    case SameUrl => RunEnds(c, w, u, tries + 1, after);
    case NextUrl => RunEnds(c, w, u + 1, 0, after);
  }

  /** Fetch `k` is the last of the last iteration. */
  predicate FinalFetch(st: State, k: nat) {
    st.log != [] && LastFetch(st.owners, |st.log| - 1, k)
  }

  lemma FinalAnswer(w: World, st: State)
    requires AllAnswered(w, st) && st.log != []
    ensures exists k: nat :: FinalFetch(st, k) && st.log[|st.log| - 1].1 == Answer(w, st, k)
  {
    assert Answered(w, st, |st.log| - 1);
    var k: nat :| LastFetch(st.owners, |st.log| - 1, k) && st.log[|st.log| - 1].1 == Answer(w, st, k);
    assert FinalFetch(st, k);
  }

  /** So, with retries or without, the status that comes back is that of the answer which the last iteration got
      to its last fetch; an error that comes back is that fetch's, or the builder's own. */
  lemma ReturnedIsLastAnswer(c: Config, w: World)
    requires c.urls >= 1
    ensures var (result, st) := Run(c, w, 0, 0, START);
      match result
      case PrepareRaised(_) => w.prepare(|st.log|).PrepareThrew?
      case Raised(_) => exists k: nat :: FinalFetch(st, k) && Answer(w, st, k).Threw?
      case Returned(status, _) => exists k: nat :: FinalFetch(st, k) && Answer(w, st, k).Is(status)
  {
    OutcomesAreAnswers(c, w, 0, 0, START);
    RunEnds(c, w, 0, 0, START);
    var (result, st) := Run(c, w, 0, 0, START);
    if st.log != [] {
      FinalAnswer(w, st);
    }
  }

  // ---------------------------------------------------------------- how long a run waits

  /** Tries that went to the same URL as the try before. */
  function Again(log: seq<(nat, Outcome)>): nat {
    if |log| < 2 then 0
    else Again(log[..|log| - 1]) + if log[|log| - 1].0 == log[|log| - 2].0 then 1 else 0
  }

  /** Between iterations: every retry of a URL has been waited for, the coming one included. */
  ghost predicate WaitedFor(u: nat, tries: nat, st: State) {
    && (if tries > 0 then st.log != [] && st.log[|st.log| - 1].0 == u else st.log == [] || st.log[|st.log| - 1].0 < u)
    && st.waited == DELAY_MS * (Again(st.log) + if tries > 0 then 1 else 0)
  }

  lemma AgainSnoc(log: seq<(nat, Outcome)>, u: nat, o: Outcome)
    ensures Again(log + [(u, o)]) == Again(log) + if log != [] && log[|log| - 1].0 == u then 1 else 0
  {
    assert (log + [(u, o)])[..|log + [(u, o)]| - 1] == log;
  }

  /** The waiting of a run that is over. */
  ghost predicate WaitedInAll(result: Result, st: State) {
    var coming := match result case PrepareRaised(u) => st.log != [] && st.log[|st.log| - 1].0 == u case _ => false;
    st.waited == 2000 * (Again(st.log) + if coming then 1 else 0)
  }

  lemma AttemptWaits(c: Config, w: World, st: State, b: Body)
    ensures Attempt(c, w, st, b).st.waited == st.waited && Attempt(c, w, st, b).st.log == st.log
  {
    AttemptLogs(c, w, st, b);
  }

  lemma IterateWaits(c: Config, w: World, u: nat, tries: nat, st: State)
    requires WaitedFor(u, tries, st)
    ensures var (v, r) := Iterate(c, w, u, tries, st);
      match v
      case Finish(result) => WaitedInAll(result, r)
      case SameUrl => WaitedFor(u, tries + 1, r)
      case NextUrl => WaitedFor(u + 1, 0, r)
  {
    if w.prepare(|st.log|).Prepared? {
      var b := w.prepare(|st.log|).body;
      AttemptWaits(c, w, st, b);
      AgainSnoc(st.log, u, Attempt(c, w, st, b).reply);
    }
  }

  lemma {:induction false} RunWaits(c: Config, w: World, u: nat, tries: nat, st: State)
    requires u < c.urls && tries <= MAX_ATTEMPTS && WaitedFor(u, tries, st)
    ensures WaitedInAll(Run(c, w, u, tries, st).0, Run(c, w, u, tries, st).1)
    decreases c.urls - u, MAX_ATTEMPTS - tries
  {
    var (v, after) := Iterate(c, w, u, tries, st);
    IterateWaits(c, w, u, tries, st);
    RunStep(c, w, u, tries, st);
    match v
    case Finish(_) =>
    case SameUrl => RunWaits(c, w, u, tries + 1, after);
    case NextUrl => RunWaits(c, w, u + 1, 0, after);
  }

  /** A run waits two seconds for every try that goes to the URL of the try before it, and for nothing else. */
  lemma WaitsExactly(c: Config, w: World)
    requires c.urls >= 1
    ensures WaitedInAll(Run(c, w, 0, 0, START).0, Run(c, w, 0, 0, START).1)
  {
    RunWaits(c, w, 0, 0, START);
  }

  const TOO_MUCH: Complaint := Complaint(false, Some(8192), None, None)

  /** A budget over the maximum that the upstream names is lowered, and the answer to that is what comes back. */
  lemma LoweredBudgetExample(w: World)
    requires w.prepare(0) == Prepared(Body({}, [131072]))
    requires w.net(0) == Response(400, TOO_MUCH) && w.net(1) == Response(200, TOO_MUCH)
    ensures var (result, st) := Run(Config(1, false, false, false), w, 0, 0, START);
      result == Returned(200, 0) && st.sent == [Body({}, [131072]), Body({}, [8192])]
  {
    var c, b := Config(1, false, false, false), Body({}, [131072]);
    var t1 := Fetch(w, Try(START, b, Threw));
    assert AnyAbove(b.budgets, 8192) && Clamp(b.budgets, 8192) == [8192];
    var t2 := RepairThinkingBudget(w, t1);
    assert t2.reply == w.net(1) && t2.st.sent == [b, Body({}, [8192])];
    assert Attempt(c, w, START, b) == t2;
    var (v, st) := Iterate(c, w, 0, 0, START);
    assert v == Finish(Returned(200, 0)) && st.sent == t2.st.sent;
  }
}
