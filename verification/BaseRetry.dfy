/** The base executor's request loop: fallback URLs, 429 retries on the same URL, and the three kinds of
    repair after a 400.

    The network, the request builder and the parameter-learning store are arbitrary functions of how many
    times they were asked, so a statement for all of them is a statement about every run. */
module BaseRetry {
  import opened AttemptLog
  import opened OrderedMap

  const MAX_ATTEMPTS: nat := 2
  const DELAY_MS: nat := 2000
  const CONTEXT_FIELD: string := "context_management"

  /** What the text of a 400 reply says. */
  datatype Complaint = Complaint(
    contextEditing: bool,
    thinkingMax: Option<nat>,
    offending: Option<string>,
    unsupported: Option<string>)

  datatype Outcome = Threw | Response(status: int, complaint: Complaint) {
    predicate Is(code: int) { Response? && status == code }
  }

  /** A request body: the fields it carries and its nested thinking budgets. */
  datatype Body = Body(fields: set<string>, budgets: seq<int>)

  datatype Prepared = PrepareThrew | Prepared(body: Body)

  /** The learning store: unreachable, unwilling, learnt, or learnt in memory but not saved. */
  datatype Learning = Unreachable | Unwilling | Learnt | NotSaved

  datatype World = World(net: nat -> Outcome, prepare: nat -> Prepared, learn: nat -> Learning)

  datatype Config = Config(urls: nat, skipUpstreamRetry: bool, claudeLike: bool, contextEditing: bool)

  /** Everything a run remembers. `sent` are the bodies fetched with, `owners` the iterations that fetched
      them, `log` the outcome each iteration ended with, `strips` the fields removed, `stripAt` the fetches
      that retried without them; the rest are the loop's own variables and counters. */
  datatype State = State(
    contextEditingDisabled: bool, disabledAt: nat, contextRetries: nat,
    thinkingMax: Option<nat>, learntAt: nat, budgetRetries: nat,
    strippedFields: set<string>, strips: seq<string>, stripAt: seq<nat>,
    sent: seq<Body>, owners: seq<nat>, log: seq<(nat, Outcome)>, waited: nat)

  const START: State := State(false, 0, 0, None, 0, 0, {}, [], [], [], [], [], 0)

  /** One attempt under way. */
  datatype Try = Try(st: State, body: Body, reply: Outcome)

  datatype Result = Returned(status: int, url: nat) | Raised(url: nat) | PrepareRaised(url: nat)

  datatype Verdict = SameUrl | NextUrl | Finish(result: Result)

  // ---------------------------------------------------------------- one attempt

  function Clamp(budgets: seq<int>, max: int): (r: seq<int>)
    ensures |r| == |budgets|
    ensures forall i :: 0 <= i < |r| ==> r[i] <= max && r[i] <= budgets[i] && (r[i] == max || r[i] == budgets[i])
  {
    seq(|budgets|, i requires 0 <= i < |budgets| => if budgets[i] > max then max else budgets[i])
  }

  predicate AnyAbove(budgets: seq<int>, max: int) {
    exists i :: 0 <= i < |budgets| && budgets[i] > max
  }

  function Fetch(w: World, t: Try): Try {
    t.(st := t.st.(sent := t.st.sent + [t.body], owners := t.st.owners + [|t.st.log|]), reply := w.net(|t.st.sent|))
  }

  function Without(b: Body, field: string): Body {
    b.(fields := b.fields - {field})
  }

  /** The upstream rejects context editing: switch it off for good and try once more without. */
  function RepairContextEditing(c: Config, w: World, t: Try): Try {
    if t.reply.Is(400) && c.contextEditing && !t.st.contextEditingDisabled
       && CONTEXT_FIELD in t.body.fields && t.reply.complaint.contextEditing
    then
      var retries := t.st.contextRetries + 1;
      var st := t.st.(contextEditingDisabled := true, disabledAt := |t.st.sent|, contextRetries := retries);
      Fetch(w, Try(st, Without(t.body, CONTEXT_FIELD), t.reply))
    else t
  }

  /** The upstream names its thinking-budget maximum: remember it, and retry if that lowers a budget. */
  function RepairThinkingBudget(w: World, t: Try): Try {
    if t.reply.Is(400) && t.st.thinkingMax.None? && t.reply.complaint.thinkingMax.Some?
    then
      var max := t.reply.complaint.thinkingMax.value;
      var st := t.st.(thinkingMax := Some(max), learntAt := |t.st.sent|);
      if AnyAbove(t.body.budgets, max)
      then
        var clamped := t.body.(budgets := Clamp(t.body.budgets, max));
        Fetch(w, Try(st.(budgetRetries := st.budgetRetries + 1), clamped, t.reply))
      else t.(st := st)
    else t
  }

  predicate Strippable(t: Try, field: Option<string>) {
    field.Some? && field.value !in t.st.strippedFields && field.value in t.body.fields
  }

  function Stripped(st: State, field: string): State {
    st.(strippedFields := st.strippedFields + {field},
        strips := st.strips + [field], stripAt := st.stripAt + [|st.sent|])
  }

  function Strip(w: World, t: Try, field: string): Try {
    Fetch(w, Try(Stripped(t.st, field), Without(t.body, field), t.reply))
  }

  /** A field named by the upstream is stripped once; an unknown one only if it may be learnt, and then
      an error of the retry leaves the old reply standing. */
  function RepairField(w: World, t: Try): Try {
    if !t.reply.Is(400) then t
    else if Strippable(t, t.reply.complaint.offending) then Strip(w, t, t.reply.complaint.offending.value)
    else if Strippable(t, t.reply.complaint.unsupported) then
      var field := t.reply.complaint.unsupported.value;
      match w.learn(|t.st.sent|)
      case Unreachable => t
      case Unwilling => t
      case NotSaved => t.(st := t.st.(strippedFields := t.st.strippedFields + {field}))
      case Learnt =>
        var r := Strip(w, t, field);
        if r.reply.Threw? then r.(reply := t.reply) else r
    else t
  }

  /** The body an iteration starts from. */
  function Outgoing(c: Config, st: State, b: Body): Body {
    var clamped := if st.thinkingMax.Some? then b.(budgets := Clamp(b.budgets, st.thinkingMax.value)) else b;
    if c.claudeLike && c.contextEditing && !st.contextEditingDisabled
    then clamped.(fields := clamped.fields + {CONTEXT_FIELD}) else clamped
  }

  function Attempt(c: Config, w: World, st: State, b: Body): Try {
    RepairField(w, RepairThinkingBudget(w, RepairContextEditing(c, w, Fetch(w, Try(st, Outgoing(c, st, b), Threw)))))
  }

  /** What the loop does with the outcome of try number `tries` at URL `u`. */
  function Judge(c: Config, reply: Outcome, u: nat, tries: nat): (v: Verdict)
    ensures v.SameUrl? ==> tries < MAX_ATTEMPTS
    ensures v.NextUrl? ==> u + 1 < c.urls
  {
    if reply.Threw? then
      if !c.skipUpstreamRetry && u + 1 < c.urls then NextUrl else Finish(Raised(u))
    else if !c.skipUpstreamRetry && reply.Is(429) && tries < MAX_ATTEMPTS then SameUrl
    else if !c.skipUpstreamRetry && reply.Is(429) && u + 1 < c.urls then NextUrl
    else Finish(Returned(reply.status, u))
  }

  function Logged(st: State, u: nat, reply: Outcome): State {
    st.(log := st.log + [(u, reply)])
  }

  // ---------------------------------------------------------------- a run

  /** One iteration: try number `tries` of URL `u`. */
  function Iterate(c: Config, w: World, u: nat, tries: nat, st: State): (r: (Verdict, State))
    ensures r.0.SameUrl? ==> tries < MAX_ATTEMPTS
    ensures r.0.NextUrl? ==> u + 1 < c.urls
  {
    match w.prepare(|st.log|)
    case PrepareThrew => (Finish(PrepareRaised(u)), st)
    case Prepared(b) =>
      var t := Attempt(c, w, st, b);
      var after, v := Logged(t.st, u, t.reply), Judge(c, t.reply, u, tries);
      (v, if v.SameUrl? then after.(waited := after.waited + DELAY_MS) else after)
  }

  /** The run from URL `u` on, `tries` retries of it already spent: up to three tries of each URL, in
      order. */
  function Run(c: Config, w: World, u: nat, tries: nat, st: State): (Result, State)
    requires u < c.urls && tries <= MAX_ATTEMPTS
    decreases c.urls - u, MAX_ATTEMPTS - tries
  {
    var (v, after) := Iterate(c, w, u, tries, st);
    match v
    case Finish(r) => (r, after)
    case SameUrl => Run(c, w, u, tries + 1, after)
    case NextUrl => Run(c, w, u + 1, 0, after)
  }

  /** One attempt: send, then each kind of repair in turn on whatever reply there is by then. */
  method SendWithRepairs(c: Config, w: World, st: State, b: Body) returns (t: Try)
    ensures t == Attempt(c, w, st, b)
  {
    t := Fetch(w, Try(st, Outgoing(c, st, b), Threw));
    t := RepairContextEditing(c, w, t);
    t := RepairThinkingBudget(w, t);
    t := RepairField(w, t);
  }

  /** One pass through the loop body: build, send and repair, then decide where to go on. */
  method AttemptUrl(c: Config, w: World, u: nat, tries: nat, st: State) returns (v: Verdict, after: State)
    ensures (v, after) == Iterate(c, w, u, tries, st)
  {
    var prepared := w.prepare(|st.log|);
    if prepared.PrepareThrew? {
      return Finish(PrepareRaised(u)), st;
    }
    var t := SendWithRepairs(c, w, st, prepared.body);
    after := Logged(t.st, u, t.reply);
    if t.reply.Threw? {
      v := if !c.skipUpstreamRetry && u + 1 < c.urls then NextUrl else Finish(Raised(u));
      return;
    }
    if !c.skipUpstreamRetry && t.reply.status == 429 && tries < MAX_ATTEMPTS {
      after := after.(waited := after.waited + DELAY_MS);
      return SameUrl, after;
    }
    if !c.skipUpstreamRetry && t.reply.status == 429 && u + 1 < c.urls {
      return NextUrl, after;
    }
    v := Finish(Returned(t.reply.status, u));
  }

  lemma RunStep(c: Config, w: World, u: nat, tries: nat, st: State)
    requires u < c.urls && tries <= MAX_ATTEMPTS
    ensures var (v, after) := Iterate(c, w, u, tries, st);
      Run(c, w, u, tries, st) == match v
        case Finish(r) => (r, after)
        case SameUrl => Run(c, w, u, tries + 1, after)
        case NextUrl => Run(c, w, u + 1, 0, after)
  {
  }

  function AttemptsAt(table: map<int, nat>, urlIndex: int): nat {
    if urlIndex in table then table[urlIndex] else 0
  }

  /** The executor's loop. It re-runs a URL by stepping its index back, and keeps the retries of every
      URL in a table; no path leaves the loop at the bottom. */
  method Execute(c: Config, w: World) returns (result: Result, st: State)
    requires c.urls >= 1
    ensures (result, st) == Run(c, w, 0, 0, START)
  {
    st := START;
    var retryAttemptsByUrl: map<int, nat> := map[];
    var urlIndex := 0;
    ghost var tries, goal := 0, Run(c, w, 0, 0, START);
    while urlIndex < c.urls
      invariant 0 <= urlIndex < c.urls
      invariant forall k :: k in retryAttemptsByUrl ==> k <= urlIndex
      invariant tries == AttemptsAt(retryAttemptsByUrl, urlIndex) <= MAX_ATTEMPTS
      invariant Run(c, w, urlIndex, tries, st) == goal
      decreases c.urls - urlIndex, MAX_ATTEMPTS - tries
    {
      var attempts := AttemptsAt(retryAttemptsByUrl, urlIndex);
      RunStep(c, w, urlIndex, attempts, st);
      var v;
      v, st := AttemptUrl(c, w, urlIndex, attempts, st);
      if v.Finish? {
        return v.result, st;
      }
      tries := 0;
      if v.SameUrl? {
        retryAttemptsByUrl := retryAttemptsByUrl[urlIndex := attempts + 1];
        tries := attempts + 1;
        urlIndex := urlIndex - 1;
      }
      urlIndex := urlIndex + 1;
    }
    assert false;
  }

  // ---------------------------------------------------------------- how much a run costs

  /** One-shot repairs still available. */
  function Unspent(st: State): nat {
    (if st.contextEditingDisabled then 0 else 1) + if st.thinkingMax.Some? then 0 else 1
  }

  predicate NoRepeats(s: seq<string>) {
    forall i, j :: 0 <= i < j < |s| ==> s[i] != s[j]
  }

  /** What holds between iterations of any run. */
  predicate Sound(st: State) {
    && st.contextRetries == (if st.contextEditingDisabled then 1 else 0)
    && st.budgetRetries <= (if st.thinkingMax.Some? then 1 else 0)
    && NoRepeats(st.strips)
    && forall i :: 0 <= i < |st.strips| ==> st.strips[i] in st.strippedFields
  }

  /** A repair makes at most one fetch beyond the one-shot repair it uses up. */
  ghost predicate Cheap(a: State, r: State, more: nat) {
    && Sound(r) && r.waited == a.waited && r.log == a.log
    && |a.sent| <= |r.sent| && |r.sent| + Unspent(r) <= |a.sent| + Unspent(a) + more
  }

  lemma ContextRepairCheap(c: Config, w: World, t: Try)
    requires Sound(t.st)
    ensures Cheap(t.st, RepairContextEditing(c, w, t).st, 0)
  {
  }

  lemma BudgetRepairCheap(w: World, t: Try)
    requires Sound(t.st)
    ensures Cheap(t.st, RepairThinkingBudget(w, t).st, 0)
  {
  }

  lemma FieldRepairCheap(w: World, t: Try)
    requires Sound(t.st)
    ensures Cheap(t.st, RepairField(w, t).st, 1)
  {
  }

  lemma AttemptSound(c: Config, w: World, st: State, b: Body)
    requires Sound(st)
    ensures Cheap(st, Attempt(c, w, st, b).st, 2)
  {
    var t1 := Fetch(w, Try(st, Outgoing(c, st, b), Threw));
    ContextRepairCheap(c, w, t1);
    var t2 := RepairContextEditing(c, w, t1);
    BudgetRepairCheap(w, t2);
    FieldRepairCheap(w, RepairThinkingBudget(w, t2));
  }

  lemma IterateSound(c: Config, w: World, u: nat, tries: nat, st: State)
    requires Sound(st)
    ensures var (v, r) := Iterate(c, w, u, tries, st);
      && Sound(r) && (v.Finish? || !c.skipUpstreamRetry)
      && r.waited == (if v.SameUrl? then st.waited + DELAY_MS else st.waited)
      && |st.log| <= |r.log| <= |st.log| + 1 && (!v.Finish? ==> |r.log| == |st.log| + 1)
      && |r.sent| + Unspent(r) <= |st.sent| + Unspent(st) + 2 * (|r.log| - |st.log|)
  {
    if w.prepare(|st.log|).Prepared? {
      AttemptSound(c, w, st, w.prepare(|st.log|).body);
    }
  }

  /** Bounds that hold of every run, whatever the network does: iterations, fetches, waiting, and each
      repair at most once. */
  lemma {:induction false} RunBounds(c: Config, w: World, u: nat, tries: nat, st: State)
    requires u < c.urls && tries <= MAX_ATTEMPTS && Sound(st)
    ensures Affordable(c, u, tries, st, Run(c, w, u, tries, st).1)
    decreases c.urls - u, MAX_ATTEMPTS - tries
  {
    var (v, after) := Iterate(c, w, u, tries, st);
    IterateSound(c, w, u, tries, st);
    match v
    case Finish(_) =>
    case SameUrl =>
      RunBounds(c, w, u, tries + 1, after);
      RetryWithin(c, u, tries, st, after, Run(c, w, u, tries + 1, after).1);
    case NextUrl =>
      RunBounds(c, w, u + 1, 0, after);
      FallbackWithin(c, u, tries, st, after, Run(c, w, u + 1, 0, after).1);
  }

  ghost predicate Affordable(c: Config, u: nat, tries: nat, st: State, r: State) {
    && Sound(r)
    && |st.log| <= |r.log| && |r.log| + tries <= |st.log| + 3 * (c.urls - u)
    && |r.sent| + Unspent(r) <= |st.sent| + Unspent(st) + 2 * (|r.log| - |st.log|)
    && r.waited + DELAY_MS * tries <= st.waited + 2 * DELAY_MS * (c.urls - u)
    && (c.skipUpstreamRetry ==> |r.log| <= |st.log| + 1 && r.waited == st.waited)
  }

  lemma RetryWithin(c: Config, u: nat, tries: nat, st: State, mid: State, r: State)
    requires !c.skipUpstreamRetry && |mid.log| == |st.log| + 1 && mid.waited == st.waited + DELAY_MS
    requires |mid.sent| + Unspent(mid) <= |st.sent| + Unspent(st) + 2 && Affordable(c, u, tries + 1, mid, r)
    ensures Affordable(c, u, tries, st, r)
  {
  }

  lemma FallbackWithin(c: Config, u: nat, tries: nat, st: State, mid: State, r: State)
    requires !c.skipUpstreamRetry && |mid.log| == |st.log| + 1 && mid.waited == st.waited && tries <= 2
    requires |mid.sent| + Unspent(mid) <= |st.sent| + Unspent(st) + 2 && Affordable(c, u + 1, 0, mid, r)
    ensures Affordable(c, u, tries, st, r)
  {
  }

  /** A whole run over N URLs: at most 3N iterations, 6N + 2 fetches and 4000 N ms of waiting, one
      context-editing retry, one thinking-budget retry, no field stripped twice; with upstream retries
      off, one iteration and four fetches. */
  lemma ExecuteBounds(c: Config, w: World)
    requires c.urls >= 1
    ensures var r := Run(c, w, 0, 0, START).1;
      && |r.log| <= 3 * c.urls && |r.sent| <= 6 * c.urls + 2 && r.waited <= 4000 * c.urls
      && r.contextRetries <= 1 && r.budgetRetries <= 1 && NoRepeats(r.strips)
      && (c.skipUpstreamRetry ==> |r.log| <= 1 && |r.sent| <= 4 && r.waited == 0)
  {
    RunBounds(c, w, 0, 0, START);
  }

  // ---------------------------------------------------------------- which response comes back

  ghost predicate Limited(ts: seq<Outcome>) {
    forall i :: 0 <= i < |ts| ==> ts[i].Is(429)
  }

  /** A URL is given up after three 429s, or as soon as a try throws. */
  ghost predicate GivenUp(ts: seq<Outcome>) {
    || (|ts| == 3 && Limited(ts))
    || (1 <= |ts| <= 3 && Limited(ts[..|ts| - 1]) && ts[|ts| - 1].Threw?)
  }

  /** A URL decides the run when a try ends in a response other than 429. */
  ghost predicate Decided(ts: seq<Outcome>, status: int) {
    1 <= |ts| <= 3 && Limited(ts[..|ts| - 1]) && ts[|ts| - 1].Is(status) && status != 429
  }

  /** Where the run stands before try `tries` of URL `u`. */
  ghost predicate Reached(log: seq<(nat, Outcome)>, u: nat, tries: nat) {
    && (forall v :: 0 <= v < u ==> GivenUp(Tries(log, v)))
    && |Tries(log, u)| == tries && Limited(Tries(log, u))
    && (forall v :: v > u ==> Tries(log, v) == [])
  }

  /** What a result says about the tries that led to it. */
  ghost predicate Explained(c: Config, r: Result, log: seq<(nat, Outcome)>) {
    && r.url < c.urls
    && (forall v :: 0 <= v < r.url ==> GivenUp(Tries(log, v)))
    && (forall v :: v > r.url ==> Tries(log, v) == [])
    && var ts := Tries(log, r.url);
       match r
       case Returned(status, u) =>
         if status == 429 then u + 1 == c.urls && |ts| == 3 && Limited(ts) else Decided(ts, status)
       case Raised(u) => u + 1 == c.urls && 1 <= |ts| <= 3 && Limited(ts[..|ts| - 1]) && ts[|ts| - 1].Threw?
       case PrepareRaised(_) => |ts| <= 2 && Limited(ts)
  }

  /** One more entry: the tries of its URL grow by it, those of others stay. */
  lemma LoggedTries(log: seq<(nat, Outcome)>, u: nat, o: Outcome)
    ensures forall v: nat :: Tries(log + [(u, o)], v) == if u == v then Tries(log, v) + [o] else Tries(log, v)
  {
    forall v: nat ensures Tries(log + [(u, o)], v) == if u == v then Tries(log, v) + [o] else Tries(log, v) {
      TriesSnoc(log, u, o, v);
    }
  }

  lemma LimitedSnoc(ts: seq<Outcome>, o: Outcome)
    requires Limited(ts)
    ensures (ts + [o])[..|ts + [o]| - 1] == ts
    ensures Limited(ts + [o]) <==> o.Is(429)
  {
    var more := ts + [o];
    assert more[..|more| - 1] == ts && more[|ts|] == o;
    assert forall i :: 0 <= i < |ts| ==> more[i] == ts[i];
  }

  lemma LoggedAgain(log: seq<(nat, Outcome)>, u: nat, tries: nat, o: Outcome)
    requires Reached(log, u, tries) && o.Is(429)
    ensures Reached(log + [(u, o)], u, tries + 1)
  {
    LoggedTries(log, u, o);
    LimitedSnoc(Tries(log, u), o);
  }

  lemma LoggedGivenUp(log: seq<(nat, Outcome)>, u: nat, tries: nat, o: Outcome)
    requires Reached(log, u, tries) && tries <= MAX_ATTEMPTS
    requires o.Threw? || (o.Is(429) && tries == MAX_ATTEMPTS)
    ensures Reached(log + [(u, o)], u + 1, 0)
  {
    LoggedTries(log, u, o);
    LimitedSnoc(Tries(log, u), o);
    assert GivenUp(Tries(log + [(u, o)], u));
  }

  lemma FinishExplained(c: Config, log: seq<(nat, Outcome)>, u: nat, tries: nat, o: Outcome)
    requires u < c.urls && tries <= MAX_ATTEMPTS && !c.skipUpstreamRetry && Reached(log, u, tries)
    requires Judge(c, o, u, tries).Finish?
    ensures Explained(c, Judge(c, o, u, tries).result, log + [(u, o)])
  {
    LoggedTries(log, u, o);
    LimitedSnoc(Tries(log, u), o);
  }

  /** Where the run goes after try `tries` of URL `u`, as the log tells it. */
  ghost predicate Follows(c: Config, v: Verdict, log: seq<(nat, Outcome)>, u: nat, tries: nat) {
    match v
    case Finish(result) => Explained(c, result, log)
    case SameUrl => Reached(log, u, tries + 1)
    case NextUrl => Reached(log, u + 1, 0)
  }

  lemma JudgeExplained(c: Config, log: seq<(nat, Outcome)>, u: nat, tries: nat, o: Outcome)
    requires u < c.urls && tries <= MAX_ATTEMPTS && !c.skipUpstreamRetry && Reached(log, u, tries)
    ensures Follows(c, Judge(c, o, u, tries), log + [(u, o)], u, tries)
  {
    var v := Judge(c, o, u, tries);
    if v.Finish? {
      FinishExplained(c, log, u, tries, o);
    } else if v.SameUrl? {
      LoggedAgain(log, u, tries, o);
    } else {
      LoggedGivenUp(log, u, tries, o);
    }
  }

  lemma AttemptLogs(c: Config, w: World, st: State, b: Body)
    ensures Attempt(c, w, st, b).st.log == st.log
  {
    var t1 := Fetch(w, Try(st, Outgoing(c, st, b), Threw));
    var t2 := RepairContextEditing(c, w, t1);
    var t3 := RepairThinkingBudget(w, t2);
    assert t2.st.log == t1.st.log && t3.st.log == t2.st.log;
    assert RepairField(w, t3).st.log == t3.st.log;
  }

  /** What an iteration that gets to send comes down to. */
  lemma IterateForm(c: Config, w: World, u: nat, tries: nat, st: State)
    requires w.prepare(|st.log|).Prepared?
    ensures var t := Attempt(c, w, st, w.prepare(|st.log|).body);
      var (v, r) := Iterate(c, w, u, tries, st);
      var logged := Logged(t.st, u, t.reply);
      && v == Judge(c, t.reply, u, tries)
      && (r == logged || r == logged.(waited := logged.waited + DELAY_MS))
  {
  }

  lemma IterateExplained(c: Config, w: World, u: nat, tries: nat, st: State)
    requires u < c.urls && tries <= MAX_ATTEMPTS && !c.skipUpstreamRetry && Reached(st.log, u, tries)
    ensures var (v, r) := Iterate(c, w, u, tries, st); Follows(c, v, r.log, u, tries)
  {
    if w.prepare(|st.log|).Prepared? {
      var b := w.prepare(|st.log|).body;
      var t := Attempt(c, w, st, b);
      IterateForm(c, w, u, tries, st);
      AttemptLogs(c, w, st, b);
      JudgeExplained(c, st.log, u, tries, t.reply);
    }
  }

  lemma {:induction false} RunExplained(c: Config, w: World, u: nat, tries: nat, st: State)
    requires u < c.urls && tries <= MAX_ATTEMPTS && !c.skipUpstreamRetry && Reached(st.log, u, tries)
    ensures Explained(c, Run(c, w, u, tries, st).0, Run(c, w, u, tries, st).1.log)
    decreases c.urls - u, MAX_ATTEMPTS - tries
  {
    var (v, after) := Iterate(c, w, u, tries, st);
    IterateExplained(c, w, u, tries, st);
    match v
    case Finish(r) =>
    case SameUrl => RunExplained(c, w, u, tries + 1, after);
    case NextUrl => RunExplained(c, w, u + 1, 0, after);
  }

  /** With retries on, the response that comes back is that of the first URL whose tries ended in
      something other than a 429 or an error; a 429 comes back only from the last URL, after three 429s
      there; an error only from the last URL; and every earlier URL was given up. */
  lemma FirstDecisiveUrlWins(c: Config, w: World)
    requires c.urls >= 1 && !c.skipUpstreamRetry
    ensures var (r, st) := Run(c, w, 0, 0, START); Explained(c, r, st.log)
  {
    RunExplained(c, w, 0, 0, START);
  }

  // ---------------------------------------------------------------- what is sent after a repair

  ghost predicate Within(b: Body, max: int) {
    forall i :: 0 <= i < |b.budgets| ==> b.budgets[i] <= max
  }

  ghost predicate AllWithin(sent: seq<Body>, max: int) {
    forall i :: 0 <= i < |sent| ==> Within(sent[i], max)
  }

  /** Since the maximum was learnt no body has exceeded it. */
  ghost predicate Obeyed(st: State) {
    st.thinkingMax.Some? ==> st.learntAt <= |st.sent| && AllWithin(st.sent[st.learntAt..], st.thinkingMax.value)
  }

  /** The same for the body in hand. */
  ghost predicate TryObeys(t: Try) {
    Obeyed(t.st) && (t.st.thinkingMax.Some? ==> Within(t.body, t.st.thinkingMax.value))
  }

  lemma FetchObeys(w: World, t: Try)
    requires TryObeys(t)
    ensures TryObeys(Fetch(w, t))
  {
  }

  lemma StripObeys(w: World, t: Try, field: string)
    requires TryObeys(t)
    ensures TryObeys(Strip(w, t, field))
  {
  }

  lemma FieldRepairObeys(w: World, t: Try)
    requires TryObeys(t)
    ensures TryObeys(RepairField(w, t))
  {
    if t.reply.Is(400) {
      if Strippable(t, t.reply.complaint.offending) {
        StripObeys(w, t, t.reply.complaint.offending.value);
      } else if Strippable(t, t.reply.complaint.unsupported) {
        StripObeys(w, t, t.reply.complaint.unsupported.value);
      }
    }
  }

  lemma BudgetRepairObeys(w: World, t: Try)
    requires TryObeys(t)
    ensures TryObeys(RepairThinkingBudget(w, t))
  {
  }

  lemma ContextRepairObeys(c: Config, w: World, t: Try)
    requires TryObeys(t)
    ensures TryObeys(RepairContextEditing(c, w, t))
  {
  }

  lemma AttemptObeys(c: Config, w: World, st: State, b: Body)
    requires Obeyed(st)
    ensures Obeyed(Attempt(c, w, st, b).st)
  {
    var t0 := Try(st, Outgoing(c, st, b), Threw);
    FetchObeys(w, t0);
    var t1 := Fetch(w, t0);
    ContextRepairObeys(c, w, t1);
    var t2 := RepairContextEditing(c, w, t1);
    BudgetRepairObeys(w, t2);
    FieldRepairObeys(w, RepairThinkingBudget(w, t2));
  }

  /** A thinking maximum learnt from one 400 is kept for the rest of the run, on every retry and every URL. */
  lemma {:induction false} LessonsAreKept(c: Config, w: World, u: nat, tries: nat, st: State)
    requires u < c.urls && tries <= MAX_ATTEMPTS && Obeyed(st)
    ensures Obeyed(Run(c, w, u, tries, st).1)
    decreases c.urls - u, MAX_ATTEMPTS - tries
  {
    var (v, after) := Iterate(c, w, u, tries, st);
    if w.prepare(|st.log|).Prepared? {
      AttemptObeys(c, w, st, w.prepare(|st.log|).body);
    }
    match v
    case Finish(_) =>
    case SameUrl => LessonsAreKept(c, w, u, tries + 1, after);
    case NextUrl => LessonsAreKept(c, w, u + 1, 0, after);
  }

  // ---------------------------------------------------------------- which bodies carry a field

  predicate BuilderHas(w: World, i: nat, field: string) {
    w.prepare(i).Prepared? && field in w.prepare(i).body.fields
  }

  /** Fetch `k` is the first of its iteration. */
  predicate Begins(st: State, k: nat)
    requires k < |st.owners|
  {
    k == 0 || st.owners[k - 1] != st.owners[k]
  }

  /** Context editing was on when fetch `k` was made. */
  predicate Editing(c: Config, st: State, k: nat) {
    c.claudeLike && c.contextEditing && (st.contextEditingDisabled ==> k < st.disabledAt)
  }

  /** The field is put into a body that starts an iteration: by the builder, or by context editing. */
  predicate Puts(c: Config, w: World, st: State, field: string, k: nat)
    requires k < |st.owners|
  {
    BuilderHas(w, st.owners[k], field) || (field == CONTEXT_FIELD && Editing(c, st, k))
  }

  /** The first body of an iteration carries the field exactly when it was put in, a retry only when the
      fetch before it did. */
  predicate Lawful(c: Config, w: World, st: State, field: string, k: nat)
    requires k < |st.sent| == |st.owners|
  {
    if Begins(st, k) then (field in st.sent[k].fields) == Puts(c, w, st, field, k)
    else field in st.sent[k].fields ==> field in st.sent[k - 1].fields
  }

  ghost predicate AllLawful(c: Config, w: World, st: State, field: string) {
    && |st.owners| == |st.sent| && (st.contextEditingDisabled ==> st.disabledAt <= |st.sent|)
    && (forall k :: 0 <= k < |st.owners| ==> st.owners[k] <= |st.log|)
    && (forall k :: 0 <= k < |st.sent| ==> Lawful(c, w, st, field, k))
  }

  /** Between iterations, every fetch belongs to an iteration that is over. */
  ghost predicate Settled(c: Config, w: World, st: State, field: string) {
    AllLawful(c, w, st, field) && forall k :: 0 <= k < |st.owners| ==> st.owners[k] < |st.log|
  }

  /** Inside an iteration, after its first fetch. */
  ghost predicate Underway(c: Config, w: World, t: Try, field: string) {
    && AllLawful(c, w, t.st, field)
    && t.st.owners != [] && t.st.owners[|t.st.owners| - 1] == |t.st.log|
    && t.body == t.st.sent[|t.st.sent| - 1]
  }

  /** What was fetched up to `k` decides, and whether editing was on then. */
  lemma LawfulAt(c: Config, w: World, st: State, r: State, field: string, k: nat)
    requires k < |st.sent| == |st.owners| <= |r.sent| == |r.owners|
    requires r.sent[..|st.sent|] == st.sent && r.owners[..|st.owners|] == st.owners
    requires Editing(c, st, k) == Editing(c, r, k)
    ensures Lawful(c, w, st, field, k) == Lawful(c, w, r, field, k)
  {
    assert r.sent[k] == r.sent[..|st.sent|][k] && r.owners[k] == r.owners[..|st.owners|][k];
    if k > 0 {
      assert r.sent[k - 1] == r.sent[..|st.sent|][k - 1] && r.owners[k - 1] == r.owners[..|st.owners|][k - 1];
    }
  }

  lemma LawfulStays(c: Config, w: World, st: State, r: State, field: string)
    requires |st.sent| == |st.owners| <= |r.sent| == |r.owners|
    requires r.sent[..|st.sent|] == st.sent && r.owners[..|st.owners|] == st.owners
    requires forall k :: 0 <= k < |st.sent| ==> Lawful(c, w, st, field, k)
    requires SameEditing(c, st, r)
    ensures forall k :: 0 <= k < |st.sent| ==> Lawful(c, w, r, field, k)
  {
    forall k | 0 <= k < |st.sent| ensures Lawful(c, w, r, field, k) {
      LawfulAt(c, w, st, r, field, k);
    }
  }

  /** Switching context editing off now says nothing of the fetches so far. */
  ghost predicate SameEditing(c: Config, st: State, r: State) {
    || (r.contextEditingDisabled == st.contextEditingDisabled && r.disabledAt == st.disabledAt)
    || (!st.contextEditingDisabled && r.contextEditingDisabled && r.disabledAt == |st.sent|)
  }

  lemma OutgoingHas(c: Config, st: State, b: Body, field: string)
    ensures field in Outgoing(c, st, b).fields
      <==> field in b.fields
           || (field == CONTEXT_FIELD && c.claudeLike && c.contextEditing && !st.contextEditingDisabled)
  {
  }

  lemma FirstFetchLawful(c: Config, w: World, st: State, field: string)
    requires Settled(c, w, st, field) && w.prepare(|st.log|).Prepared?
    ensures Underway(c, w, Fetch(w, Try(st, Outgoing(c, st, w.prepare(|st.log|).body), Threw)), field)
  {
    var b := w.prepare(|st.log|).body;
    var r, last := Fetch(w, Try(st, Outgoing(c, st, b), Threw)).st, |st.sent|;
    LawfulStays(c, w, st, r, field);
    OutgoingHas(c, st, b, field);
    assert Begins(r, last) && r.owners[last] == |st.log| && r.sent[last] == Outgoing(c, st, b);
    assert Lawful(c, w, r, field, last);
  }

  /** A retry whose body carries the field at most when the one before did. */
  lemma RetryLawful(c: Config, w: World, t: Try, next: Try, field: string)
    requires Underway(c, w, t, field) && (field in next.body.fields ==> field in t.body.fields)
    requires next.st.sent == t.st.sent && next.st.owners == t.st.owners && next.st.log == t.st.log
    requires SameEditing(c, t.st, next.st)
    ensures Underway(c, w, Fetch(w, next), field)
  {
    var r, last := Fetch(w, next).st, |t.st.sent|;
    LawfulStays(c, w, t.st, r, field);
    assert !Begins(r, last) && r.sent[last - 1] == t.body && r.sent[last] == next.body;
    assert Lawful(c, w, r, field, last);
  }

  /** Counters and replies do not matter. */
  lemma SameFetches(c: Config, w: World, t: Try, next: Try, field: string)
    requires Underway(c, w, t, field) && next.body == t.body
    requires next.st.sent == t.st.sent && next.st.owners == t.st.owners && next.st.log == t.st.log
    requires next.st.contextEditingDisabled == t.st.contextEditingDisabled && next.st.disabledAt == t.st.disabledAt
    ensures Underway(c, w, next, field)
  {
    LawfulStays(c, w, t.st, next.st, field);
  }

  lemma ContextRepairLawful(c: Config, w: World, t: Try, field: string)
    requires Underway(c, w, t, field)
    ensures Underway(c, w, RepairContextEditing(c, w, t), field)
  {
    if t.reply.Is(400) && c.contextEditing && !t.st.contextEditingDisabled
       && CONTEXT_FIELD in t.body.fields && t.reply.complaint.contextEditing {
      var retries := t.st.contextRetries + 1;
      var st := t.st.(contextEditingDisabled := true, disabledAt := |t.st.sent|, contextRetries := retries);
      RetryLawful(c, w, t, Try(st, Without(t.body, CONTEXT_FIELD), t.reply), field);
    } else {
      assert RepairContextEditing(c, w, t) == t;
    }
  }

  lemma BudgetRepairLawful(c: Config, w: World, t: Try, field: string)
    requires Underway(c, w, t, field)
    ensures Underway(c, w, RepairThinkingBudget(w, t), field)
  {
    if t.reply.Is(400) && t.st.thinkingMax.None? && t.reply.complaint.thinkingMax.Some? {
      var max := t.reply.complaint.thinkingMax.value;
      var st := t.st.(thinkingMax := Some(max), learntAt := |t.st.sent|);
      if AnyAbove(t.body.budgets, max) {
        var clamped := t.body.(budgets := Clamp(t.body.budgets, max));
        RetryLawful(c, w, t, Try(st.(budgetRetries := st.budgetRetries + 1), clamped, t.reply), field);
      } else {
        SameFetches(c, w, t, t.(st := st), field);
      }
    }
  }

  lemma StripLawful(c: Config, w: World, t: Try, gone: string, field: string)
    requires Underway(c, w, t, field)
    ensures Underway(c, w, Strip(w, t, gone), field)
  {
    RetryLawful(c, w, t, Try(Stripped(t.st, gone), Without(t.body, gone), t.reply), field);
  }

  lemma FieldRepairLawful(c: Config, w: World, t: Try, field: string)
    requires Underway(c, w, t, field)
    ensures Underway(c, w, RepairField(w, t), field)
  {
    if t.reply.Is(400) {
      if Strippable(t, t.reply.complaint.offending) {
        StripLawful(c, w, t, t.reply.complaint.offending.value, field);
      } else if Strippable(t, t.reply.complaint.unsupported) {
        var gone := t.reply.complaint.unsupported.value;
        StripLawful(c, w, t, gone, field);
        SameFetches(c, w, Strip(w, t, gone), Strip(w, t, gone).(reply := t.reply), field);
        SameFetches(c, w, t, t.(st := t.st.(strippedFields := t.st.strippedFields + {gone})), field);
      }
    }
  }

  lemma AttemptLawful(c: Config, w: World, st: State, field: string)
    requires Settled(c, w, st, field) && w.prepare(|st.log|).Prepared?
    ensures Underway(c, w, Attempt(c, w, st, w.prepare(|st.log|).body), field)
  {
    var t1 := Fetch(w, Try(st, Outgoing(c, st, w.prepare(|st.log|).body), Threw));
    FirstFetchLawful(c, w, st, field);
    ContextRepairLawful(c, w, t1, field);
    var t2 := RepairContextEditing(c, w, t1);
    BudgetRepairLawful(c, w, t2, field);
    FieldRepairLawful(c, w, RepairThinkingBudget(w, t2), field);
  }

  /** Neither logging nor waiting is a fetch. */
  lemma LoggedSettled(c: Config, w: World, t: Try, u: nat, r: State, field: string)
    requires Underway(c, w, t, field)
    requires var logged := Logged(t.st, u, t.reply); r == logged || r == logged.(waited := logged.waited + DELAY_MS)
    ensures Settled(c, w, r, field)
  {
    LawfulStays(c, w, t.st, r, field);
  }

  lemma IterateSettled(c: Config, w: World, u: nat, tries: nat, st: State, field: string)
    requires Settled(c, w, st, field)
    ensures Settled(c, w, Iterate(c, w, u, tries, st).1, field)
  {
    if w.prepare(|st.log|).Prepared? {
      AttemptLawful(c, w, st, field);
      IterateForm(c, w, u, tries, st);
      LoggedSettled(c, w, Attempt(c, w, st, w.prepare(|st.log|).body), u, Iterate(c, w, u, tries, st).1, field);
    }
  }

  /** On every run, for every field and every fetch: the first body of an iteration carries the field if and
      only if the builder put it in or context editing, still on, did; and a retry only when the fetch
      before it did. */
  lemma {:induction false} FieldsReturnExactly(c: Config, w: World, u: nat, tries: nat, st: State, field: string)
    requires u < c.urls && tries <= MAX_ATTEMPTS && Settled(c, w, st, field)
    ensures Settled(c, w, Run(c, w, u, tries, st).1, field)
    decreases c.urls - u, MAX_ATTEMPTS - tries
  {
    var (v, after) := Iterate(c, w, u, tries, st);
    IterateSettled(c, w, u, tries, st, field);
    RunStep(c, w, u, tries, st);
    match v
    case Finish(_) =>
    case SameUrl => FieldsReturnExactly(c, w, u, tries + 1, after, field);
    case NextUrl => FieldsReturnExactly(c, w, u + 1, 0, after, field);
  }

  // ---------------------------------------------------------------- where a field is taken out

  /** The retries that took a field out did go without it. */
  ghost predicate Marked(st: State) {
    && (st.contextEditingDisabled ==> st.disabledAt < |st.sent| && CONTEXT_FIELD !in st.sent[st.disabledAt].fields)
    && |st.stripAt| == |st.strips|
    && (forall i :: 0 <= i < |st.strips| ==>
          st.stripAt[i] < |st.sent| && st.strips[i] !in st.sent[st.stripAt[i]].fields)
  }

  lemma FetchMarked(w: World, t: Try)
    requires Marked(t.st)
    ensures Marked(Fetch(w, t).st)
  {
    var r := Fetch(w, t).st;
    assert forall k :: 0 <= k < |t.st.sent| ==> r.sent[k] == t.st.sent[k];
  }

  lemma StripMarked(w: World, t: Try, field: string)
    requires Marked(t.st)
    ensures Marked(Strip(w, t, field).st)
  {
    var r := Strip(w, t, field).st;
    assert forall k :: 0 <= k < |t.st.sent| ==> r.sent[k] == t.st.sent[k];
    assert forall i :: 0 <= i < |t.st.strips| ==> r.strips[i] == t.st.strips[i] && r.stripAt[i] == t.st.stripAt[i];
  }

  lemma ContextRepairMarked(c: Config, w: World, t: Try)
    requires Marked(t.st)
    ensures Marked(RepairContextEditing(c, w, t).st)
  {
    var r := RepairContextEditing(c, w, t).st;
    assert forall k :: 0 <= k < |t.st.sent| ==> r.sent[k] == t.st.sent[k];
  }

  lemma BudgetRepairMarked(w: World, t: Try)
    requires Marked(t.st)
    ensures Marked(RepairThinkingBudget(w, t).st)
  {
    var r := RepairThinkingBudget(w, t).st;
    assert forall k :: 0 <= k < |t.st.sent| ==> r.sent[k] == t.st.sent[k];
  }

  lemma FieldRepairMarked(w: World, t: Try)
    requires Marked(t.st)
    ensures Marked(RepairField(w, t).st)
  {
    if t.reply.Is(400) {
      if Strippable(t, t.reply.complaint.offending) {
        StripMarked(w, t, t.reply.complaint.offending.value);
      } else if Strippable(t, t.reply.complaint.unsupported) {
        StripMarked(w, t, t.reply.complaint.unsupported.value);
      }
    }
  }

  lemma AttemptMarked(c: Config, w: World, st: State, b: Body)
    requires Marked(st)
    ensures Marked(Attempt(c, w, st, b).st)
  {
    var t0 := Try(st, Outgoing(c, st, b), Threw);
    FetchMarked(w, t0);
    var t1 := Fetch(w, t0);
    ContextRepairMarked(c, w, t1);
    var t2 := RepairContextEditing(c, w, t1);
    BudgetRepairMarked(w, t2);
    FieldRepairMarked(w, RepairThinkingBudget(w, t2));
  }

  lemma IterateMarked(c: Config, w: World, u: nat, tries: nat, st: State)
    requires Marked(st)
    ensures Marked(Iterate(c, w, u, tries, st).1)
  {
    if w.prepare(|st.log|).Prepared? {
      AttemptMarked(c, w, st, w.prepare(|st.log|).body);
      IterateForm(c, w, u, tries, st);
    }
  }

  lemma {:induction false} RunMarked(c: Config, w: World, u: nat, tries: nat, st: State)
    requires u < c.urls && tries <= MAX_ATTEMPTS && Marked(st)
    ensures Marked(Run(c, w, u, tries, st).1)
    decreases c.urls - u, MAX_ATTEMPTS - tries
  {
    var (v, after) := Iterate(c, w, u, tries, st);
    IterateMarked(c, w, u, tries, st);
    RunStep(c, w, u, tries, st);
    match v
    case Finish(_) =>
    case SameUrl => RunMarked(c, w, u, tries + 1, after);
    case NextUrl => RunMarked(c, w, u + 1, 0, after);
  }

  // ---------------------------------------------------------------- does it stay out?

  lemma {:induction false} BegunWithField(c: Config, w: World, st: State, field: string, p: nat, k: nat)
    returns (first: nat)
    requires AllLawful(c, w, st, field) && p <= k < |st.sent|
    requires field !in st.sent[p].fields && field in st.sent[k].fields
    ensures p < first <= k && Begins(st, first) && Puts(c, w, st, field, first)
    decreases k
  {
    assert Lawful(c, w, st, field, k);
    if Begins(st, k) {
      first := k;
    } else {
      first := BegunWithField(c, w, st, field, p, k - 1);
    }
  }

  /** A field that was once left out stays out if and only if no later iteration puts it in. */
  lemma StaysOutExactly(c: Config, w: World, r: State, field: string, p: nat)
    requires AllLawful(c, w, r, field) && p < |r.sent| && field !in r.sent[p].fields
    ensures (forall k :: p <= k < |r.sent| ==> field !in r.sent[k].fields)
      <==> (forall k :: p <= k < |r.sent| && Begins(r, k) ==> !Puts(c, w, r, field, k))
  {
    if k :| p <= k < |r.sent| && field in r.sent[k].fields {
      var first := BegunWithField(c, w, r, field, p, k);
    }
    if k :| p <= k < |r.sent| && Begins(r, k) && Puts(c, w, r, field, k) {
      assert Lawful(c, w, r, field, k);
    }
  }

  /** The promise to keep a rejected field out of every later body is kept on a run if and only if no
      iteration begun after the rejection has a builder that puts it in. */
  lemma RejectionKeptExactly(c: Config, w: World)
    requires c.urls >= 1 && Run(c, w, 0, 0, START).1.contextEditingDisabled
    ensures var r := Run(c, w, 0, 0, START).1;
      && |r.owners| == |r.sent|
      && ((forall k :: r.disabledAt <= k < |r.sent| ==> CONTEXT_FIELD !in r.sent[k].fields)
          <==> (forall k :: r.disabledAt <= k < |r.sent| && Begins(r, k) ==>
                  !BuilderHas(w, r.owners[k], CONTEXT_FIELD)))
  {
    var r := Run(c, w, 0, 0, START).1;
    FieldsReturnExactly(c, w, 0, 0, START, CONTEXT_FIELD);
    RunMarked(c, w, 0, 0, START);
    StaysOutExactly(c, w, r, CONTEXT_FIELD, r.disabledAt);
    assert forall k :: r.disabledAt <= k < |r.sent| ==>
      Puts(c, w, r, CONTEXT_FIELD, k) == BuilderHas(w, r.owners[k], CONTEXT_FIELD);
  }

  /** A field stripped after a 400 is gone from every later body of the run if and only if no iteration begun
      after the strip puts it in again; and it is not stripped a second time. */
  lemma StripKeptExactly(c: Config, w: World, i: nat)
    requires c.urls >= 1 && i < |Run(c, w, 0, 0, START).1.strips|
    ensures var r := Run(c, w, 0, 0, START).1;
      && |r.owners| == |r.sent| && |r.stripAt| == |r.strips| && NoRepeats(r.strips)
      && ((forall k :: r.stripAt[i] <= k < |r.sent| ==> r.strips[i] !in r.sent[k].fields)
          <==> (forall k :: r.stripAt[i] <= k < |r.sent| && Begins(r, k) ==> !Puts(c, w, r, r.strips[i], k)))
  {
    var r := Run(c, w, 0, 0, START).1;
    FieldsReturnExactly(c, w, 0, 0, START, r.strips[i]);
    RunMarked(c, w, 0, 0, START);
    ExecuteBounds(c, w);
    StaysOutExactly(c, w, r, r.strips[i], r.stripAt[i]);
  }

  // ---------------------------------------------------------------- runs on which it does not

  const EDITING: Body := Body({CONTEXT_FIELD}, [])
  const REJECTED: Complaint := Complaint(true, None, None, None)

  /** A builder that always adds the field, and one URL: it rejects the field, then limits the rate, then
      answers. */
  function Insisting(): World {
    World(k => Response(if k == 0 then 400 else if k == 1 then 429 else 200, REJECTED),
          _ => Prepared(EDITING), _ => Unwilling)
  }

  /** On that run the rejected field is sent again when the URL is tried again. */
  lemma RejectedFieldReturns()
    ensures var r := Run(Config(1, false, true, true), Insisting(), 0, 0, START).1;
      && r.contextEditingDisabled && r.disabledAt == 1
      && r.sent == [EDITING, Without(EDITING, CONTEXT_FIELD), EDITING]
  {
    var c, w := Config(1, false, true, true), Insisting();
    var t1 := Fetch(w, Try(START, EDITING, Threw));
    assert EDITING.fields + {CONTEXT_FIELD} == EDITING.fields;
    assert Outgoing(c, START, EDITING) == EDITING;
    var t2 := RepairContextEditing(c, w, t1);
    assert t2.st.sent == [EDITING, Without(EDITING, CONTEXT_FIELD)] && t2.reply == Response(429, REJECTED);
    var (v, st) := Iterate(c, w, 0, 0, START);
    assert v == SameUrl && st.contextEditingDisabled && st.sent == t2.st.sent;
    var (v2, st2) := Iterate(c, w, 0, 1, st);
    assert v2 == Finish(Returned(200, 0)) && st2.sent == [EDITING, Without(EDITING, CONTEXT_FIELD), EDITING];
  }

  const TOP_K: Body := Body({"top_k"}, [])
  const NAMED: Complaint := Complaint(false, None, Some("top_k"), None)

  /** One URL that names a field, then limits the rate, then names the field again. */
  function Naming(): World {
    World(k => if k == 1 then Response(429, NAMED) else Response(400, NAMED), _ => Prepared(TOP_K), _ => Unwilling)
  }

  /** On that run the stripped field is sent again, is not stripped again, and the 400 comes back. */
  lemma StrippedFieldReturns()
    ensures var (result, r) := Run(Config(1, false, false, false), Naming(), 0, 0, START);
      && result == Returned(400, 0) && r.strips == ["top_k"]
      && r.sent == [TOP_K, Without(TOP_K, "top_k"), TOP_K]
  {
    var c, w := Config(1, false, false, false), Naming();
    var t1 := Fetch(w, Try(START, TOP_K, Threw));
    assert Outgoing(c, START, TOP_K) == TOP_K;
    var t2 := Strip(w, t1, "top_k");
    assert RepairField(w, t1) == t2;
    assert t2.st.sent == [TOP_K, Without(TOP_K, "top_k")] && t2.reply == Response(429, NAMED);
    var (v, st) := Iterate(c, w, 0, 0, START);
    assert v == SameUrl && st.sent == t2.st.sent && st.strippedFields == {"top_k"};
    var (v2, st2) := Iterate(c, w, 0, 1, st);
    assert v2 == Finish(Returned(400, 0)) && st2.sent == [TOP_K, Without(TOP_K, "top_k"), TOP_K];
  }

  // ---------------------------------------------------------------- every fetch accounted for

  /** Fetches that are no repair retry. */
  function Plain(st: State): int {
    |st.sent| - st.contextRetries - st.budgetRetries - |st.strips|
  }

  lemma FieldRepairAccounted(w: World, t: Try)
    ensures Plain(RepairField(w, t).st) == Plain(t.st)
  {
  }

  lemma AttemptAccounted(c: Config, w: World, st: State, b: Body)
    ensures Plain(Attempt(c, w, st, b).st) == Plain(st) + 1 && Attempt(c, w, st, b).st.log == st.log
  {
    var t1 := Fetch(w, Try(st, Outgoing(c, st, b), Threw));
    var t2 := RepairContextEditing(c, w, t1);
    assert Plain(t2.st) == Plain(t1.st);
    var t3 := RepairThinkingBudget(w, t2);
    assert Plain(t3.st) == Plain(t2.st);
    FieldRepairAccounted(w, t3);
  }

  lemma IterateAccounted(c: Config, w: World, u: nat, tries: nat, st: State)
    requires Plain(st) == |st.log|
    ensures var r := Iterate(c, w, u, tries, st).1; Plain(r) == |r.log|
  {
    if w.prepare(|st.log|).Prepared? {
      IterateForm(c, w, u, tries, st);
      AttemptAccounted(c, w, st, w.prepare(|st.log|).body);
    }
  }

  /** In every run the fetches are one for each iteration that got to send, and one for each repair: none
      is uncounted and none is counted twice. */
  lemma {:induction false} FetchesAccounted(c: Config, w: World, u: nat, tries: nat, st: State)
    requires u < c.urls && tries <= MAX_ATTEMPTS && Plain(st) == |st.log|
    ensures var r := Run(c, w, u, tries, st).1;
      |r.sent| == |r.log| + r.contextRetries + r.budgetRetries + |r.strips|
    decreases c.urls - u, MAX_ATTEMPTS - tries
  {
    var (v, after) := Iterate(c, w, u, tries, st);
    IterateAccounted(c, w, u, tries, st);
    RunStep(c, w, u, tries, st);
    match v
    case Finish(_) =>
    case SameUrl => FetchesAccounted(c, w, u, tries + 1, after);
    case NextUrl => FetchesAccounted(c, w, u + 1, 0, after);
  }

  // ---------------------------------------------------------------- what a repair retry sends

  /** `a` asks for less than `b`: no field and no budget more, and something less. */
  ghost predicate Narrower(a: Body, b: Body) {
    && a != b && a.fields <= b.fields && |a.budgets| == |b.budgets|
    && forall i :: 0 <= i < |a.budgets| ==> a.budgets[i] <= b.budgets[i]
  }

  /** The attempt that started after `k` fetches and `f` strips with the body `first`: each of its bodies
      asks for less than the one before, the last is the one in hand, and it lacks what was stripped. */
  ghost predicate Narrowing(t: Try, k: nat, f: nat, first: Body) {
    && k < |t.st.sent| && t.st.sent[k] == first && t.body == t.st.sent[|t.st.sent| - 1] && f <= |t.st.strips|
    && (forall i :: k < i < |t.st.sent| ==> Narrower(t.st.sent[i], t.st.sent[i - 1]))
    && (forall i :: f <= i < |t.st.strips| ==> t.st.strips[i] !in t.body.fields)
  }

  lemma ContextRepairNarrows(c: Config, w: World, t: Try, k: nat, f: nat, first: Body)
    requires Narrowing(t, k, f, first)
    ensures Narrowing(RepairContextEditing(c, w, t), k, f, first)
  {
  }

  lemma BudgetRepairNarrows(w: World, t: Try, k: nat, f: nat, first: Body)
    requires Narrowing(t, k, f, first)
    ensures Narrowing(RepairThinkingBudget(w, t), k, f, first)
  {
  }

  lemma StripNarrows(w: World, t: Try, field: string, k: nat, f: nat, first: Body)
    requires Narrowing(t, k, f, first) && field in t.body.fields
    ensures Narrowing(Strip(w, t, field), k, f, first)
  {
  }

  lemma FieldRepairNarrows(w: World, t: Try, k: nat, f: nat, first: Body)
    requires Narrowing(t, k, f, first)
    ensures Narrowing(RepairField(w, t), k, f, first)
  {
    if !t.reply.Is(400) {
      return;
    }
    if Strippable(t, t.reply.complaint.offending) {
      StripNarrows(w, t, t.reply.complaint.offending.value, k, f, first);
    } else if Strippable(t, t.reply.complaint.unsupported) {
      StripNarrows(w, t, t.reply.complaint.unsupported.value, k, f, first);
    }
  }

  /** Within one attempt no body is sent twice: each retry asks for strictly less than the fetch before it,
      and the last body sent lacks every field the attempt stripped. */
  lemma RepairsNarrow(c: Config, w: World, st: State, b: Body)
    ensures Narrowing(Attempt(c, w, st, b), |st.sent|, |st.strips|, Outgoing(c, st, b))
  {
    var t1 := Fetch(w, Try(st, Outgoing(c, st, b), Threw));
    ContextRepairNarrows(c, w, t1, |st.sent|, |st.strips|, Outgoing(c, st, b));
    var t2 := RepairContextEditing(c, w, t1);
    BudgetRepairNarrows(w, t2, |st.sent|, |st.strips|, Outgoing(c, st, b));
    FieldRepairNarrows(w, RepairThinkingBudget(w, t2), |st.sent|, |st.strips|, Outgoing(c, st, b));
  }
}
