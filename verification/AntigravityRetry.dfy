/** The Antigravity executor's request loop: retries of the same URL, fallback URLs, and one retry paid
    with credits.

    Replies, the request builder and the credit switch are arbitrary functions of how many requests were
    made before, so a statement for all of them is a statement about every run. */
module AntigravityRetry {
  import opened AttemptLog
  import opened OrderedMap

  const MAX_RETRY_AFTER_MS: nat := 60000
  const LONG_RETRY_THRESHOLD_MS: nat := 60000
  const TRANSIENT_RETRY_MAX_MS: nat := 15000
  const MAX_AUTO_RETRIES: nat := 3

  datatype Category = Unknown | RateLimited | QuotaExhausted | SoftRateLimit

  /** A wait that is named is never zero. */
  type Wait = ms: nat | ms > 0 witness 1

  /** The text of an error reply: unreadable (`fatal` when the caller's abort is why), not JSON, or
      classified, with the reset time its message names. `isRecord`: the JSON is an object, to which a
      field can be added. `known`: the text matches one of the known transient patterns. */
  datatype Text =
    | Unreadable(fatal: bool)
    | NotJson(known: bool)
    | Classified(category: Category, resetMs: Option<Wait>, isRecord: bool, known: bool)
  {
    predicate Extensible() { NotJson? || (Classified? && isRecord) }
    predicate Known() { !Unreadable? && known }
  }

  /** An upstream reply; `retryAfter` is the wait its headers ask for. */
  datatype Reply = Threw(fatal: bool) | Reply(status: int, retryAfter: Option<Wait>, text: Text) {
    predicate Limited() { Reply? && (status == 429 || status == 503) }
  }

  datatype Prepared = Ready | Rejected | PrepareThrew

  datatype World = World(net: nat -> Reply, prepare: nat -> Prepared, creditsAllowed: nat -> bool)

  /** `projectHeader`: the request carries the header that a 403 is retried without; `creditsInjected`:
      it already asks to be paid with credits. */
  datatype Config = Config(urls: nat, projectHeader: bool, creditsInjected: bool)

  /** `log` has the reply each send ended with and `firsts` the number of its first fetch; `paidAt` is the
      number of the credits fetch, `waits` the waits and their URLs. */
  datatype State = State(
    fetches: nat, sends: nat, creditsAttempted: bool, creditsRetries: nat, paidAt: Option<nat>,
    log: seq<(nat, Reply)>, firsts: seq<nat>, waits: seq<(nat, nat)>)

  const START: State := State(0, 0, false, 0, None, [], [], [])

  datatype Result =
    | Returned(status: int, url: nat, embeddedMs: Option<nat>)
    | PaidByCredits(status: int, url: nat)
    | Refused(url: nat)
    | Raised(url: nat)
    | Aborted(url: nat)
    | BuilderRaised(url: nat)

  datatype Verdict = SameUrl(waitMs: nat) | NextUrl | Finish(result: Result)

  // ---------------------------------------------------------------- one attempt

  /** Absent and zero waits are the same. */
  predicate Asked(ms: Option<nat>) {
    ms.Some? && ms.value > 0
  }

  /** The wait decided from a classified error text. */
  function Decide429(category: Category, resetMs: Option<Wait>): Wait {
    if resetMs.Some? then resetMs.value
    else match category
      case SoftRateLimit => 2000
      case RateLimited => 60000
      case QuotaExhausted => 24 * 60 * 60 * 1000
      case Unknown => 5000
  }

  function TextWait(text: Text): Option<Wait> {
    if text.Classified? then Some(Decide429(text.category, text.resetMs)) else None
  }

  /** The wait a limited reply asks for: by its headers, else by its text. */
  function RetryMs(r: Reply): Option<Wait>
    requires r.Reply?
  {
    if Asked(r.retryAfter) then r.retryAfter else TextWait(r.text)
  }

  /** One request; a 403 to a request with the project header is sent again without it. */
  function Send(c: Config, w: World, st: State): (State, Reply) {
    var first := w.net(st.fetches);
    if first.Reply? && first.status == 403 && c.projectHeader
    then (st.(fetches := st.fetches + 2, sends := st.sends + 1), w.net(st.fetches + 1))
    else (st.(fetches := st.fetches + 1, sends := st.sends + 1), first)
  }

  predicate CreditsEligible(c: Config, w: World, st: State, r: Reply) {
    && r.Reply? && !Asked(r.retryAfter)
    && r.text.Classified? && r.text.category == QuotaExhausted
    && !c.creditsInjected && !st.creditsAttempted && w.creditsAllowed(st.fetches)
  }

  function ShouldAutoRetry(r: Reply): bool
    requires r.Reply?
  {
    r.status == 429 || (r.status in {500, 502, 503, 504} && !r.text.Unreadable?)
  }

  function Power2(n: nat): nat { if n == 0 then 1 else 2 * Power2(n - 1) }

  function MinMs(a: nat, b: nat): nat { if a < b then a else b }

  /** The wait before retry number `attempt` when nobody named one. */
  function BackoffMs(status: int, attempt: nat): nat {
    MinMs(1000 * Power2(attempt), if status == 429 then MAX_RETRY_AFTER_MS else TRANSIENT_RETRY_MAX_MS)
  }

  /** After a 429 or 503 that no credits retry has settled. */
  function JudgeLimited(c: Config, r: Reply, u: nat, tries: nat): Verdict
    requires r.Reply?
  {
    var ms := RetryMs(r);
    if Asked(ms) && ms.value <= LONG_RETRY_THRESHOLD_MS && tries < MAX_AUTO_RETRIES
    then SameUrl(MinMs(ms.value, MAX_RETRY_AFTER_MS))
    else if !Asked(ms) && tries < MAX_AUTO_RETRIES && ShouldAutoRetry(r)
    then SameUrl(BackoffMs(r.status, tries + 1))
    else if u + 1 < c.urls then NextUrl
    else Finish(Returned(r.status, u,
      if r.status == 429 && Asked(ms) && ms.value > LONG_RETRY_THRESHOLD_MS && r.text.Extensible() then ms else None))
  }

  /** The credits retry: once per run, and final unless it is limited itself or fails. */
  function PayWithCredits(c: Config, w: World, st: State, r: Reply, u: nat, tries: nat): (Verdict, State)
    requires r.Reply?
  {
    var paid := w.net(st.fetches);
    var after := st.(
      fetches := st.fetches + 1, creditsAttempted := true, creditsRetries := st.creditsRetries + 1,
      paidAt := Some(st.fetches));
    if paid.Threw? && paid.fatal then (Finish(Aborted(u)), after)
    else if paid.Reply? && paid.status != 429 then (Finish(PaidByCredits(paid.status, u)), after)
    else (JudgeLimited(c, r, u, tries), after)
  }

  function Judge(c: Config, w: World, st: State, r: Reply, u: nat, tries: nat): (Verdict, State) {
    if r.Threw? then
      (if r.fatal then Finish(Aborted(u)) else if u + 1 < c.urls then NextUrl else Finish(Raised(u)), st)
    else if !r.Limited() then (Finish(Returned(r.status, u, None)), st)
    else if !Asked(r.retryAfter) && r.text == Unreadable(true) then (Finish(Aborted(u)), st)
    else if CreditsEligible(c, w, st, r) then PayWithCredits(c, w, st, r, u, tries)
    else (JudgeLimited(c, r, u, tries), st)
  }

  /** Try number `tries` of URL `u`, with its wait. */
  function Iterate(c: Config, w: World, u: nat, tries: nat, st: State): (r: (Verdict, State))
    ensures r.0.SameUrl? ==> tries < MAX_AUTO_RETRIES
    ensures r.0.NextUrl? ==> u + 1 < c.urls
  {
    match w.prepare(|st.log|)
    case PrepareThrew => (Finish(BuilderRaised(u)), st)
    case Rejected => (Finish(Refused(u)), st)
    case Ready =>
      var (sent, reply) := Send(c, w, st);
      var (v, judged) := Judge(c, w, sent, reply, u, tries);
      (v, judged.(log := st.log + [(u, reply)], firsts := st.firsts + [st.fetches],
                  waits := if v.SameUrl? then st.waits + [(u, v.waitMs)] else st.waits))
  }

  // ---------------------------------------------------------------- a run

  /** The run from URL `u` on with `tries` retries of it spent: up to four tries of each URL, in order. */
  function Run(c: Config, w: World, u: nat, tries: nat, st: State): (Result, State)
    requires u < c.urls && tries <= MAX_AUTO_RETRIES
    decreases c.urls - u, MAX_AUTO_RETRIES - tries
  {
    var (v, after) := Iterate(c, w, u, tries, st);
    match v
    case Finish(r) => (r, after)
    case SameUrl(_) => Run(c, w, u, tries + 1, after)
    case NextUrl => Run(c, w, u + 1, 0, after)
  }

  lemma RunStep(c: Config, w: World, u: nat, tries: nat, st: State)
    requires u < c.urls && tries <= MAX_AUTO_RETRIES
    ensures var (v, after) := Iterate(c, w, u, tries, st);
      Run(c, w, u, tries, st) == match v
        case Finish(r) => (r, after)
        case SameUrl(_) => Run(c, w, u, tries + 1, after)
        case NextUrl => Run(c, w, u + 1, 0, after)
  {
  }

  /** Resolve the wait of a limited reply, maybe by way of credits, then decide. */
  method HandleRateLimit(c: Config, w: World, st: State, r: Reply, u: nat, attempts: nat)
    returns (v: Verdict, after: State)
    requires r.Limited()
    ensures (v, after) == Judge(c, w, st, r, u, attempts)
  {
    after := st;
    var retryMs: Option<nat> := r.retryAfter;
    if !Asked(retryMs) {
      retryMs := None;
      match r.text
      case Unreadable(fatal) =>
        if fatal {
          return Finish(Aborted(u)), after;
        }
      case NotJson(_) =>
      case Classified(category, resetMs, _, _) =>
        retryMs := Some(Decide429(category, resetMs));
        if category == QuotaExhausted && !c.creditsInjected && !st.creditsAttempted && w.creditsAllowed(st.fetches) {
          var paid := w.net(st.fetches);
          after := after.(
            creditsAttempted := true, fetches := st.fetches + 1, creditsRetries := st.creditsRetries + 1,
            paidAt := Some(st.fetches));
          if paid.Threw? {
            if paid.fatal {
              return Finish(Aborted(u)), after;
            }
          } else if paid.status != 429 {
            return Finish(PaidByCredits(paid.status, u)), after;
          }
        }
    }
    if Asked(retryMs) && retryMs.value <= LONG_RETRY_THRESHOLD_MS && attempts < MAX_AUTO_RETRIES {
      return SameUrl(MinMs(retryMs.value, MAX_RETRY_AFTER_MS)), after;
    }
    if !Asked(retryMs) && attempts < MAX_AUTO_RETRIES && ShouldAutoRetry(r) {
      return SameUrl(BackoffMs(r.status, attempts + 1)), after;
    }
    if u + 1 < c.urls {
      return NextUrl, after;
    }
    var embed := r.status == 429 && Asked(retryMs) && retryMs.value > LONG_RETRY_THRESHOLD_MS && r.text.Extensible();
    v := Finish(Returned(r.status, u, if embed then retryMs else None));
  }

  /** One pass through the loop body. */
  method AttemptUrl(c: Config, w: World, u: nat, attempts: nat, st: State) returns (v: Verdict, after: State)
    ensures (v, after) == Iterate(c, w, u, attempts, st)
  {
    var prepared := w.prepare(|st.log|);
    if prepared.PrepareThrew? {
      return Finish(BuilderRaised(u)), st;
    }
    if prepared.Rejected? {
      return Finish(Refused(u)), st;
    }
    var reply := w.net(st.fetches);
    after := st.(fetches := st.fetches + 1, sends := st.sends + 1);
    if reply.Reply? && reply.status == 403 && c.projectHeader {
      reply := w.net(after.fetches);
      after := after.(fetches := after.fetches + 1);
    }
    if reply.Threw? {
      v := if reply.fatal then Finish(Aborted(u)) else if u + 1 < c.urls then NextUrl else Finish(Raised(u));
    } else if reply.Limited() {
      v, after := HandleRateLimit(c, w, after, reply, u, attempts);
    } else {
      v := Finish(Returned(reply.status, u, None));
    }
    after := after.(log := after.log + [(u, reply)], firsts := after.firsts + [st.fetches]);
    if v.SameUrl? {
      after := after.(waits := after.waits + [(u, v.waitMs)]);
    }
  }

  function AttemptsAt(table: map<int, nat>, urlIndex: int): nat {
    if urlIndex in table then table[urlIndex] else 0
  }

  /** The executor's loop: a same-URL retry steps the index back, the table counts them, and no path
      leaves the loop at the bottom. */
  method ExecuteOnce(c: Config, w: World) returns (result: Result, st: State)
    requires c.urls >= 1
    ensures (result, st) == Run(c, w, 0, 0, START)
  {
    st := START;
    var retryAttemptsByUrl: map<int, nat> := map[];
    var urlIndex := 0;
    ghost var tries, goal := 0, Run(c, w, 0, 0, START);
    while urlIndex < c.urls
      invariant 0 <= urlIndex < c.urls
      invariant forall k :: k in retryAttemptsByUrl ==> k <= urlIndex
      invariant tries == AttemptsAt(retryAttemptsByUrl, urlIndex) <= MAX_AUTO_RETRIES
      invariant Run(c, w, urlIndex, tries, st) == goal
      decreases c.urls - urlIndex, MAX_AUTO_RETRIES - tries
    {
      if urlIndex !in retryAttemptsByUrl {
        retryAttemptsByUrl := retryAttemptsByUrl[urlIndex := 0];
      }
      var attempts := retryAttemptsByUrl[urlIndex];
      RunStep(c, w, urlIndex, attempts, st);
      var v;
      v, st := AttemptUrl(c, w, urlIndex, attempts, st);
      if v.Finish? {
        return v.result, st;
      }
      tries := 0;
      if v.SameUrl? {
        retryAttemptsByUrl := retryAttemptsByUrl[urlIndex := attempts + 1];
        tries := attempts + 1;
        urlIndex := urlIndex - 1;
      }
      urlIndex := urlIndex + 1;
    }
    assert false;
  }

  // ---------------------------------------------------------------- how much a run costs

  function Sum(ms: seq<nat>): nat {
    if ms == [] then 0 else Sum(ms[..|ms| - 1]) + ms[|ms| - 1]
  }

  /** Waits are short, and there is at most one credits retry. */
  ghost predicate Sound(st: State) {
    && st.creditsRetries == (if st.creditsAttempted then 1 else 0)
    && st.sends == |st.log|
    && st.fetches <= 2 * st.sends + st.creditsRetries
  }

  /** `tries` waits of at most a minute on URL `u`, none later, at most three earlier. */
  ghost predicate Waited(st: State, u: nat, tries: nat) {
    && (forall v :: 0 <= v < u ==> |Tries(st.waits, v)| <= MAX_AUTO_RETRIES)
    && |Tries(st.waits, u)| == tries
    && (forall v :: v > u ==> Tries(st.waits, v) == [])
    && (forall i :: 0 <= i < |st.waits| ==> st.waits[i].1 <= MAX_RETRY_AFTER_MS)
  }

  lemma IterateSound(c: Config, w: World, u: nat, tries: nat, st: State)
    requires Sound(st)
    ensures var (v, r) := Iterate(c, w, u, tries, st);
      && Sound(r)
      && |st.log| <= |r.log| <= |st.log| + 1
      && r.waits == (if v.SameUrl? then st.waits + [(u, v.waitMs)] else st.waits)
      && (v.SameUrl? ==> v.waitMs <= MAX_RETRY_AFTER_MS)
  {
  }

  /** One more wait: those of its URL grow by it, those of others stay. */
  lemma WaitsNext(waits: seq<(nat, nat)>, u: nat, ms: nat)
    ensures forall x: nat :: Tries(waits + [(u, ms)], x) == if x == u then Tries(waits, x) + [ms] else Tries(waits, x)
  {
    forall x: nat ensures Tries(waits + [(u, ms)], x) == if x == u then Tries(waits, x) + [ms] else Tries(waits, x) {
      TriesSnoc(waits, u, ms, x);
    }
  }

  lemma WaitedNext(st: State, r: State, u: nat, tries: nat, ms: nat)
    requires Waited(st, u, tries) && ms <= MAX_RETRY_AFTER_MS && r.waits == st.waits + [(u, ms)]
    ensures Waited(r, u, tries + 1)
  {
    WaitsNext(st.waits, u, ms);
  }

  lemma WaitedElsewhere(st: State, r: State, u: nat, tries: nat)
    requires Waited(st, u, tries) && tries <= MAX_AUTO_RETRIES && r.waits == st.waits
    ensures Waited(r, u + 1, 0) && WaitsBounded(r)
  {
    forall v: nat ensures |Tries(r.waits, v)| <= MAX_AUTO_RETRIES {}
  }

  lemma IterateWaited(c: Config, w: World, u: nat, tries: nat, st: State)
    requires tries <= MAX_AUTO_RETRIES && Sound(st) && Waited(st, u, tries)
    ensures var (v, r) := Iterate(c, w, u, tries, st);
      match v
      case SameUrl(_) => Waited(r, u, tries + 1)
      case NextUrl => Waited(r, u + 1, 0)
      case Finish(_) => WaitsBounded(r)
  {
    IterateSound(c, w, u, tries, st);
    var (v, r) := Iterate(c, w, u, tries, st);
    if v.SameUrl? {
      WaitedNext(st, r, u, tries, v.waitMs);
    } else {
      WaitedElsewhere(st, r, u, tries);
    }
  }

  /** Up to three waits on any URL, none longer than a minute. */
  ghost predicate WaitsBounded(st: State) {
    && (forall v: nat :: |Tries(st.waits, v)| <= MAX_AUTO_RETRIES)
    && (forall i :: 0 <= i < |st.waits| ==> st.waits[i].1 <= MAX_RETRY_AFTER_MS)
  }

  lemma {:induction false} RunBounds(c: Config, w: World, u: nat, tries: nat, st: State)
    requires u < c.urls && tries <= MAX_AUTO_RETRIES && Sound(st) && Waited(st, u, tries)
    ensures var r := Run(c, w, u, tries, st).1;
      Sound(r) && |r.log| + tries <= |st.log| + 4 * (c.urls - u) && WaitsBounded(r)
    decreases c.urls - u, MAX_AUTO_RETRIES - tries
  {
    var (v, after) := Iterate(c, w, u, tries, st);
    IterateSound(c, w, u, tries, st);
    IterateWaited(c, w, u, tries, st);
    RunStep(c, w, u, tries, st);
    match v
    case Finish(_) =>
    case SameUrl(_) => RunBounds(c, w, u, tries + 1, after);
    case NextUrl => RunBounds(c, w, u + 1, 0, after);
  }

  lemma {:induction false} TriesShort(waits: seq<(nat, nat)>, v: nat, max: nat)
    requires forall i :: 0 <= i < |waits| ==> waits[i].1 <= max
    ensures forall i :: 0 <= i < |Tries(waits, v)| ==> Tries(waits, v)[i] <= max
  {
    if waits != [] {
      TriesShort(waits[..|waits| - 1], v, max);
    }
  }

  lemma {:induction false} SumShort(ms: seq<nat>, max: nat)
    requires forall i :: 0 <= i < |ms| ==> ms[i] <= max
    ensures Sum(ms) <= |ms| * max
  {
    if ms != [] {
      SumShort(ms[..|ms| - 1], max);
    }
  }

  /** A whole run over N URLs: at most 4N sends, each of at most two fetches, and one credits retry; on
      every URL at most three waits, 180 000 ms in all. */
  lemma ExecuteOnceBounds(c: Config, w: World)
    requires c.urls >= 1
    ensures var r := Run(c, w, 0, 0, START).1;
      && r.sends <= 4 * c.urls && r.creditsRetries <= 1 && r.fetches <= 2 * r.sends + r.creditsRetries
      && forall v: nat :: Sum(Tries(r.waits, v)) <= 180000
  {
    RunBounds(c, w, 0, 0, START);
    var r := Run(c, w, 0, 0, START).1;
    forall v: nat ensures Sum(Tries(r.waits, v)) <= 180000 {
      TriesShort(r.waits, v, MAX_RETRY_AFTER_MS);
      SumShort(Tries(r.waits, v), MAX_RETRY_AFTER_MS);
    }
  }

  // ---------------------------------------------------------------- which response comes back

  ghost predicate AllLimited(ts: seq<Reply>) {
    forall i :: 0 <= i < |ts| ==> ts[i].Limited()
  }

  /** A limited reply that will not be retried on the same URL even with retries left. */
  predicate TooLong(r: Reply) {
    && r.Limited()
    && if Asked(RetryMs(r)) then RetryMs(r).value > LONG_RETRY_THRESHOLD_MS else r.status == 503 && r.text.Unreadable?
  }

  /** A URL is given up when a try throws, after four limited replies, or when the wait asked for is too
      long. */
  ghost predicate GivenUp(ts: seq<Reply>) {
    && 1 <= |ts| <= 4 && AllLimited(ts[..|ts| - 1])
    && var last := ts[|ts| - 1];
       (last.Threw? && !last.fatal) || (last.Limited() && (|ts| == 4 || TooLong(last)))
  }

  ghost predicate Reached(log: seq<(nat, Reply)>, u: nat, tries: nat) {
    && (forall v :: 0 <= v < u ==> GivenUp(Tries(log, v)))
    && |Tries(log, u)| == tries && AllLimited(Tries(log, u))
    && (forall v :: v > u ==> Tries(log, v) == [])
  }

  /** What a result says about the tries that led to it. */
  ghost predicate Explained(c: Config, r: Result, log: seq<(nat, Reply)>) {
    && r.url < c.urls
    && (forall v :: 0 <= v < r.url ==> GivenUp(Tries(log, v)))
    && (forall v :: v > r.url ==> Tries(log, v) == [])
    && var ts := Tries(log, r.url);
       match r
       case Returned(status, u, embedded) =>
         && 1 <= |ts| <= 4 && AllLimited(ts[..|ts| - 1])
         && var last := ts[|ts| - 1];
            && last.Reply? && last.status == status
            && (last.Limited() ==> u + 1 == c.urls && GivenUp(ts))
            && (embedded.Some? ==>
                  status == 429 && embedded == RetryMs(last) && embedded.value > LONG_RETRY_THRESHOLD_MS)
            && (status == 429 && TooLong(last) && last.text.Extensible() ==> embedded.Some?)
       case Raised(u) => u + 1 == c.urls && GivenUp(ts) && ts[|ts| - 1].Threw?
       case PaidByCredits(status, _) => 1 <= |ts| <= 4 && AllLimited(ts) && status != 429
       case Aborted(_) => 1 <= |ts| <= 4 && AllLimited(ts[..|ts| - 1])
       case _ => |ts| <= 3 && AllLimited(ts)
  }

  /** One more entry: the tries of its URL grow by it, those of others stay. */
  lemma LoggedTries(log: seq<(nat, Reply)>, u: nat, o: Reply)
    ensures forall v: nat :: Tries(log + [(u, o)], v) == if u == v then Tries(log, v) + [o] else Tries(log, v)
  {
    forall v: nat ensures Tries(log + [(u, o)], v) == if u == v then Tries(log, v) + [o] else Tries(log, v) {
      TriesSnoc(log, u, o, v);
    }
  }

  lemma LimitedSnoc(ts: seq<Reply>, o: Reply)
    requires AllLimited(ts)
    ensures (ts + [o])[..|ts + [o]| - 1] == ts
    ensures AllLimited(ts + [o]) <==> o.Limited()
  {
    var more := ts + [o];
    assert more[..|more| - 1] == ts && more[|ts|] == o;
    assert forall i :: 0 <= i < |ts| ==> more[i] == ts[i];
  }

  lemma LoggedReached(log: seq<(nat, Reply)>, u: nat, tries: nat, o: Reply)
    requires Reached(log, u, tries) && tries <= MAX_AUTO_RETRIES
    ensures var next := log + [(u, o)];
      && Tries(next, u) == Tries(log, u) + [o] && Tries(next, u)[..tries] == Tries(log, u)
      && (forall v :: 0 <= v < u ==> GivenUp(Tries(next, v)))
      && (forall v :: v > u ==> Tries(next, v) == [])
      && (o.Limited() ==> Reached(next, u, tries + 1))
      && (GivenUp(Tries(next, u)) ==> Reached(next, u + 1, 0))
  {
    LoggedTries(log, u, o);
    LimitedSnoc(Tries(log, u), o);
  }

  /** Where the run goes after reply `o` to try `tries` of URL `u`, as the log tells it. */
  ghost predicate Follows(c: Config, v: Verdict, log: seq<(nat, Reply)>, u: nat, tries: nat) {
    match v
    case Finish(result) => Explained(c, result, log)
    case SameUrl(_) => Reached(log, u, tries + 1)
    case NextUrl => Reached(log, u + 1, 0)
  }

  lemma LimitedExplained(c: Config, log: seq<(nat, Reply)>, o: Reply, u: nat, tries: nat)
    requires u < c.urls && tries <= MAX_AUTO_RETRIES && Reached(log, u, tries) && o.Limited()
    ensures Follows(c, JudgeLimited(c, o, u, tries), log + [(u, o)], u, tries)
  {
    LoggedReached(log, u, tries, o);
    var ts := Tries(log + [(u, o)], u);
    assert |ts| == tries + 1 && ts[tries] == o && ts[..|ts| - 1] == Tries(log, u);
    if !JudgeLimited(c, o, u, tries).SameUrl? {
      assert GivenUp(ts);
    }
  }

  lemma CreditsExplained(c: Config, w: World, sent: State, log: seq<(nat, Reply)>, o: Reply, u: nat, tries: nat)
    requires u < c.urls && tries <= MAX_AUTO_RETRIES && Reached(log, u, tries) && o.Limited()
    ensures Follows(c, PayWithCredits(c, w, sent, o, u, tries).0, log + [(u, o)], u, tries)
  {
    LimitedExplained(c, log, o, u, tries);
    LoggedReached(log, u, tries, o);
    var ts := Tries(log + [(u, o)], u);
    assert |ts| == tries + 1 && ts[tries] == o && ts[..|ts| - 1] == Tries(log, u);
  }

  lemma AbortExplained(c: Config, log: seq<(nat, Reply)>, o: Reply, u: nat, tries: nat)
    requires u < c.urls && tries <= MAX_AUTO_RETRIES && Reached(log, u, tries)
    ensures Follows(c, Finish(Aborted(u)), log + [(u, o)], u, tries)
  {
    LoggedReached(log, u, tries, o);
    LimitedSnoc(Tries(log, u), o);
  }

  lemma ThrownExplained(c: Config, log: seq<(nat, Reply)>, o: Reply, u: nat, tries: nat)
    requires u < c.urls && tries <= MAX_AUTO_RETRIES && Reached(log, u, tries) && o.Threw? && !o.fatal
    ensures Follows(c, if u + 1 < c.urls then NextUrl else Finish(Raised(u)), log + [(u, o)], u, tries)
  {
    LoggedReached(log, u, tries, o);
    LimitedSnoc(Tries(log, u), o);
    assert GivenUp(Tries(log + [(u, o)], u));
  }

  lemma ReturnedExplained(c: Config, log: seq<(nat, Reply)>, o: Reply, u: nat, tries: nat)
    requires u < c.urls && tries <= MAX_AUTO_RETRIES && Reached(log, u, tries) && o.Reply? && !o.Limited()
    ensures Follows(c, Finish(Returned(o.status, u, None)), log + [(u, o)], u, tries)
  {
    LoggedReached(log, u, tries, o);
    LimitedSnoc(Tries(log, u), o);
  }

  lemma JudgeExplained(c: Config, w: World, sent: State, log: seq<(nat, Reply)>, o: Reply, u: nat, tries: nat)
    requires u < c.urls && tries <= MAX_AUTO_RETRIES && Reached(log, u, tries)
    ensures Follows(c, Judge(c, w, sent, o, u, tries).0, log + [(u, o)], u, tries)
  {
    if o.Limited() {
      LimitedExplained(c, log, o, u, tries);
      CreditsExplained(c, w, sent, log, o, u, tries);
      AbortExplained(c, log, o, u, tries);
    } else if o.Reply? {
      ReturnedExplained(c, log, o, u, tries);
    } else if o.fatal {
      AbortExplained(c, log, o, u, tries);
    } else {
      ThrownExplained(c, log, o, u, tries);
    }
  }

  lemma IterateExplained(c: Config, w: World, u: nat, tries: nat, st: State)
    requires u < c.urls && tries <= MAX_AUTO_RETRIES && Reached(st.log, u, tries)
    ensures var (v, r) := Iterate(c, w, u, tries, st);
      match v
      case Finish(result) => Explained(c, result, r.log)
      case SameUrl(_) => Reached(r.log, u, tries + 1)
      case NextUrl => Reached(r.log, u + 1, 0)
  {
    if w.prepare(|st.log|).Ready? {
      var (sent, reply) := Send(c, w, st);
      JudgeExplained(c, w, sent, st.log, reply, u, tries);
    }
  }

  lemma {:induction false} RunExplained(c: Config, w: World, u: nat, tries: nat, st: State)
    requires u < c.urls && tries <= MAX_AUTO_RETRIES && Reached(st.log, u, tries)
    ensures Explained(c, Run(c, w, u, tries, st).0, Run(c, w, u, tries, st).1.log)
    decreases c.urls - u, MAX_AUTO_RETRIES - tries
  {
    var (v, after) := Iterate(c, w, u, tries, st);
    IterateExplained(c, w, u, tries, st);
    match v
    case Finish(_) =>
    case SameUrl(_) => RunExplained(c, w, u, tries + 1, after);
    case NextUrl => RunExplained(c, w, u + 1, 0, after);
  }

  /** Every run: earlier URLs were given up; a 429 or 503 comes back only from the last URL and only when
      that was given up too; a wait of more than a minute is then handed to the caller; a network error
      comes back only from the last URL. */
  lemma FirstDecisiveUrlWins(c: Config, w: World)
    requires c.urls >= 1
    ensures var (r, st) := Run(c, w, 0, 0, START); Explained(c, r, st.log)
  {
    RunExplained(c, w, 0, 0, START);
  }

  // ---------------------------------------------------------------- which replies are tried again

  /** A status at which the comments promise a retry when the text is a known one. */
  predicate Transient(status: int) {
    status in {500, 502, 503, 504}
  }

  /** The promise of the comments for a reply that does not say when to come back: a 429 is always tried
      again, a transient 5xx when its text is a known one, nothing else. */
  predicate Promised(r: Reply)
    requires r.Reply?
  {
    r.status == 429 || (Transient(r.status) && r.text.Known())
  }

  /** With tries left and no credits to pay with, the same URL is tried again exactly for a 429 or 503 that
      names a short wait, a 429 that names none, and a 503 that names none but can be read. */
  lemma SameUrlExactly(c: Config, w: World, st: State, r: Reply, u: nat, tries: nat)
    requires r.Reply? && r.text != Unreadable(true) && tries < MAX_AUTO_RETRIES && !CreditsEligible(c, w, st, r)
    ensures Judge(c, w, st, r, u, tries).0.SameUrl?
      <==> r.Limited() && if Asked(RetryMs(r)) then RetryMs(r).value <= LONG_RETRY_THRESHOLD_MS
                          else r.status == 429 || !r.text.Unreadable?
  {
  }

  /** Neither the headers nor the text say when to come back. A JSON text that does not say gets a default
      wait by its category, a day for an exhausted quota. */
  predicate NamesNoWait(r: Reply)
    requires r.Reply?
  {
    !Asked(r.retryAfter) && (r.text.Classified? ==> r.text.resetMs.None?)
  }

  predicate Exhausted(text: Text) {
    text.Classified? && text.category == QuotaExhausted
  }

  /** With tries left, a reply that names no wait is tried again on the same URL exactly for a 429, or a 503
      that can be read, whose text is not that of an exhausted quota. */
  lemma UnnamedExactly(c: Config, w: World, st: State, r: Reply, u: nat, tries: nat)
    requires r.Reply? && NamesNoWait(r) && r.text != Unreadable(true) && tries < MAX_AUTO_RETRIES
    ensures Judge(c, w, st, r, u, tries).0.SameUrl?
      <==> (r.status == 429 || (r.status == 503 && !r.text.Unreadable?)) && !Exhausted(r.text)
  {
    if r.Limited() && !CreditsEligible(c, w, st, r) {
      SameUrlExactly(c, w, st, r, u, tries);
    }
  }

  /** For such a reply the code keeps the promise exactly when it is no 500, 502 or 504 with a known text, no
      readable 503 whose text is known and of an exhausted quota or neither, and no 429 of an exhausted
      quota. */
  lemma PromiseKeptExactly(c: Config, w: World, st: State, r: Reply, u: nat, tries: nat)
    requires r.Reply? && NamesNoWait(r) && r.text != Unreadable(true) && tries < MAX_AUTO_RETRIES
    ensures (Judge(c, w, st, r, u, tries).0.SameUrl? <==> Promised(r))
      <==> && !(r.status in {500, 502, 504} && r.text.Known())
           && !(r.status == 503 && !r.text.Unreadable? && r.text.Known() == Exhausted(r.text))
           && !(r.status == 429 && Exhausted(r.text))
  {
    UnnamedExactly(c, w, st, r, u, tries);
  }

  /** Replies that break it, with plain and with JSON texts: a 503 without a known text is tried again, a 500
      with one is returned, a 429 of an exhausted quota is not tried again. */
  lemma PromiseBroken(c: Config, w: World, st: State, u: nat)
    ensures Judge(c, w, st, Reply(503, None, NotJson(false)), u, 0).0 == SameUrl(2000)
    ensures Judge(c, w, st, Reply(503, None, Classified(Unknown, None, true, false)), u, 0).0 == SameUrl(5000)
    ensures Judge(c, w, st, Reply(500, None, NotJson(true)), u, 0).0 == Finish(Returned(500, u, None))
    ensures Judge(c, w, st, Reply(500, None, Classified(Unknown, None, true, true)), u, 0).0
         == Finish(Returned(500, u, None))
    ensures !Judge(c, w, st, Reply(503, None, Classified(QuotaExhausted, None, true, true)), u, 0).0.SameUrl?
    ensures !Judge(c, w, st, Reply(429, None, Classified(QuotaExhausted, None, true, true)), u, 0).0.SameUrl?
    ensures !Promised(Reply(503, None, NotJson(false)))
         && !Promised(Reply(503, None, Classified(Unknown, None, true, false)))
    ensures Promised(Reply(500, None, NotJson(true)))
         && Promised(Reply(500, None, Classified(Unknown, None, true, true)))
    ensures Promised(Reply(503, None, Classified(QuotaExhausted, None, true, true)))
         && Promised(Reply(429, None, Classified(QuotaExhausted, None, true, true)))
  {
    assert Power2(1) == 2;
    UnnamedExactly(c, w, st, Reply(503, None, Classified(QuotaExhausted, None, true, true)), u, 0);
    UnnamedExactly(c, w, st, Reply(429, None, Classified(QuotaExhausted, None, true, true)), u, 0);
  }

  // ---------------------------------------------------------------- a limit that never lifts

  ghost predicate AlwaysLimited(w: World) {
    && (forall k :: w.net(k).Reply? && w.net(k).status == 429 && w.net(k).text != Unreadable(true))
    && (forall k :: w.prepare(k).Ready?)
  }

  /** A 429 on every request is always handed back to the caller, from the last URL, after at least one
      send to every URL. */
  lemma {:induction false} PersistentLimitIsReturned(c: Config, w: World, u: nat, tries: nat, st: State)
    requires u < c.urls && tries <= MAX_AUTO_RETRIES && AlwaysLimited(w)
    ensures var (r, after) := Run(c, w, u, tries, st);
      && r.Returned? && r.status == 429 && r.url + 1 == c.urls
      && after.sends >= st.sends + (c.urls - u)
    decreases c.urls - u, MAX_AUTO_RETRIES - tries
  {
    var (v, after) := Iterate(c, w, u, tries, st);
    assert w.prepare(|st.log|).Ready? && w.net(st.fetches).Reply? && w.net(st.fetches + 1).Reply?;
    match v
    case Finish(_) =>
    case SameUrl(_) => PersistentLimitIsReturned(c, w, u, tries + 1, after);
    case NextUrl => PersistentLimitIsReturned(c, w, u + 1, 0, after);
  }

  /** When every such reply asks for a short wait, every URL is tried exactly four times: the two ways of
      retrying share one counter. */
  lemma {:induction false} ShortWaitsTryFourTimes(c: Config, w: World, u: nat, tries: nat, st: State)
    requires u < c.urls && tries <= MAX_AUTO_RETRIES && AlwaysLimited(w)
    requires forall k :: Asked(RetryMs(w.net(k))) ==> RetryMs(w.net(k)).value <= LONG_RETRY_THRESHOLD_MS
    ensures Run(c, w, u, tries, st).1.sends == st.sends + 4 * (c.urls - u) - tries
    decreases c.urls - u, MAX_AUTO_RETRIES - tries
  {
    var (v, after) := Iterate(c, w, u, tries, st);
    assert w.prepare(|st.log|).Ready? && w.net(st.fetches).Reply? && w.net(st.fetches + 1).Reply?;
    match v
    case Finish(_) =>
    case SameUrl(_) => ShortWaitsTryFourTimes(c, w, u, tries + 1, after);
    case NextUrl => ShortWaitsTryFourTimes(c, w, u + 1, 0, after);
  }
}
