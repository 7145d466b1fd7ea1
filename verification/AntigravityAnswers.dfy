/** Whose answer a run of the Antigravity executor's request loop returns: which fetches its replies are the
    answers to, when the credits retry is made and what comes of it, and how long each retry waits. */
module AntigravityAnswers {
  import opened AttemptLog
  import opened OrderedMap
  import opened AntigravityRetry

  // ---------------------------------------------------------------- which fetch each reply answers

  /** The answer to fetch `f` sends the same request once more: a 403 to a request with the project header. */
  predicate Doubled(c: Config, w: World, f: nat) {
    c.projectHeader && w.net(f).Reply? && w.net(f).status == 403
  }

  /** The fetch after a send that starts with fetch `f`. */
  function SendEnd(c: Config, w: World, f: nat): nat {
    if Doubled(c, w, f) then f + 2 else f + 1
  }

  /** Send `i` was logged with the answer to its second fetch if it has one, else to its first. */
  predicate Heard(c: Config, w: World, st: State, i: nat)
    requires i < |st.log| == |st.firsts|
  {
    var f := st.firsts[i];
    st.log[i].1 == if Doubled(c, w, f) then w.net(f + 1) else w.net(f)
  }

  /** The reply to send `i` is one to pay for with credits: limited, naming no wait in its headers, of an
      exhausted quota, when credits are allowed and not asked for already. */
  predicate Payable(c: Config, w: World, st: State, i: nat)
    requires i < |st.log| == |st.firsts|
  {
    var r := st.log[i].1;
    && r.Limited() && r.retryAfter.None? && r.text.Classified? && r.text.category == QuotaExhausted
    && !c.creditsInjected && w.creditsAllowed(SendEnd(c, w, st.firsts[i]))
  }

  /** One of the first `n` sends is payable. */
  predicate PayableBefore(c: Config, w: World, st: State, n: nat)
    requires n <= |st.log| == |st.firsts|
  {
    n > 0 && (PayableBefore(c, w, st, n - 1) || Payable(c, w, st, n - 1))
  }

  lemma {:induction false} PayableBeforeExactly(c: Config, w: World, st: State, n: nat)
    requires n <= |st.log| == |st.firsts|
    ensures PayableBefore(c, w, st, n) <==> exists i :: 0 <= i < n && Payable(c, w, st, i)
  {
    if n > 0 {
      PayableBeforeExactly(c, w, st, n - 1);
    }
  }

  /** Send `i` is the first that is payable. */
  predicate FirstPayable(c: Config, w: World, st: State, i: nat)
    requires i < |st.log| == |st.firsts|
  {
    Payable(c, w, st, i) && !PayableBefore(c, w, st, i)
  }

  /** The fetch after all that came of send `i`: one more when that was paid for. */
  function Next(c: Config, w: World, st: State, i: nat): nat
    requires i < |st.log| == |st.firsts|
  {
    SendEnd(c, w, st.firsts[i]) + if FirstPayable(c, w, st, i) then 1 else 0
  }

  /** The next fetch after `n` sends. */
  function Upcoming(c: Config, w: World, st: State, n: nat): nat
    requires n <= |st.log| == |st.firsts|
  {
    if n == 0 then 0 else Next(c, w, st, n - 1)
  }

  /** Send `i` was heard, followed what came before it without a gap, and was paid for if it was the first that
      could be. */
  predicate InPlace(c: Config, w: World, st: State, i: nat)
    requires i < |st.log| == |st.firsts|
  {
    && Heard(c, w, st, i) && st.firsts[i] == Upcoming(c, w, st, i)
    && (FirstPayable(c, w, st, i) ==> st.paidAt == Some(SendEnd(c, w, st.firsts[i])))
  }

  /** Every fetch of a run has its place, in a send or as the one credits retry. */
  ghost predicate Placed(c: Config, w: World, st: State) {
    && |st.log| == |st.firsts| == st.sends
    && (forall i :: 0 <= i < |st.log| ==> InPlace(c, w, st, i))
    && st.fetches == Upcoming(c, w, st, |st.log|)
    && (st.creditsAttempted <==> st.paidAt.Some?) && st.creditsRetries == (if st.paidAt.Some? then 1 else 0)
    && (st.paidAt.Some? <==> PayableBefore(c, w, st, |st.log|))
  }

  /** `r` is `st` with one more send. */
  ghost predicate OneMore(st: State, r: State, u: nat, reply: Reply) {
    && |st.log| == |st.firsts| && r.log == st.log + [(u, reply)] && r.firsts == st.firsts + [st.fetches]
  }

  lemma {:induction false} PayableKept(c: Config, w: World, st: State, r: State, u: nat, reply: Reply, n: nat)
    requires OneMore(st, r, u, reply) && n <= |st.log|
    ensures PayableBefore(c, w, r, n) == PayableBefore(c, w, st, n)
    ensures Upcoming(c, w, r, n) == Upcoming(c, w, st, n)
    ensures n < |st.log| ==> Payable(c, w, r, n) == Payable(c, w, st, n)
  {
    if n > 0 {
      PayableKept(c, w, st, r, u, reply, n - 1);
    }
    if n < |st.log| {
      assert r.log[n] == st.log[n] && r.firsts[n] == st.firsts[n];
    }
  }

  lemma PlaceKept(c: Config, w: World, st: State, r: State, u: nat, reply: Reply, i: nat)
    requires OneMore(st, r, u, reply) && i < |st.log| && InPlace(c, w, st, i)
    requires r.paidAt == st.paidAt || !PayableBefore(c, w, st, |st.log|)
    ensures InPlace(c, w, r, i)
  {
    PayableKept(c, w, st, r, u, reply, i);
    assert r.log[i] == st.log[i] && r.firsts[i] == st.firsts[i];
    if FirstPayable(c, w, st, i) {
      PayableGrows(c, w, st, i + 1, |st.log|);
    }
  }

  lemma {:induction false} PayableGrows(c: Config, w: World, st: State, m: nat, n: nat)
    requires m <= n <= |st.log| == |st.firsts| && PayableBefore(c, w, st, m)
    ensures PayableBefore(c, w, st, n)
  {
    if m < n {
      PayableGrows(c, w, st, m, n - 1);
    }
  }

  /** What one more send does. */
  ghost predicate Sent(c: Config, w: World, st: State, r: State, u: nat, reply: Reply) {
    var f, n := st.fetches, |st.log|;
    && OneMore(st, r, u, reply) && r.sends == st.sends + 1
    && reply == (if Doubled(c, w, f) then w.net(f + 1) else w.net(f))
    && if Payable(c, w, r, n) && !st.creditsAttempted
       then r.fetches == SendEnd(c, w, f) + 1 && r.paidAt == Some(SendEnd(c, w, f)) && r.creditsAttempted
            && r.creditsRetries == st.creditsRetries + 1
       else r.fetches == SendEnd(c, w, f) && r.paidAt == st.paidAt && r.creditsAttempted == st.creditsAttempted
            && r.creditsRetries == st.creditsRetries
  }

  lemma IterateSends(c: Config, w: World, u: nat, tries: nat, st: State)
    requires w.prepare(|st.log|).Ready? && |st.log| == |st.firsts|
    ensures Sent(c, w, st, Iterate(c, w, u, tries, st).1, u, Send(c, w, st).1)
  {
  }

  lemma PlacedNext(c: Config, w: World, st: State, r: State, u: nat, reply: Reply)
    requires Placed(c, w, st) && Sent(c, w, st, r, u, reply)
    ensures Placed(c, w, r)
  {
    var n := |st.log|;
    assert r.log[n] == (u, reply) && r.firsts[n] == st.fetches;
    PayableKept(c, w, st, r, u, reply, n);
    forall i | 0 <= i < |r.log| ensures InPlace(c, w, r, i) {
      if i < n {
        PlaceKept(c, w, st, r, u, reply, i);
      }
    }
  }

  lemma IteratePlaced(c: Config, w: World, u: nat, tries: nat, st: State)
    requires Placed(c, w, st)
    ensures Placed(c, w, Iterate(c, w, u, tries, st).1)
  {
    if w.prepare(|st.log|).Ready? {
      IterateSends(c, w, u, tries, st);
      PlacedNext(c, w, st, Iterate(c, w, u, tries, st).1, u, Send(c, w, st).1);
    }
  }

  /** On every run each reply in the log is the answer to its send's first fetch, or to its second exactly when
      the request has the project header and the first answer is a 403; the credits retry is made exactly once a
      send is payable, right after it; and there are no other fetches. */
  lemma {:induction false} RepliesAreAnswers(c: Config, w: World, u: nat, tries: nat, st: State)
    requires u < c.urls && tries <= MAX_AUTO_RETRIES && Placed(c, w, st)
    ensures Placed(c, w, Run(c, w, u, tries, st).1)
    decreases c.urls - u, MAX_AUTO_RETRIES - tries
  {
    var (v, after) := Iterate(c, w, u, tries, st);
    IteratePlaced(c, w, u, tries, st);
    RunStep(c, w, u, tries, st);
    match v
    case Finish(_) =>
    case SameUrl(_) => RepliesAreAnswers(c, w, u, tries + 1, after);
    case NextUrl => RepliesAreAnswers(c, w, u + 1, 0, after);
  }

  /** Sends among the first `n` that were made twice. */
  function Doubles(c: Config, w: World, st: State, n: nat): nat
    requires n <= |st.log| == |st.firsts|
  {
    if n == 0 then 0 else Doubles(c, w, st, n - 1) + if Doubled(c, w, st.firsts[n - 1]) then 1 else 0
  }

  lemma {:induction false} UpcomingCounts(c: Config, w: World, st: State, n: nat)
    requires Placed(c, w, st) && n <= |st.log|
    ensures Upcoming(c, w, st, n)
         == n + Doubles(c, w, st, n) + if PayableBefore(c, w, st, n) then 1 else 0
  {
    if n > 0 {
      UpcomingCounts(c, w, st, n - 1);
      assert InPlace(c, w, st, n - 1);
    }
  }

  /** The fetches of a run are one for each send, one more for each send that was refused with its project
      header, and the credits retry. */
  lemma FetchesAccounted(c: Config, w: World)
    requires c.urls >= 1
    ensures var st := Run(c, w, 0, 0, START).1;
      && |st.log| == |st.firsts| == st.sends
      && st.fetches == st.sends + Doubles(c, w, st, st.sends) + st.creditsRetries
      && st.creditsRetries == if exists i :: 0 <= i < |st.log| && Payable(c, w, st, i) then 1 else 0
  {
    RepliesAreAnswers(c, w, 0, 0, START);
    PayableBeforeExactly(c, w, Run(c, w, 0, 0, START).1, |Run(c, w, 0, 0, START).1.log|);
    UpcomingCounts(c, w, Run(c, w, 0, 0, START).1, |Run(c, w, 0, 0, START).1.log|);
  }

  // ---------------------------------------------------------------- what comes back

  /** The caller gave up while the request or its error text was on the way. */
  predicate Fatal(r: Reply) {
    r == Threw(true) || (r.Limited() && r.retryAfter.None? && r.text == Unreadable(true))
  }

  /** What the credits retry brought lets the run go on as if it had not been made. */
  predicate Unpaid(w: World, st: State) {
    st.paidAt.Some? ==> var paid := w.net(st.paidAt.value); paid == Threw(false) || (paid.Reply? && paid.status == 429)
  }

  ghost predicate Open(w: World, st: State) {
    Unpaid(w, st) && forall i :: 0 <= i < |st.log| ==> !Fatal(st.log[i].1)
  }

  /** What a result says of the last reply and of the credits retry. */
  ghost predicate Settled(w: World, result: Result, st: State) {
    var n := |st.log| - 1;
    match result
    case Returned(status, u, _) => Open(w, st) && n >= 0 && st.log[n].0 == u && st.log[n].1.Reply?
      && st.log[n].1.status == status
    case Raised(u) => Open(w, st) && n >= 0 && st.log[n] == (u, Threw(false))
    case PaidByCredits(status, u) => n >= 0 && st.log[n].0 == u && st.fetches > 0 && st.paidAt == Some(st.fetches - 1)
      && w.net(st.fetches - 1).Reply? && w.net(st.fetches - 1).status == status != 429
    case Aborted(u) => n >= 0 && st.log[n].0 == u
      && if Fatal(st.log[n].1) then Unpaid(w, st)
         else st.fetches > 0 && st.paidAt == Some(st.fetches - 1) && w.net(st.fetches - 1) == Threw(true)
    case Refused(_) => Open(w, st) && w.prepare(|st.log|).Rejected?
    case BuilderRaised(_) => Open(w, st) && w.prepare(|st.log|).PrepareThrew?
  }

  lemma IterateSettles(c: Config, w: World, u: nat, tries: nat, st: State)
    requires Open(w, st)
    ensures var (v, r) := Iterate(c, w, u, tries, st);
      if v.Finish? then Settled(w, v.result, r) else Open(w, r)
  {
    if w.prepare(|st.log|).Ready? {
      var r := Iterate(c, w, u, tries, st).1;
      assert forall i :: 0 <= i < |st.log| ==> r.log[i] == st.log[i];
    }
  }

  lemma {:induction false} RunSettles(c: Config, w: World, u: nat, tries: nat, st: State)
    requires u < c.urls && tries <= MAX_AUTO_RETRIES && Open(w, st)
    ensures Settled(w, Run(c, w, u, tries, st).0, Run(c, w, u, tries, st).1)
    decreases c.urls - u, MAX_AUTO_RETRIES - tries
  {
    var (v, after) := Iterate(c, w, u, tries, st);
    IterateSettles(c, w, u, tries, st);
    RunStep(c, w, u, tries, st);
    match v
    case Finish(_) =>
    case SameUrl(_) => RunSettles(c, w, u, tries + 1, after);
    case NextUrl => RunSettles(c, w, u + 1, 0, after);
  }

  /** Every run returns the reply it heard last, unless the credits retry was answered by anything but a 429 or a
      passing error: then it returns that answer, or is aborted. */
  lemma LastAnswerWins(c: Config, w: World)
    requires c.urls >= 1
    ensures var (result, st) := Run(c, w, 0, 0, START); Settled(w, result, st)
  {
    RunSettles(c, w, 0, 0, START);
  }

  /** A 403 to a request with the project header: what the second send gets is what comes back. */
  lemma SecondSendExample(w: World)
    requires w.prepare(0).Ready?
    requires w.net(0) == Reply(403, None, NotJson(false)) && w.net(1) == Reply(200, None, NotJson(false))
    ensures Run(Config(1, true, false), w, 0, 0, START).0 == Returned(200, 0, None)
  {
    assert Send(Config(1, true, false), w, START).1 == w.net(1);
  }

  // ---------------------------------------------------------------- how long each retry waits

  /** The wait before a URL is tried again after `k` retries of it, on reply `r`: what the headers ask for, else
      what the text names, else by the category of the text, else two, four and eight seconds. */
  function Pause(r: Reply, k: nat): nat {
    match r
    case Reply(_, Some(ms), _) => ms
    case Reply(_, None, Classified(_, Some(ms), _, _)) => ms
    case Reply(_, None, Classified(SoftRateLimit, None, _, _)) => 2000
    case Reply(_, None, Classified(Unknown, None, _, _)) => 5000
    case Reply(_, None, Classified(RateLimited, None, _, _)) => 60000
    case Reply(_, None, Classified(QuotaExhausted, None, _, _)) => 86400000
    case Reply(_, None, _) => if k == 0 then 2000 else if k == 1 then 4000 else 8000
    case Threw(_) => 0
  }

  lemma PauseExactly(c: Config, w: World, u: nat, tries: nat, st: State)
    ensures var (v, r) := Iterate(c, w, u, tries, st);
      v.SameUrl? ==> v.waitMs == Pause(Send(c, w, st).1, tries) <= 60000
  {
    assert Power2(1) == 2 && Power2(2) == 4 && Power2(3) == 8;
  }

  /** The waits on URL `v` are the pauses after its first tries. */
  ghost predicate Paused(st: State, v: nat) {
    var ts, ms := Tries(st.log, v), Tries(st.waits, v);
    |ms| <= |ts| <= |ms| + 1 && forall k :: 0 <= k < |ms| ==> ts[k].Limited() && ms[k] == Pause(ts[k], k)
  }

  /** Before try `tries` of URL `u`: every try of it has been waited for, and all but the last of earlier URLs. */
  ghost predicate InStep(st: State, u: nat, tries: nat) {
    && (forall v: nat :: Paused(st, v))
    && |Tries(st.log, u)| == |Tries(st.waits, u)| == tries
    && (forall v: nat :: v < u ==> |Tries(st.log, v)| == |Tries(st.waits, v)| + 1)
    && (forall v: nat :: v > u ==> Tries(st.log, v) == [] && Tries(st.waits, v) == [])
  }

  lemma PausedNext(st: State, r: State, u: nat, tries: nat, reply: Reply, pause: Option<nat>, v: nat)
    requires InStep(st, u, tries) && r.log == st.log + [(u, reply)]
    requires r.waits == if pause.Some? then st.waits + [(u, pause.value)] else st.waits
    requires pause.Some? ==> reply.Limited() && pause.value == Pause(reply, tries)
    ensures Paused(r, v)
    ensures v != u ==> Tries(r.log, v) == Tries(st.log, v) && Tries(r.waits, v) == Tries(st.waits, v)
    ensures v == u ==> |Tries(r.log, v)| == tries + 1 && |Tries(r.waits, v)| == tries + if pause.Some? then 1 else 0
  {
    assert Paused(st, v);
    TriesSnoc(st.log, u, reply, v);
    if pause.Some? {
      TriesSnoc(st.waits, u, pause.value, v);
    }
  }

  /** When a run is over: every URL it tried was waited for after each of its tries but the last, unless the
      builder ended the run after a wait. */
  ghost predicate PausedInAll(result: Result, st: State) {
    forall v: nat :: Paused(st, v)
      && (|Tries(st.log, v)| == |Tries(st.waits, v)| <==>
            Tries(st.log, v) == [] || (v == result.url && (result.Refused? || result.BuilderRaised?)))
  }

  /** Everything but the tries of `u` is as it was, and those have one more reply and maybe one more wait. */
  lemma PausedAfter(st: State, r: State, u: nat, tries: nat, reply: Reply, pause: Option<nat>)
    requires InStep(st, u, tries) && r.log == st.log + [(u, reply)]
    requires r.waits == if pause.Some? then st.waits + [(u, pause.value)] else st.waits
    requires pause.Some? ==> reply.Limited() && pause.value == Pause(reply, tries)
    ensures forall v: nat :: Paused(r, v)
    ensures forall v: nat :: v != u ==>
      |Tries(r.log, v)| == |Tries(st.log, v)| && |Tries(r.waits, v)| == |Tries(st.waits, v)|
    ensures |Tries(r.log, u)| == tries + 1 && |Tries(r.waits, u)| == tries + if pause.Some? then 1 else 0
  {
    PausedNext(st, r, u, tries, reply, pause, u);
    forall v: nat
      ensures Paused(r, v)
      ensures v != u ==> |Tries(r.log, v)| == |Tries(st.log, v)| && |Tries(r.waits, v)| == |Tries(st.waits, v)|
    {
      PausedNext(st, r, u, tries, reply, pause, v);
    }
  }

  lemma PausedAgain(st: State, r: State, u: nat, tries: nat, reply: Reply, ms: nat)
    requires InStep(st, u, tries) && r.log == st.log + [(u, reply)] && r.waits == st.waits + [(u, ms)]
    requires reply.Limited() && ms == Pause(reply, tries)
    ensures InStep(r, u, tries + 1)
  {
    PausedAfter(st, r, u, tries, reply, Some(ms));
  }

  lemma PausedNoMore(st: State, r: State, u: nat, tries: nat, reply: Reply, result: Result)
    requires InStep(st, u, tries) && r.log == st.log + [(u, reply)] && r.waits == st.waits
    requires !result.Refused? && !result.BuilderRaised?
    ensures InStep(r, u + 1, 0) && PausedInAll(result, r)
  {
    PausedAfter(st, r, u, tries, reply, None);
  }

  lemma PausedAtBuilder(st: State, u: nat, tries: nat, result: Result)
    requires InStep(st, u, tries) && result.url == u && (result.Refused? || result.BuilderRaised?)
    ensures PausedInAll(result, st)
  {
  }

  lemma IteratePauses(c: Config, w: World, u: nat, tries: nat, st: State)
    requires InStep(st, u, tries)
    ensures var (v, r) := Iterate(c, w, u, tries, st);
      match v
      case Finish(result) => PausedInAll(result, r)
      case SameUrl(_) => InStep(r, u, tries + 1)
      case NextUrl => InStep(r, u + 1, 0)
  {
    var (v, r) := Iterate(c, w, u, tries, st);
    if w.prepare(|st.log|).Ready? {
      var reply := Send(c, w, st).1;
      if v.SameUrl? {
        PauseExactly(c, w, u, tries, st);
        PausedAgain(st, r, u, tries, reply, v.waitMs);
      } else {
        PausedNoMore(st, r, u, tries, reply, if v.Finish? then v.result else Raised(u));
      }
    } else {
      PausedAtBuilder(st, u, tries, v.result);
    }
  }

  lemma {:induction false} RunPauses(c: Config, w: World, u: nat, tries: nat, st: State)
    requires u < c.urls && tries <= MAX_AUTO_RETRIES && InStep(st, u, tries)
    ensures PausedInAll(Run(c, w, u, tries, st).0, Run(c, w, u, tries, st).1)
    decreases c.urls - u, MAX_AUTO_RETRIES - tries
  {
    var (v, after) := Iterate(c, w, u, tries, st);
    IteratePauses(c, w, u, tries, st);
    RunStep(c, w, u, tries, st);
    match v
    case Finish(_) =>
    case SameUrl(_) => RunPauses(c, w, u, tries + 1, after);
    case NextUrl => RunPauses(c, w, u + 1, 0, after);
  }

  /** Every run waits between two tries of a URL, for as long as the reply to the first of them says, and at no
      other time but before a builder that ends it. */
  lemma WaitsExactly(c: Config, w: World)
    requires c.urls >= 1
    ensures var (result, st) := Run(c, w, 0, 0, START); PausedInAll(result, st)
  {
    RunPauses(c, w, 0, 0, START);
  }

}
