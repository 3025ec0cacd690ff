/**
 * Any number of concurrent logins against the limiter (internal/usecase/auth/login.go), statement by
 * statement, with the clock and the clean-up job interleaved in any way.
 */
module LoginProtocol {

  import opened LoginLimiter

  /**
   * A login after Check: admitted or not (a locked-out login still records a failure), and whether it
   * has succeeded and has only the reset left to do.
   */
  datatype Flight = Flight(email: string, remoteIp: string, admitted: bool, succeeded: bool)

  datatype State = State(
    config: Config, retention: int, now: int, attempts: seq<Attempt>,
    flights: map<int, Flight>, verdicts: seq<Verdict>)

  datatype Event =
    | Begin(client: int, email: string, remoteIp: string)
    | Fail(client: int)
    | Succeed(client: int, recorded: bool)
    | Reset(client: int)
    | GiveUp(client: int)
    | Tick(elapsed: nat)
    | CleanUp

  function Land(s: State, client: int): State {
    s.(flights := s.flights - {client})
  }

  function Step(s: State, event: Event): State {
    match event
    case Begin(client, email, remoteIp) =>
      if client in s.flights then s
      else
        var verdict := CheckOf(s.config, s.attempts, email, remoteIp, s.now);
        s.(flights := s.flights[client := Flight(email, remoteIp, verdict.Admitted?, false)], verdicts := s.verdicts + [verdict])
    case Fail(client) =>
      if client !in s.flights || s.flights[client].succeeded then s
      else
        var f := s.flights[client];
        Land(s, client).(attempts := s.attempts + [Attempt(f.email, f.remoteIp, false, s.now, f.admitted)])
    case Succeed(client, recorded) =>
      // The login goes on to the reset whether or not its success could be recorded.
      if client !in s.flights || s.flights[client].succeeded || !s.flights[client].admitted then s
      else
        var f := s.flights[client];
        s.(attempts := if recorded then s.attempts + [Attempt(f.email, f.remoteIp, true, s.now, f.admitted)] else s.attempts,
           flights := s.flights[client := f.(succeeded := true)])
    case Reset(client) =>
      if client !in s.flights || !s.flights[client].succeeded then s
      else Land(s, client).(attempts := ResetOf(s.attempts, s.flights[client].email))
    case GiveUp(client) => Land(s, client)
    case Tick(elapsed) => s.(now := s.now + elapsed)
    case CleanUp => s.(attempts := Recent(s.attempts, s.now - s.retention))
  }

  function Run(s: State, events: seq<Event>): State {
    if events == [] then s else Step(Run(s, events[..|events| - 1]), events[|events| - 1])
  }

  predicate Fresh(s: State) {
    s.attempts == [] && s.flights == map[] && s.verdicts == []
  }

  // ---------- What a lock-out keeps out ----------

  ghost predicate OnlyAdmittedSucceed(s: State) {
    && (forall a :: a in s.attempts && a.success ==> a.admitted)
    && (forall c :: c in s.flights && s.flights[c].succeeded ==> s.flights[c].admitted)
  }

  /** In no run does a login succeed, or reset anything, that Check has locked out. */
  lemma {:induction false} LockedOutLoginsNeverSucceed(s0: State, events: seq<Event>)
    requires Fresh(s0)
    ensures OnlyAdmittedSucceed(Run(s0, events))
  {
    if events == [] {
    } else {
      LockedOutLoginsNeverSucceed(s0, events[..|events| - 1]);
      AdmittedStep(Run(s0, events[..|events| - 1]), events[|events| - 1]);
    }
  }

  lemma AdmittedStep(s: State, event: Event)
    requires OnlyAdmittedSucceed(s)
    ensures OnlyAdmittedSucceed(Step(s, event))
  {
    match event
    case Reset(client) =>
      if client in s.flights {
        PartsAreAdmitted(s.attempts, s.flights[client].email, 0);
      }
    case CleanUp => PartsAreAdmitted(s.attempts, "", s.now - s.retention);
    case _ =>
  }

  lemma {:induction false} PartsAreAdmitted(attempts: seq<Attempt>, email: string, cutoff: int)
    requires forall a :: a in attempts && a.success ==> a.admitted
    ensures forall a :: a in ResetOf(attempts, email) && a.success ==> a.admitted
    ensures forall a :: a in Recent(attempts, cutoff) && a.success ==> a.admitted
  {
    if attempts == [] {
    } else {
      var init, last := attempts[..|attempts| - 1], attempts[|attempts| - 1];
      assert attempts == init + [last];
      PartsAreAdmitted(init, email, cutoff);
    }
  }

  /** A row only ever goes when it has outlived the retention, or, a failure, when a login of its e-mail that has succeeded resets it. */
  lemma OnlyASuccessForgives(s: State, event: Event, a: Attempt)
    requires multiset(Step(s, event).attempts)[a] < multiset(s.attempts)[a]
    ensures (event.CleanUp? && a.at < s.now - s.retention)
      || (event.Reset? && event.client in s.flights && s.flights[event.client].succeeded && s.flights[event.client].email == a.email && !a.success)
  {
    match event
    case Reset(client) =>
      if client in s.flights {
        ResetIsExact(s.attempts, s.flights[client].email);
      }
    case CleanUp => RecentIsExact(s.attempts, s.now - s.retention);
    case _ =>
  }

  // ---------- The clean-up job is invisible ----------

  predicate CoversWindows(s: State) {
    s.retention >= s.config.emailWindow && s.retention >= s.config.ipWindow && s.retention > 0
  }

  function WithoutCleanUp(events: seq<Event>): seq<Event> {
    if events == [] then []
    else
      var last := events[|events| - 1];
      WithoutCleanUp(events[..|events| - 1]) + if last.CleanUp? then [] else [last]
  }

  /** The same but for rows the job has deleted, all older than the retention. */
  predicate Trimmed(full: State, trimmed: State, cutoff: int) {
    && trimmed == full.(attempts := Recent(full.attempts, cutoff))
    && cutoff <= full.now - full.retention
  }

  lemma TrimmedBegin(full: State, trimmed: State, cutoff: int, event: Event)
    requires Trimmed(full, trimmed, cutoff) && CoversWindows(full) && event.Begin?
    ensures Trimmed(Step(full, event), Step(trimmed, event), cutoff)
  {
    RecentCountsTheSame(full.attempts, cutoff, ByEmail(event.email), full.now - full.config.emailWindow, full.now);
    RecentCountsTheSame(full.attempts, cutoff, ByIp(event.remoteIp), full.now - full.config.ipWindow, full.now);
    assert CheckOf(full.config, trimmed.attempts, event.email, event.remoteIp, full.now)
        == CheckOf(full.config, full.attempts, event.email, event.remoteIp, full.now);
  }

  lemma TrimmedFail(full: State, trimmed: State, cutoff: int, client: int)
    requires Trimmed(full, trimmed, cutoff) && CoversWindows(full)
    ensures Trimmed(Step(full, Fail(client)), Step(trimmed, Fail(client)), cutoff)
  {
    if client in full.flights {
      var f := full.flights[client];
      RecentAppend(full.attempts, Attempt(f.email, f.remoteIp, false, full.now, f.admitted), cutoff);
    }
  }

  lemma TrimmedSucceed(full: State, trimmed: State, cutoff: int, client: int, recorded: bool)
    requires Trimmed(full, trimmed, cutoff) && CoversWindows(full)
    ensures Trimmed(Step(full, Succeed(client, recorded)), Step(trimmed, Succeed(client, recorded)), cutoff)
  {
    if client in full.flights {
      var f := full.flights[client];
      RecentAppend(full.attempts, Attempt(f.email, f.remoteIp, true, full.now, f.admitted), cutoff);
    }
  }

  lemma TrimmedStep(full: State, trimmed: State, cutoff: int, event: Event)
    requires Trimmed(full, trimmed, cutoff) && CoversWindows(full) && !event.CleanUp?
    ensures Trimmed(Step(full, event), Step(trimmed, event), cutoff)
  {
    match event
    case Begin(_, _, _) => TrimmedBegin(full, trimmed, cutoff, event);
    case Fail(client) => TrimmedFail(full, trimmed, cutoff, client);
    case Succeed(client, recorded) => TrimmedSucceed(full, trimmed, cutoff, client, recorded);
    case Reset(client) =>
      if client in full.flights {
        RecentResetCommute(full.attempts, cutoff, full.flights[client].email);
      }
    case _ =>
  }

  lemma RecentAppend(attempts: seq<Attempt>, attempt: Attempt, cutoff: int)
    ensures Recent(attempts + [attempt], cutoff) == Recent(attempts, cutoff) + if attempt.at < cutoff then [] else [attempt]
  {
    assert (attempts + [attempt])[..|attempts|] == attempts;
  }

  lemma CleanUpKeepsTrimmed(full: State, trimmed: State, cutoff: int)
    requires Trimmed(full, trimmed, cutoff)
    ensures Trimmed(full, Step(trimmed, CleanUp), full.now - full.retention)
  {
    RecentTwice(full.attempts, cutoff, full.now - full.retention);
  }

  lemma SettingsAreConstant(s: State, event: Event)
    ensures Step(s, event).config == s.config && Step(s, event).retention == s.retention
  {}

  lemma {:induction false} RunsStayTrimmed(s0: State, events: seq<Event>) returns (cutoff: int)
    requires Fresh(s0) && CoversWindows(s0)
    ensures Trimmed(Run(s0, WithoutCleanUp(events)), Run(s0, events), cutoff)
    ensures CoversWindows(Run(s0, WithoutCleanUp(events)))
  {
    if events == [] {
      cutoff := s0.now - s0.retention;
    } else {
      var init, event := events[..|events| - 1], events[|events| - 1];
      var before := RunsStayTrimmed(s0, init);
      var kept := WithoutCleanUp(init);
      var full, trimmed := Run(s0, kept), Run(s0, init);
      if event.CleanUp? {
        CleanUpKeepsTrimmed(full, trimmed, before);
        assert kept + [] == kept;
        cutoff := full.now - full.retention;
      } else {
        TrimmedStep(full, trimmed, before, event);
        SettingsAreConstant(full, event);
        assert (kept + [event])[..|kept|] == kept;
        cutoff := before;
      }
    }
  }

  /**
   * Clean-up transparency: with a retention that covers both windows, any run gives every Check the
   * same verdict, RetryAfter included, as the same run without the clean-up job.
   */
  lemma CleanUpIsInvisible(s0: State, events: seq<Event>)
    requires Fresh(s0) && CoversWindows(s0)
    ensures Run(s0, events).verdicts == Run(s0, WithoutCleanUp(events)).verdicts
    ensures Run(s0, events).flights == Run(s0, WithoutCleanUp(events)).flights
  {
    var cutoff := RunsStayTrimmed(s0, events);
  }

  // ---------- How far the count can overshoot ----------

  /** Logins Check has let through for an e-mail and whose outcome is not recorded yet. */
  function InFlight(s: State, email: string): set<int> {
    set client | client in s.flights && s.flights[client].email == email && s.flights[client].admitted && !s.flights[client].succeeded
  }

  /** Counted failures of logins that Check had let through. */
  function AdmittedFailures(attempts: seq<Attempt>, email: string, since: int): nat {
    if attempts == [] then 0
    else
      var last := attempts[|attempts| - 1];
      AdmittedFailures(attempts[..|attempts| - 1], email, since)
      + if Counts(last, ByEmail(email), since) && last.admitted then 1 else 0
  }

  lemma {:induction false} AdmittedAreFewer(attempts: seq<Attempt>, email: string, since: int, later: int, cutoff: int, other: string)
    requires since <= later
    ensures AdmittedFailures(attempts, email, since) <= Failures(attempts, ByEmail(email), since)
    ensures AdmittedFailures(attempts, email, later) <= AdmittedFailures(attempts, email, since)
    ensures AdmittedFailures(Recent(attempts, cutoff), email, since) <= AdmittedFailures(attempts, email, since)
    ensures AdmittedFailures(ResetOf(attempts, other), email, since) <= AdmittedFailures(attempts, email, since)
  {
    if attempts == [] {
    } else {
      var init, last := attempts[..|attempts| - 1], attempts[|attempts| - 1];
      AdmittedAreFewer(init, email, since, later, cutoff, other);
      var recent, reset := Recent(init, cutoff), ResetOf(init, other);
      assert (recent + [last])[..|recent|] == recent && (reset + [last])[..|reset|] == reset;
      assert recent + [] == recent && reset + [] == reset;
    }
  }

  /** Recorded and still possible failures of admitted logins. */
  function Exposure(s: State, email: string): nat {
    AdmittedFailures(s.attempts, email, s.now - s.config.emailWindow) + |InFlight(s, email)|
  }

  lemma LandingFreesOne(s: State, client: int, email: string)
    requires client in s.flights
    ensures var counted := client in InFlight(s, email);
      |InFlight(Land(s, client), email)| == |InFlight(s, email)| - if counted then 1 else 0
  {
    assert InFlight(Land(s, client), email) == InFlight(s, email) - {client};
  }

  lemma ExposureOfBegin(s: State, client: int, other: string, remoteIp: string, email: string)
    ensures var after := Step(s, Begin(client, other, remoteIp));
      || Exposure(after, email) <= Exposure(s, email)
      || Exposure(after, email) <= s.config.emailMaxFailures - 1 + |InFlight(after, email)|
  {
    if client !in s.flights {
      var after := Step(s, Begin(client, other, remoteIp));
      var since := s.now - s.config.emailWindow;
      AdmittedAreFewer(s.attempts, email, since, since, 0, "");
      if !(other == email && after.flights[client].admitted) {
        assert InFlight(after, email) == InFlight(s, email);
      }
    }
  }

  /** A failure takes a login out of flight and adds at most the failure it stood for. */
  lemma ExposureOfFail(s: State, client: int, email: string)
    ensures Exposure(Step(s, Fail(client)), email) <= Exposure(s, email)
  {
    if client in s.flights {
      var f, since := s.flights[client], s.now - s.config.emailWindow;
      LandingFreesOne(s, client, email);
      AppendAdmitted(s.attempts, Attempt(f.email, f.remoteIp, false, s.now, f.admitted), email, since);
    }
  }

  /** A success, recorded or not, takes a login out of flight and adds no failure. */
  lemma ExposureOfSuccess(s: State, client: int, recorded: bool, email: string)
    ensures Exposure(Step(s, Succeed(client, recorded)), email) <= Exposure(s, email)
  {
    if client in s.flights {
      var f, since := s.flights[client], s.now - s.config.emailWindow;
      AppendAdmitted(s.attempts, Attempt(f.email, f.remoteIp, true, s.now, f.admitted), email, since);
      FewerInFlight(s, Step(s, Succeed(client, recorded)), email);
    }
  }

  lemma ExposureOfReset(s: State, client: int, email: string)
    ensures Exposure(Step(s, Reset(client)), email) <= Exposure(s, email)
  {
    FewerInFlight(s, Step(s, Reset(client)), email);
    if client in s.flights {
      var since := s.now - s.config.emailWindow;
      AdmittedAreFewer(s.attempts, email, since, since, 0, s.flights[client].email);
    }
  }

  lemma ExposureOfRest(s: State, event: Event, email: string)
    requires event.GiveUp? || event.Tick? || event.CleanUp?
    ensures Exposure(Step(s, event), email) <= Exposure(s, email)
  {
    var since := s.now - s.config.emailWindow;
    FewerInFlight(s, Step(s, event), email);
    if event.Tick? {
      AdmittedAreFewer(s.attempts, email, since, since + event.elapsed, 0, "");
    } else {
      AdmittedAreFewer(s.attempts, email, since, since, s.now - s.retention, "");
    }
  }

  /** Only a login that Check lets through while the count is below the threshold can raise the exposure. */
  lemma ExposureStep(s: State, event: Event, email: string)
    ensures var after := Step(s, event);
      || Exposure(after, email) <= Exposure(s, email)
      || Exposure(after, email) <= s.config.emailMaxFailures - 1 + |InFlight(after, email)|
  {
    match event
    case Begin(client, other, remoteIp) => ExposureOfBegin(s, client, other, remoteIp, email);
    case Fail(client) => ExposureOfFail(s, client, email);
    case Succeed(client, recorded) => ExposureOfSuccess(s, client, recorded, email);
    case Reset(client) => ExposureOfReset(s, client, email);
    case _ => ExposureOfRest(s, event, email);
  }

  lemma AppendAdmitted(attempts: seq<Attempt>, attempt: Attempt, email: string, since: int)
    ensures AdmittedFailures(attempts + [attempt], email, since)
      == AdmittedFailures(attempts, email, since) + if Counts(attempt, ByEmail(email), since) && attempt.admitted then 1 else 0
  {
    assert (attempts + [attempt])[..|attempts|] == attempts;
  }

  lemma FewerInFlight(before: State, after: State, email: string)
    requires InFlight(after, email) <= InFlight(before, email)
    ensures |InFlight(after, email)| <= |InFlight(before, email)|
  {
    assert |InFlight(before, email)| == |InFlight(after, email)| + |InFlight(before, email) - InFlight(after, email)| by {
      assert InFlight(before, email) == InFlight(after, email) + (InFlight(before, email) - InFlight(after, email));
    }
  }

  /** At every moment of the run at most c admitted logins for the e-mail are between Check and Record. */
  ghost predicate AtMostInFlight(s0: State, events: seq<Event>, email: string, c: nat) {
    forall n :: 0 <= n <= |events| ==> |InFlight(Run(s0, events[..n]), email)| <= c
  }

  /**
   * Overshoot bound: with at most c logins between Check and Record, the counted failures of logins
   * that Check let through never exceed emailMaxFailures - 1 + c.
   */
  lemma OvershootBound(s0: State, events: seq<Event>, email: string, c: nat)
    requires Fresh(s0) && s0.config.emailMaxFailures >= 1 && AtMostInFlight(s0, events, email, c)
    ensures var s := Run(s0, events);
      AdmittedFailures(s.attempts, email, s.now - s0.config.emailWindow) <= s0.config.emailMaxFailures - 1 + c
  {
    ExposureIsBounded(s0, events, email, c);
  }

  lemma {:induction false} ExposureIsBounded(s0: State, events: seq<Event>, email: string, c: nat)
    requires Fresh(s0) && s0.config.emailMaxFailures >= 1 && AtMostInFlight(s0, events, email, c)
    ensures Exposure(Run(s0, events), email) <= s0.config.emailMaxFailures - 1 + c
    ensures Run(s0, events).config == s0.config
  {
    if events == [] {
      assert InFlight(s0, email) == {};
    } else {
      var init := events[..|events| - 1];
      assert forall n :: 0 <= n <= |init| ==> init[..n] == events[..n];
      ExposureIsBounded(s0, init, email, c);
      ExposureStep(Run(s0, init), events[|events| - 1], email);
      assert events[..|events|] == events;
      assert |InFlight(Run(s0, events[..|events|]), email)| <= c;
    }
  }

  // ---------- The count that Check reads ----------

  /** Counted failures of logins that Check had locked out. */
  function LockedOutFailures(attempts: seq<Attempt>, email: string, since: int): nat {
    if attempts == [] then 0
    else
      var last := attempts[|attempts| - 1];
      LockedOutFailures(attempts[..|attempts| - 1], email, since)
      + if Counts(last, ByEmail(email), since) && !last.admitted then 1 else 0
  }

  lemma {:induction false} FailuresSplit(attempts: seq<Attempt>, email: string, since: int)
    ensures Failures(attempts, ByEmail(email), since)
      == AdmittedFailures(attempts, email, since) + LockedOutFailures(attempts, email, since)
  {
    if attempts == [] {
    } else {
      FailuresSplit(attempts[..|attempts| - 1], email, since);
    }
  }

  /** The count exceeds the bound by no more than the failures of locked-out logins in it. */
  lemma CountBound(s0: State, events: seq<Event>, email: string, c: nat)
    requires Fresh(s0) && s0.config.emailMaxFailures >= 1 && AtMostInFlight(s0, events, email, c)
    ensures var s := Run(s0, events); var since := s.now - s0.config.emailWindow;
      Failures(s.attempts, ByEmail(email), since) <= s0.config.emailMaxFailures - 1 + c + LockedOutFailures(s.attempts, email, since)
  {
    var s := Run(s0, events);
    OvershootBound(s0, events, email, c);
    FailuresSplit(s.attempts, email, s.now - s0.config.emailWindow);
  }

  /** No login of the e-mail that Check has locked out records a failure. */
  ghost predicate LockedOutStaySilent(s0: State, events: seq<Event>, email: string) {
    forall n :: 0 <= n < |events| && events[n].Fail? ==> Silent(Run(s0, events[..n]), events[n].client, email)
  }

  predicate Silent(s: State, client: int, email: string) {
    client in s.flights && s.flights[client].email == email ==> s.flights[client].admitted
  }

  predicate OnlyAdmittedFailures(attempts: seq<Attempt>, email: string) {
    forall i :: 0 <= i < |attempts| && attempts[i].email == email && !attempts[i].success ==> attempts[i].admitted
  }

  lemma {:induction false} SublistsAreAdmitted(attempts: seq<Attempt>, email: string, other: string, cutoff: int, since: int)
    requires OnlyAdmittedFailures(attempts, email)
    ensures OnlyAdmittedFailures(Recent(attempts, cutoff), email) && OnlyAdmittedFailures(ResetOf(attempts, other), email)
    ensures LockedOutFailures(attempts, email, since) == 0
  {
    if attempts == [] {
    } else {
      SublistsAreAdmitted(attempts[..|attempts| - 1], email, other, cutoff, since);
    }
  }

  lemma SilentStep(s: State, event: Event, email: string)
    requires OnlyAdmittedFailures(s.attempts, email) && (event.Fail? ==> Silent(s, event.client, email))
    ensures OnlyAdmittedFailures(Step(s, event).attempts, email)
  {
    match event
    case Reset(client) =>
      if client in s.flights {
        SublistsAreAdmitted(s.attempts, email, s.flights[client].email, 0, 0);
      }
    case CleanUp => SublistsAreAdmitted(s.attempts, email, "", s.now - s.retention, 0);
    case _ =>
  }

  lemma {:induction false} SilentRun(s0: State, events: seq<Event>, email: string)
    requires Fresh(s0) && LockedOutStaySilent(s0, events, email)
    ensures OnlyAdmittedFailures(Run(s0, events).attempts, email)
  {
    if events == [] {
    } else {
      var n := |events| - 1;
      assert forall k :: 0 <= k < n ==> events[..n][..k] == events[..k];
      SilentRun(s0, events[..n], email);
      SilentStep(Run(s0, events[..n]), events[n], email);
    }
  }

  /**
   * When the documented bound does hold of the count itself: in every run in which no login of the
   * e-mail records a failure after Check has locked it out.
   */
  lemma OvershootBoundOnTheCount(s0: State, events: seq<Event>, email: string, c: nat)
    requires Fresh(s0) && s0.config.emailMaxFailures >= 1 && AtMostInFlight(s0, events, email, c)
    requires LockedOutStaySilent(s0, events, email)
    ensures var s := Run(s0, events);
      Failures(s.attempts, ByEmail(email), s.now - s0.config.emailWindow) <= s0.config.emailMaxFailures - 1 + c
  {
    CountBound(s0, events, email, c);
    SilentMeansNone(s0, events, email);
  }

  lemma SilentMeansNone(s0: State, events: seq<Event>, email: string)
    requires Fresh(s0) && LockedOutStaySilent(s0, events, email)
    ensures var s := Run(s0, events); LockedOutFailures(s.attempts, email, s.now - s0.config.emailWindow) == 0
  {
    var s := Run(s0, events);
    SilentRun(s0, events, email);
    SublistsAreAdmitted(s.attempts, email, "", 0, s.now - s0.config.emailWindow);
  }

  /** Between s and `after` the login was locked out k times, each time adding a counted failure, and nothing else happened. */
  ghost predicate LockedOutTimes(s: State, after: State, email: string, remoteIp: string, k: nat) {
    var since := s.now - s.config.emailWindow;
    && after == s.(attempts := after.attempts, verdicts := after.verdicts)
    && CheckOf(after.config, after.attempts, email, remoteIp, after.now).LockedOut?
    && Failures(after.attempts, ByEmail(email), since) == Failures(s.attempts, ByEmail(email), since) + k
    && AdmittedFailures(after.attempts, email, since) == AdmittedFailures(s.attempts, email, since)
  }

  lemma TryLockedOut(s: State, now: State, client: int, email: string, remoteIp: string, k: nat)
    requires LockedOutTimes(s, now, email, remoteIp, k) && client !in s.flights && s.config.emailWindow >= 0
    ensures LockedOutTimes(s, Try(now, client, email, remoteIp), email, remoteIp, k + 1)
  {
    LockedOutTry(now, client, email, remoteIp);
    OnceMore(s, now, Try(now, client, email, remoteIp), email, remoteIp, k);
  }

  lemma OnceMore(s: State, now: State, after: State, email: string, remoteIp: string, k: nat)
    requires LockedOutTimes(s, now, email, remoteIp, k) && s.config.emailWindow >= 0
    requires after == now.(attempts := now.attempts + [Attempt(email, remoteIp, false, now.now, false)], verdicts := after.verdicts)
    ensures LockedOutTimes(s, after, email, remoteIp, k + 1)
  {
    var since := s.now - s.config.emailWindow;
    var attempt := Attempt(email, remoteIp, false, s.now, false);
    FailuresAppend(now.attempts, attempt, ByEmail(email), since);
    AppendAdmitted(now.attempts, attempt, email, since);
    RetryAfterHolds(now.config, now.attempts, [attempt], email, remoteIp, now.now, now.now);
  }

  lemma LockedOutTry(s: State, client: int, email: string, remoteIp: string)
    requires client !in s.flights && CheckOf(s.config, s.attempts, email, remoteIp, s.now).LockedOut?
    ensures Try(s, client, email, remoteIp)
      == s.(attempts := s.attempts + [Attempt(email, remoteIp, false, s.now, false)],
            verdicts := s.verdicts + [CheckOf(s.config, s.attempts, email, remoteIp, s.now)])
  {
    var begun := Step(s, Begin(client, email, remoteIp));
    assert begun.flights - {client} == s.flights;
  }

  /**
   * And once the e-mail or the address is locked out the count can be driven up at will: for every k,
   * k further tries, all of them locked out, add k counted failures.
   */
  lemma {:induction false} LockedOutTriesAddUp(s: State, client: int, email: string, remoteIp: string, k: nat)
    requires client !in s.flights && s.config.emailWindow >= 0
    requires CheckOf(s.config, s.attempts, email, remoteIp, s.now).LockedOut?
    ensures LockedOutTimes(s, Run(s, Attempts(k, client, email, remoteIp)), email, remoteIp, k)
  {
    if k == 0 {
    } else {
      LockedOutTriesAddUp(s, client, email, remoteIp, k - 1);
      var before := Attempts(k - 1, client, email, remoteIp);
      RunTry(s, before, client, email, remoteIp);
      TryLockedOut(s, Run(s, before), client, email, remoteIp, k - 1);
    }
  }

  // ---------- The bound is attained ----------

  /** One client trying again and again. */
  function Attempts(n: nat, client: int, email: string, remoteIp: string): seq<Event> {
    if n == 0 then [] else Attempts(n - 1, client, email, remoteIp) + [Begin(client, email, remoteIp), Fail(client)]
  }

  /** Clients 0 to n - 1 pass Check one after the other, and then fail one after the other. */
  function Begins(n: nat, email: string, remoteIp: string): seq<Event> {
    if n == 0 then [] else Begins(n - 1, email, remoteIp) + [Begin(n - 1, email, remoteIp)]
  }

  function Fails(n: nat): seq<Event> {
    if n == 0 then [] else Fails(n - 1) + [Fail(n - 1)]
  }

  lemma {:induction false} RunConcat(s: State, a: seq<Event>, b: seq<Event>)
    ensures Run(s, a + b) == Run(Run(s, a), b)
  {
    if b == [] {
      assert a + b == a;
    } else {
      assert (a + b)[..|a + b| - 1] == a + b[..|b| - 1];
      RunConcat(s, a, b[..|b| - 1]);
    }
  }

  lemma RunOne(s: State, events: seq<Event>, event: Event)
    ensures Run(s, events + [event]) == Step(Run(s, events), event)
  {
    assert (events + [event])[..|events|] == events;
  }

  lemma {:induction false} FewerThanRows(attempts: seq<Attempt>, axis: Axis, since: int)
    ensures Failures(attempts, axis, since) <= |attempts|
  {
    if attempts == [] {
    } else {
      FewerThanRows(attempts[..|attempts| - 1], axis, since);
    }
  }

  /** n recorded, counted failures of admitted logins, and no other rows. */
  predicate AllCounted(s: State, email: string, n: nat) {
    var since := s.now - s.config.emailWindow;
    |s.attempts| == n && AdmittedFailures(s.attempts, email, since) == n && Failures(s.attempts, ByEmail(email), since) == n
  }

  lemma FailureAdds(s: State, client: int, email: string, remoteIp: string, n: nat)
    requires AllCounted(s, email, n) && s.config.emailWindow >= 0
    requires client in s.flights && s.flights[client] == Flight(email, remoteIp, true, false)
    ensures AllCounted(Step(s, Fail(client)), email, n + 1)
  {
    var attempt := Attempt(email, remoteIp, false, s.now, true);
    AppendAdmitted(s.attempts, attempt, email, s.now - s.config.emailWindow);
    assert (s.attempts + [attempt])[..|s.attempts|] == s.attempts;
  }

  lemma BelowThresholdIsAdmitted(s: State, email: string, remoteIp: string, n: nat)
    requires AllCounted(s, email, n) && n < s.config.emailMaxFailures && n < s.config.ipMaxFailures
    ensures CheckOf(s.config, s.attempts, email, remoteIp, s.now) == Admitted
  {
    FewerThanRows(s.attempts, ByIp(remoteIp), s.now - s.config.ipWindow);
  }

  lemma RunTry(s: State, before: seq<Event>, client: int, email: string, remoteIp: string)
    ensures Run(s, before + [Begin(client, email, remoteIp), Fail(client)]) == Try(Run(s, before), client, email, remoteIp)
  {
    var begin := Begin(client, email, remoteIp);
    RunOne(s, before, begin);
    RunOne(s, before + [begin], Fail(client));
    assert before + [begin, Fail(client)] == before + [begin] + [Fail(client)];
  }

  function Try(s: State, client: int, email: string, remoteIp: string): State {
    Step(Step(s, Begin(client, email, remoteIp)), Fail(client))
  }

  lemma TryBelowThreshold(s: State, email: string, remoteIp: string, n: nat)
    requires AllCounted(s, email, n) && s.flights == map[] && s.config.emailWindow >= 0
    requires n < s.config.emailMaxFailures && n < s.config.ipMaxFailures
    ensures var after := Try(s, 0, email, remoteIp);
      AllCounted(after, email, n + 1) && after.flights == map[] && after.config == s.config
  {
    BelowThresholdIsAdmitted(s, email, remoteIp, n);
    var begun := Step(s, Begin(0, email, remoteIp));
    FailureAdds(begun, 0, email, remoteIp, n);
    assert begun.flights - {0} == map[];
  }

  lemma {:induction false} AttemptsFillUp(s0: State, email: string, remoteIp: string, n: nat)
    requires Fresh(s0) && s0.config.emailWindow >= 0
    requires n <= s0.config.emailMaxFailures && n <= s0.config.ipMaxFailures
    ensures var s := Run(s0, Attempts(n, 0, email, remoteIp));
      AllCounted(s, email, n) && s.flights == map[] && s.config == s0.config
  {
    if n == 0 {
    } else {
      AttemptsFillUp(s0, email, remoteIp, n - 1);
      var before := Attempts(n - 1, 0, email, remoteIp);
      RunTry(s0, before, 0, email, remoteIp);
      TryBelowThreshold(Run(s0, before), email, remoteIp, n - 1);
    }
  }

  /** Exactly the clients from low to high - 1 are in flight, let through. */
  ghost predicate PassedCheck(flights: map<int, Flight>, low: int, high: int, email: string, remoteIp: string) {
    && (forall client :: client in flights <==> low <= client < high)
    && (forall client :: client in flights ==> flights[client] == Flight(email, remoteIp, true, false))
  }

  /** The first c clients are in flight, and otherwise nothing has happened since s. */
  ghost predicate Launched(s: State, after: State, c: nat, email: string, remoteIp: string) {
    && after.attempts == s.attempts && after.now == s.now && after.config == s.config
    && PassedCheck(after.flights, 0, c, email, remoteIp)
  }

  lemma LaunchOne(s: State, after: State, c: nat, email: string, remoteIp: string, n: nat)
    requires AllCounted(s, email, n) && n < s.config.emailMaxFailures && n < s.config.ipMaxFailures
    requires Launched(s, after, c, email, remoteIp)
    ensures Launched(s, Step(after, Begin(c, email, remoteIp)), c + 1, email, remoteIp)
  {
    BelowThresholdIsAdmitted(s, email, remoteIp, n);
  }

  lemma {:induction false} AllPassCheck(s: State, email: string, remoteIp: string, n: nat, c: nat)
    requires AllCounted(s, email, n) && s.flights == map[]
    requires n < s.config.emailMaxFailures && n < s.config.ipMaxFailures
    ensures Launched(s, Run(s, Begins(c, email, remoteIp)), c, email, remoteIp)
  {
    if c == 0 {
    } else {
      AllPassCheck(s, email, remoteIp, n, c - 1);
      RunOne(s, Begins(c - 1, email, remoteIp), Begin(c - 1, email, remoteIp));
      LaunchOne(s, Run(s, Begins(c - 1, email, remoteIp)), c - 1, email, remoteIp, n);
    }
  }

  /** Clients k to c - 1 are still in flight, and n failures are counted. */
  ghost predicate Failing(s: State, config: Config, k: nat, c: nat, email: string, remoteIp: string, n: nat) {
    AllCounted(s, email, n) && s.config == config && PassedCheck(s.flights, k, c, email, remoteIp)
  }

  lemma FailOne(s: State, config: Config, k: nat, c: nat, email: string, remoteIp: string, n: nat)
    requires Failing(s, config, k, c, email, remoteIp, n) && k < c && config.emailWindow >= 0
    ensures Failing(Step(s, Fail(k)), config, k + 1, c, email, remoteIp, n + 1)
  {
    FailureAdds(s, k, email, remoteIp, n);
  }

  lemma FailNext(s: State, events: seq<Event>, config: Config, k: nat, c: nat, email: string, remoteIp: string, n: nat)
    requires 0 < k <= c && 0 < n && config.emailWindow >= 0
    requires Failing(Run(s, events), config, k - 1, c, email, remoteIp, n - 1)
    ensures Failing(Run(s, events + [Fail(k - 1)]), config, k, c, email, remoteIp, n)
  {
    RunOne(s, events, Fail(k - 1));
    FailOne(Run(s, events), config, k - 1, c, email, remoteIp, n - 1);
  }

  lemma {:induction false} AllFail(s: State, config: Config, email: string, remoteIp: string, n: nat, c: nat, k: nat)
    requires Failing(s, config, 0, c, email, remoteIp, n) && config.emailWindow >= 0 && k <= c
    ensures Failing(Run(s, Fails(k)), config, k, c, email, remoteIp, n + k)
  {
    if k == 0 {
    } else {
      AllFail(s, config, email, remoteIp, n, c, k - 1);
      FailNext(s, Fails(k - 1), config, k, c, email, remoteIp, n + k);
      assert Fails(k) == Fails(k - 1) + [Fail(k - 1)];
    }
  }

  /** All logins carry client numbers below c, so no more than c of them are ever in flight. */
  lemma {:induction false} ClientsBoundFlights(s0: State, events: seq<Event>, email: string, c: nat)
    requires Fresh(s0) && forall e :: e in events && e.Begin? ==> 0 <= e.client < c
    ensures forall client :: client in Run(s0, events).flights ==> 0 <= client < c
    ensures |InFlight(Run(s0, events), email)| <= c
  {
    if events == [] {
    } else {
      var init := events[..|events| - 1];
      assert events == init + [events[|events| - 1]];
      ClientsBoundFlights(s0, init, email, c);
    }
    SubsetOfRange(InFlight(Run(s0, events), email), c);
  }

  lemma {:induction false} SubsetOfRange(clients: set<int>, c: nat)
    requires forall client :: client in clients ==> 0 <= client < c
    ensures |clients| <= c
  {
    if c == 0 {
      forall client
        ensures client !in clients
      {}
      assert clients == {};
    } else {
      SubsetOfRange(clients - {c - 1}, c - 1);
    }
  }

  lemma {:induction false} OnlyClientsBelow(n: nat, email: string, remoteIp: string, c: nat)
    requires c > 0
    ensures forall e :: e in Attempts(n, 0, email, remoteIp) && e.Begin? ==> 0 <= e.client < c
    ensures n <= c ==> forall e :: e in Begins(n, email, remoteIp) && e.Begin? ==> 0 <= e.client < c
    ensures forall e :: e in Fails(n) ==> !e.Begin?
  {
    if n == 0 {
    } else {
      OnlyClientsBelow(n - 1, email, remoteIp, c);
    }
  }

  /**
   * The bound cannot be improved: for every c there is a run with at most c logins in flight in which
   * emailMaxFailures - 1 + c failures of admitted logins are counted, not just one above the threshold.
   */
  lemma OvershootIsAttained(s0: State, email: string, remoteIp: string, c: nat) returns (events: seq<Event>)
    requires Fresh(s0) && s0.config.emailWindow >= 0 && c > 0
    requires 0 < s0.config.emailMaxFailures <= s0.config.ipMaxFailures
    ensures AtMostInFlight(s0, events, email, c)
    ensures var s := Run(s0, events);
      AdmittedFailures(s.attempts, email, s.now - s0.config.emailWindow) == s0.config.emailMaxFailures - 1 + c
  {
    var n := s0.config.emailMaxFailures - 1;
    events := Attempts(n, 0, email, remoteIp) + Begins(c, email, remoteIp) + Fails(c);
    CountReached(s0, email, remoteIp, n, c);
    OnlyClientsBelow(n, email, remoteIp, c);
    OnlyClientsBelow(c, email, remoteIp, c);
    PrefixesAreBounded(s0, events, email, c);
  }

  lemma CountReached(s0: State, email: string, remoteIp: string, n: nat, c: nat)
    requires Fresh(s0) && s0.config.emailWindow >= 0
    requires n < s0.config.emailMaxFailures && n < s0.config.ipMaxFailures
    ensures var s := Run(s0, Attempts(n, 0, email, remoteIp) + Begins(c, email, remoteIp) + Fails(c));
      AllCounted(s, email, n + c) && s.config == s0.config
  {
    var tried := Attempts(n, 0, email, remoteIp);
    AttemptsFillUp(s0, email, remoteIp, n);
    PassThenFail(Run(s0, tried), email, remoteIp, n, c);
    RunThree(s0, tried, Begins(c, email, remoteIp), Fails(c));
  }

  lemma RunThree(s: State, a: seq<Event>, b: seq<Event>, c: seq<Event>)
    ensures Run(s, a + b + c) == Run(Run(Run(s, a), b), c)
  {
    RunConcat(s, a, b);
    RunConcat(s, a + b, c);
  }

  lemma PassThenFail(s: State, email: string, remoteIp: string, n: nat, c: nat)
    requires AllCounted(s, email, n) && s.flights == map[] && s.config.emailWindow >= 0
    requires n < s.config.emailMaxFailures && n < s.config.ipMaxFailures
    ensures var after := Run(Run(s, Begins(c, email, remoteIp)), Fails(c));
      AllCounted(after, email, n + c) && after.config == s.config
  {
    AllPassCheck(s, email, remoteIp, n, c);
    AllFail(Run(s, Begins(c, email, remoteIp)), s.config, email, remoteIp, n, c, c);
  }

  lemma PrefixesAreBounded(s0: State, events: seq<Event>, email: string, c: nat)
    requires Fresh(s0) && forall e :: e in events && e.Begin? ==> 0 <= e.client < c
    ensures AtMostInFlight(s0, events, email, c)
  {
    forall m | 0 <= m <= |events|
      ensures |InFlight(Run(s0, events[..m]), email)| <= c
    {
      assert forall e :: e in events[..m] ==> e in events;
      ClientsBoundFlights(s0, events[..m], email, c);
    }
  }

  // ---------- Two things that are not so ----------

  /** n failures counted on both axes, all recorded just now, and nobody in flight. */
  ghost predicate Tried(s0: State, s: State, email: string, remoteIp: string, n: nat) {
    && Failures(s.attempts, ByEmail(email), s0.now) == n && Failures(s.attempts, ByIp(remoteIp), s0.now) == n
    && s.flights == map[] && s.now == s0.now && s.config == s0.config && s.retention == s0.retention
    && (forall i :: 0 <= i < |s.attempts| ==> s.attempts[i].at == s0.now)
  }

  /** A try, admitted or not, adds one counted failure. */
  lemma TryAgain(s0: State, s: State, email: string, remoteIp: string, n: nat)
    requires Tried(s0, s, email, remoteIp, n)
    ensures Tried(s0, Try(s, 0, email, remoteIp), email, remoteIp, n + 1)
  {
    var begun := Step(s, Begin(0, email, remoteIp));
    var attempt := Attempt(email, remoteIp, false, s.now, begun.flights[0].admitted);
    FailuresAppend(s.attempts, attempt, ByEmail(email), s0.now);
    FailuresAppend(s.attempts, attempt, ByIp(remoteIp), s0.now);
    assert begun.flights - {0} == map[];
  }

  lemma {:induction false} TriesCount(s0: State, n: nat, email: string, remoteIp: string)
    requires Fresh(s0)
    ensures Tried(s0, Run(s0, Attempts(n, 0, email, remoteIp)), email, remoteIp, n)
  {
    if n == 0 {
    } else {
      TriesCount(s0, n - 1, email, remoteIp);
      var before := Attempts(n - 1, 0, email, remoteIp);
      RunTry(s0, before, 0, email, remoteIp);
      TryAgain(s0, Run(s0, before), email, remoteIp, n - 1);
    }
  }

  /**
   * The bound is not one on all counted failures: a locked-out login records a failure too, so with a
   * single client in flight any count is reached within the window.
   */
  lemma LockedOutLoginsCountToo(s0: State, n: nat, email: string, remoteIp: string)
    requires Fresh(s0) && s0.config.emailWindow >= 0
    ensures CountIs(Run(s0, Attempts(n, 0, email, remoteIp)), email, s0.config.emailWindow, n)
  {
    TriesCount(s0, n, email, remoteIp);
    TriedInWindow(s0, Run(s0, Attempts(n, 0, email, remoteIp)), email, remoteIp, n);
  }

  /** Check reads a count of n, and nobody is in flight. */
  predicate CountIs(s: State, email: string, window: int, n: nat) {
    Failures(s.attempts, ByEmail(email), s.now - window) == n && s.flights == map[]
  }

  lemma TriedInWindow(s0: State, s: State, email: string, remoteIp: string, n: nat)
    requires Tried(s0, s, email, remoteIp, n) && s0.config.emailWindow >= 0
    ensures CountIs(s, email, s0.config.emailWindow, n)
  {
    CountsFromNow(s0, s, ByEmail(email), s0.now - s0.config.emailWindow);
  }

  lemma {:induction false} NothingRecent(attempts: seq<Attempt>, cutoff: int)
    requires forall i :: 0 <= i < |attempts| ==> attempts[i].at < cutoff
    ensures Recent(attempts, cutoff) == []
  {
    if attempts == [] {
    } else {
      NothingRecent(attempts[..|attempts| - 1], cutoff);
    }
  }

  /** After the retention has passed the failures still lock the login out on one axis or the other; the job deletes them all. */
  lemma JobUnlocks(s0: State, s: State, email: string, remoteIp: string, n: nat)
    requires 0 < s0.config.emailMaxFailures <= n && 0 < s0.config.ipMaxFailures <= n
    requires Tried(s0, s, email, remoteIp, n)
    requires 0 <= s0.retention && (s0.retention < s0.config.emailWindow || s0.retention < s0.config.ipWindow)
    ensures var without := Step(s, Tick(s0.retention + 1)); var with := Step(without, CleanUp);
      && CheckOf(s0.config, without.attempts, email, remoteIp, without.now).LockedOut?
      && CheckOf(s0.config, with.attempts, email, remoteIp, with.now) == Admitted
  {
    var later := s.now + s0.retention + 1;
    CountsFromNow(s0, s, ByEmail(email), later - s0.config.emailWindow);
    CountsFromNow(s0, s, ByIp(remoteIp), later - s0.config.ipWindow);
    NothingRecent(s.attempts, s.now + 1);
  }

  /** All failures are of the moment, so every window that reaches back to it counts them all. */
  lemma CountsFromNow(s0: State, s: State, axis: Axis, since: int)
    requires (forall i :: 0 <= i < |s.attempts| ==> s.attempts[i].at == s0.now) && s.now == s0.now
    ensures since <= s0.now ==> Failures(s.attempts, axis, since) == Failures(s.attempts, axis, s0.now)
  {
    if since <= s0.now {
      LaterStart(s.attempts, axis, since, s0.now);
    }
  }

  lemma {:induction false} NoJobInAttempts(n: nat, client: int, email: string, remoteIp: string)
    ensures WithoutCleanUp(Attempts(n, client, email, remoteIp)) == Attempts(n, client, email, remoteIp)
  {
    if n == 0 {
    } else {
      NoJobInAttempts(n - 1, client, email, remoteIp);
      var before, begin, fail := Attempts(n - 1, client, email, remoteIp), Begin(client, email, remoteIp), Fail(client);
      KeepsOthers(before, begin);
      KeepsOthers(before + [begin], fail);
      assert before + [begin, fail] == before + [begin] + [fail];
    }
  }

  lemma KeepsOthers(events: seq<Event>, event: Event)
    ensures WithoutCleanUp(events + [event]) == WithoutCleanUp(events) + if event.CleanUp? then [] else [event]
  {
    assert (events + [event])[..|events|] == events;
  }

  /**
   * Covering the windows is also necessary: with a retention shorter than either window there is a run
   * in which a login is let through that would be locked out without the job.
   */
  lemma ShortRetentionIsVisible(s0: State, email: string, remoteIp: string) returns (events: seq<Event>)
    requires Fresh(s0) && 0 <= s0.retention && (s0.retention < s0.config.emailWindow || s0.retention < s0.config.ipWindow)
    requires s0.config.emailMaxFailures > 0 && s0.config.ipMaxFailures > 0
    ensures Run(s0, events).verdicts != Run(s0, WithoutCleanUp(events)).verdicts
  {
    var n: nat := if s0.config.emailMaxFailures < s0.config.ipMaxFailures then s0.config.ipMaxFailures else s0.config.emailMaxFailures;
    var tries, tick, begin := Attempts(n, 0, email, remoteIp), Tick(s0.retention + 1), Begin(0, email, remoteIp);
    events := tries + [tick] + [CleanUp] + [begin];
    JobIsLeftOut(n, tick, begin, email, remoteIp);
    TicksWhileLocked(s0, n, email, remoteIp);
    LastEvents(s0, tries + [tick], email, remoteIp);
  }

  /** Only the job may unlock the login. */
  ghost predicate JobMatters(s: State, email: string, remoteIp: string) {
    var with := Step(s, CleanUp);
    && s.flights == map[]
    && CheckOf(s.config, s.attempts, email, remoteIp, s.now).LockedOut?
    && CheckOf(with.config, with.attempts, email, remoteIp, with.now) == Admitted
  }

  lemma TicksWhileLocked(s0: State, n: nat, email: string, remoteIp: string)
    requires Fresh(s0) && 0 <= s0.retention && (s0.retention < s0.config.emailWindow || s0.retention < s0.config.ipWindow)
    requires 0 < s0.config.emailMaxFailures <= n && 0 < s0.config.ipMaxFailures <= n
    ensures JobMatters(Run(s0, Attempts(n, 0, email, remoteIp) + [Tick(s0.retention + 1)]), email, remoteIp)
  {
    var tries := Attempts(n, 0, email, remoteIp);
    TriesCount(s0, n, email, remoteIp);
    RunOne(s0, tries, Tick(s0.retention + 1));
    TickKeepsLock(s0, Run(s0, tries), email, remoteIp, n);
  }

  lemma TickKeepsLock(s0: State, s: State, email: string, remoteIp: string, n: nat)
    requires 0 < s0.config.emailMaxFailures <= n && 0 < s0.config.ipMaxFailures <= n
    requires Tried(s0, s, email, remoteIp, n)
    requires 0 <= s0.retention && (s0.retention < s0.config.emailWindow || s0.retention < s0.config.ipWindow)
    ensures JobMatters(Step(s, Tick(s0.retention + 1)), email, remoteIp)
  {
    JobUnlocks(s0, s, email, remoteIp, n);
  }

  lemma JobIsLeftOut(n: nat, tick: Event, begin: Event, email: string, remoteIp: string)
    requires tick.Tick? && begin.Begin?
    ensures var tries := Attempts(n, 0, email, remoteIp);
      WithoutCleanUp(tries + [tick] + [CleanUp] + [begin]) == tries + [tick] + [begin]
  {
    var tries := Attempts(n, 0, email, remoteIp);
    NoJobInAttempts(n, 0, email, remoteIp);
    KeepsOthers(tries, tick);
    KeepsOthers(tries + [tick], CleanUp);
    KeepsOthers(tries + [tick] + [CleanUp], begin);
  }

  lemma LastEvents(s0: State, events: seq<Event>, email: string, remoteIp: string)
    requires JobMatters(Run(s0, events), email, remoteIp)
    ensures var begin := Begin(0, email, remoteIp);
      Run(s0, events + [CleanUp] + [begin]).verdicts != Run(s0, events + [begin]).verdicts
  {
    var begin := Begin(0, email, remoteIp);
    RunOne(s0, events, CleanUp);
    RunOne(s0, events, begin);
    RunOne(s0, events + [CleanUp], begin);
    LastVerdicts(Run(s0, events), Step(Run(s0, events), CleanUp), email, remoteIp);
  }

  lemma LastVerdicts(without: State, with: State, email: string, remoteIp: string)
    requires without.flights == map[] && with.flights == map[] && with.config == without.config
    requires CheckOf(without.config, without.attempts, email, remoteIp, without.now).LockedOut?
    requires CheckOf(with.config, with.attempts, email, remoteIp, with.now) == Admitted
    ensures Step(without, Begin(0, email, remoteIp)).verdicts != Step(with, Begin(0, email, remoteIp)).verdicts
  {
    var a, b := Step(without, Begin(0, email, remoteIp)).verdicts, Step(with, Begin(0, email, remoteIp)).verdicts;
    assert a[|a| - 1].LockedOut? && b[|b| - 1] == Admitted;
  }

  /** The clean-up job is invisible in all runs if and only if the retention covers both windows. */
  lemma InvisibleExactlyIfCovered(s0: State)
    requires Fresh(s0) && s0.retention > 0 && s0.config.emailMaxFailures > 0 && s0.config.ipMaxFailures > 0
    ensures CoversWindows(s0) <==> forall events :: Run(s0, events).verdicts == Run(s0, WithoutCleanUp(events)).verdicts
  {
    if CoversWindows(s0) {
      forall events
        ensures Run(s0, events).verdicts == Run(s0, WithoutCleanUp(events)).verdicts
      {
        CleanUpIsInvisible(s0, events);
      }
    } else {
      var events := ShortRetentionIsVisible(s0, "", "");
    }
  }
}
