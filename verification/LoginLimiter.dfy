/**
 * The rolling-window login limiter (internal/repository/postgres/login_attempt_repository.go) and the
 * retention of its clean-up job (cmd/api/router.go). Times and durations are nanoseconds on one clock.
 */
module LoginLimiter {

  import opened Durations

  /**
   * One row of login_attempts. `admitted` is kept for the proofs and read by no query: whether Check
   * had let the attempt through.
   */
  datatype Attempt = Attempt(email: string, remoteIp: string, success: bool, at: int, admitted: bool)

  datatype Config = Config(emailMaxFailures: int, emailWindow: int, ipMaxFailures: int, ipWindow: int)

  datatype Axis = ByEmail(email: string) | ByIp(remoteIp: string)

  datatype LockoutReason = EmailReason | IpReason

  datatype Verdict = Admitted | LockedOut(retryAfter: int, reason: LockoutReason)

  /** A failure on the axis, not older than `since`. */
  predicate Counts(attempt: Attempt, axis: Axis, since: int) {
    && !attempt.success && attempt.at >= since
    && (match axis case ByEmail(email) => attempt.email == email case ByIp(ip) => attempt.remoteIp == ip)
  }

  function Failures(attempts: seq<Attempt>, axis: Axis, since: int): nat {
    if attempts == [] then 0
    else Failures(attempts[..|attempts| - 1], axis, since) + if Counts(attempts[|attempts| - 1], axis, since) then 1 else 0
  }

  /** The oldest counted failure, or `default` without one. */
  function Oldest(attempts: seq<Attempt>, axis: Axis, since: int, default: int): int {
    if attempts == [] then default
    else
      var rest, last := Oldest(attempts[..|attempts| - 1], axis, since, default), attempts[|attempts| - 1];
      if Counts(last, axis, since) && (Failures(attempts[..|attempts| - 1], axis, since) == 0 || last.at < rest) then last.at else rest
  }

  function OnAxis(attempts: seq<Attempt>, axis: Axis, maxFailures: int, window: int, reason: LockoutReason, now: int): Verdict {
    if Failures(attempts, axis, now - window) < maxFailures then Admitted
    else
      var retry := Oldest(attempts, axis, now - window, now) + window - now;
      LockedOut(if retry < 0 then 0 else retry, reason)
  }

  /** The e-mail axis decides first, then the address. */
  function CheckOf(config: Config, attempts: seq<Attempt>, email: string, remoteIp: string, now: int): Verdict {
    var onEmail := OnAxis(attempts, ByEmail(email), config.emailMaxFailures, config.emailWindow, EmailReason, now);
    if onEmail.LockedOut? then onEmail
    else OnAxis(attempts, ByIp(remoteIp), config.ipMaxFailures, config.ipWindow, IpReason, now)
  }

  function ResetOf(attempts: seq<Attempt>, email: string): seq<Attempt> {
    if attempts == [] then []
    else
      var last := attempts[|attempts| - 1];
      ResetOf(attempts[..|attempts| - 1], email) + if last.email == email && !last.success then [] else [last]
  }

  /** The rows not older than the cutoff. */
  function Recent(attempts: seq<Attempt>, cutoff: int): seq<Attempt> {
    if attempts == [] then []
    else
      var last := attempts[|attempts| - 1];
      Recent(attempts[..|attempts| - 1], cutoff) + if last.at < cutoff then [] else [last]
  }

  class LoginAttemptRepository {
    const config: Config
    var attempts: seq<Attempt>

    constructor (config: Config)
      ensures this.config == config && attempts == []
    {
      this.config := config;
      attempts := [];
    }

    method CountFailuresSince(axis: Axis, since: int, now: int) returns (count: nat, oldest: int)
      ensures count == Failures(attempts, axis, since)
      ensures oldest == Oldest(attempts, axis, since, now)
    {
      count, oldest := 0, now;
      for i := 0 to |attempts|
        invariant count == Failures(attempts[..i], axis, since)
        invariant oldest == Oldest(attempts[..i], axis, since, now)
      {
        assert attempts[..i + 1][..i] == attempts[..i];
        if Counts(attempts[i], axis, since) {
          if count == 0 || attempts[i].at < oldest {
            oldest := attempts[i].at;
          }
          count := count + 1;
        }
      }
      assert attempts[..|attempts|] == attempts;
    }

    method Check(email: string, remoteIp: string, now: int) returns (verdict: Verdict)
      ensures verdict == CheckOf(config, attempts, email, remoteIp, now)
    {
      var emailCount, emailOldest := CountFailuresSince(ByEmail(email), now - config.emailWindow, now);
      if emailCount >= config.emailMaxFailures {
        var retry := emailOldest + config.emailWindow - now;
        if retry < 0 {
          retry := 0;
        }
        return LockedOut(retry, EmailReason);
      }
      var ipCount, ipOldest := CountFailuresSince(ByIp(remoteIp), now - config.ipWindow, now);
      if ipCount >= config.ipMaxFailures {
        var retry := ipOldest + config.ipWindow - now;
        if retry < 0 {
          retry := 0;
        }
        return LockedOut(retry, IpReason);
      }
      return Admitted;
    }

    method Record(email: string, remoteIp: string, success: bool, now: int, admitted: bool)
      modifies this
      ensures attempts == old(attempts) + [Attempt(email, remoteIp, success, now, admitted)]
    {
      attempts := attempts + [Attempt(email, remoteIp, success, now, admitted)];
    }

    /** DELETE ... WHERE email = $1 AND success = false. */
    method ResetByEmail(email: string)
      modifies this
      ensures attempts == ResetOf(old(attempts), email)
      ensures forall a :: multiset(attempts)[a] == if a.email == email && !a.success then 0 else multiset(old(attempts))[a]
    {
      var kept: seq<Attempt> := [];
      for i := 0 to |attempts|
        invariant attempts == old(attempts) && kept == ResetOf(attempts[..i], email)
      {
        assert attempts[..i + 1][..i] == attempts[..i];
        if attempts[i].email != email || attempts[i].success {
          kept := kept + [attempts[i]];
        }
      }
      assert attempts[..|attempts|] == attempts;
      ResetIsExact(attempts, email);
      attempts := kept;
    }

    /** DELETE ... WHERE attempted_at < $1. */
    method DeleteOlderThan(cutoff: int) returns (deleted: nat)
      modifies this
      ensures attempts == Recent(old(attempts), cutoff)
      ensures forall a :: multiset(attempts)[a] == if a.at < cutoff then 0 else multiset(old(attempts))[a]
      ensures |attempts| + deleted == |old(attempts)|
    {
      var kept: seq<Attempt> := [];
      deleted := 0;
      for i := 0 to |attempts|
        invariant attempts == old(attempts) && kept == Recent(attempts[..i], cutoff) && |kept| + deleted == i
      {
        assert attempts[..i + 1][..i] == attempts[..i];
        if attempts[i].at < cutoff {
          deleted := deleted + 1;
        } else {
          kept := kept + [attempts[i]];
        }
      }
      assert attempts[..|attempts|] == attempts;
      RecentIsExact(attempts, cutoff);
      attempts := kept;
    }
  }

  /**
   * How long the clean-up job keeps rows: twice the longer window, at least an hour. It covers both
   * windows exactly when doubling does not overflow.
   */
  method CleanupRetention(emailWindow: int, ipWindow: int) returns (retention: int)
    requires IsInt64(emailWindow) && IsInt64(ipWindow)
    ensures retention >= HOUR
    ensures retention >= emailWindow && retention >= ipWindow <==> emailWindow < TWO_TO_62 && ipWindow < TWO_TO_62
    ensures 0 <= emailWindow < TWO_TO_62 && 0 <= ipWindow < TWO_TO_62 ==>
      retention >= 2 * emailWindow && retention >= 2 * ipWindow && retention in {HOUR, 2 * emailWindow, 2 * ipWindow}
  {
    retention := emailWindow;
    if ipWindow > retention {
      retention := ipWindow;
    }
    retention := WrapInt64(retention * 2);
    if retention < HOUR {
      retention := HOUR;
    }
  }

  // ---------- Counting ----------

  lemma {:induction false} FailuresOfConcatenation(a: seq<Attempt>, b: seq<Attempt>, axis: Axis, since: int)
    ensures Failures(a + b, axis, since) == Failures(a, axis, since) + Failures(b, axis, since)
  {
    if b == [] {
      assert a + b == a;
    } else {
      assert (a + b)[..|a + b| - 1] == a + b[..|b| - 1];
      FailuresOfConcatenation(a, b[..|b| - 1], axis, since);
    }
  }

  lemma FailuresAppend(attempts: seq<Attempt>, attempt: Attempt, axis: Axis, since: int)
    ensures Failures(attempts + [attempt], axis, since) == Failures(attempts, axis, since) + if Counts(attempt, axis, since) then 1 else 0
  {
    assert (attempts + [attempt])[..|attempts|] == attempts;
  }

  /** Oldest is a lower bound of the counted failures, attained if there are any. */
  lemma {:induction false} OldestIsTheMinimum(attempts: seq<Attempt>, axis: Axis, since: int, default: int)
    ensures var oldest := Oldest(attempts, axis, since, default);
      && (forall i :: 0 <= i < |attempts| && Counts(attempts[i], axis, since) ==> oldest <= attempts[i].at)
      && (if Failures(attempts, axis, since) == 0 then oldest == default
          else exists i :: 0 <= i < |attempts| && Counts(attempts[i], axis, since) && attempts[i].at == oldest)
  {
    if attempts == [] {
    } else {
      var init := attempts[..|attempts| - 1];
      OldestIsTheMinimum(init, axis, since, default);
      NothingCounted(init, axis, since);
      if Failures(init, axis, since) > 0 {
        var i :| 0 <= i < |init| && Counts(init[i], axis, since) && init[i].at == Oldest(init, axis, since, default);
        assert attempts[i] == init[i];
      }
    }
  }

  lemma {:induction false} NothingCounted(attempts: seq<Attempt>, axis: Axis, since: int)
    ensures Failures(attempts, axis, since) == 0 <==> forall i :: 0 <= i < |attempts| ==> !Counts(attempts[i], axis, since)
  {
    if attempts == [] {
    } else {
      var init := attempts[..|attempts| - 1];
      NothingCounted(init, axis, since);
      assert forall i :: 0 <= i < |init| ==> init[i] == attempts[i];
    }
  }

  /** A later start counts no more, the same if it is not after any counted failure, and less if it is. */
  lemma {:induction false} LaterStart(attempts: seq<Attempt>, axis: Axis, since: int, later: int)
    requires since <= later
    ensures Failures(attempts, axis, later) <= Failures(attempts, axis, since)
    ensures Failures(attempts, axis, later) == Failures(attempts, axis, since) <==>
      forall i :: 0 <= i < |attempts| && Counts(attempts[i], axis, since) ==> later <= attempts[i].at
  {
    if attempts == [] {
    } else {
      var init := attempts[..|attempts| - 1];
      LaterStart(init, axis, since, later);
      assert forall i :: 0 <= i < |init| ==> init[i] == attempts[i];
    }
  }

  /** The positions of the counted failures. */
  function Counted(attempts: seq<Attempt>, axis: Axis, since: int): set<int> {
    set i | 0 <= i < |attempts| && Counts(attempts[i], axis, since)
  }

  lemma {:induction false} FailuresAreCounted(attempts: seq<Attempt>, axis: Axis, since: int)
    ensures Failures(attempts, axis, since) == |Counted(attempts, axis, since)|
  {
    if attempts == [] {
      assert Counted(attempts, axis, since) == {};
    } else {
      var n := |attempts| - 1;
      var init := attempts[..n];
      FailuresAreCounted(init, axis, since);
      CountedGrows(init, attempts[n], axis, since);
      assert init + [attempts[n]] == attempts;
    }
  }

  lemma CountedGrows(init: seq<Attempt>, last: Attempt, axis: Axis, since: int)
    ensures Counted(init + [last], axis, since) == Counted(init, axis, since) + if Counts(last, axis, since) then {|init|} else {}
  {
    var all := init + [last];
    assert forall i :: 0 <= i < |init| ==> init[i] == all[i];
  }

  /**
   * A login is locked out by its e-mail exactly if that many failures of it lie in the e-mail's window,
   * by its address exactly if not by the e-mail but so many of the address in the address's, and
   * admitted otherwise.
   */
  lemma CheckMeaning(config: Config, attempts: seq<Attempt>, email: string, remoteIp: string, now: int)
    ensures var verdict := CheckOf(config, attempts, email, remoteIp, now);
      var byEmail := set i | 0 <= i < |attempts| && !attempts[i].success && attempts[i].email == email && attempts[i].at >= now - config.emailWindow;
      var byIp := set i | 0 <= i < |attempts| && !attempts[i].success && attempts[i].remoteIp == remoteIp && attempts[i].at >= now - config.ipWindow;
      && (verdict.Admitted? <==> |byEmail| < config.emailMaxFailures && |byIp| < config.ipMaxFailures)
      && (verdict.LockedOut? && verdict.reason == EmailReason <==> |byEmail| >= config.emailMaxFailures)
  {
    var byEmail := set i | 0 <= i < |attempts| && !attempts[i].success && attempts[i].email == email && attempts[i].at >= now - config.emailWindow;
    var byIp := set i | 0 <= i < |attempts| && !attempts[i].success && attempts[i].remoteIp == remoteIp && attempts[i].at >= now - config.ipWindow;
    FailuresAreCounted(attempts, ByEmail(email), now - config.emailWindow);
    FailuresAreCounted(attempts, ByIp(remoteIp), now - config.ipWindow);
    assert byEmail == Counted(attempts, ByEmail(email), now - config.emailWindow);
    assert byIp == Counted(attempts, ByIp(remoteIp), now - config.ipWindow);
  }

  // ---------- RetryAfter ----------

  /** On one axis, nothing recorded later unlocks it before RetryAfter has passed. */
  lemma AxisStaysLocked(attempts: seq<Attempt>, more: seq<Attempt>, axis: Axis, maxFailures: int, window: int, reason: LockoutReason, t: int, u: int)
    requires OnAxis(attempts, axis, maxFailures, window, reason, t).LockedOut?
    requires t <= u <= t + OnAxis(attempts, axis, maxFailures, window, reason, t).retryAfter
    ensures OnAxis(attempts + more, axis, maxFailures, window, reason, u).LockedOut?
  {
    OldestIsTheMinimum(attempts, axis, t - window, t);
    LaterStart(attempts, axis, t - window, u - window);
    FailuresOfConcatenation(attempts, more, axis, u - window);
  }

  /**
   * RetryAfter is a true lower bound: whoever is locked out at t is locked out at every time up to
   * t + RetryAfter, whatever is recorded in between.
   */
  lemma RetryAfterHolds(config: Config, attempts: seq<Attempt>, more: seq<Attempt>, email: string, remoteIp: string, t: int, u: int)
    requires CheckOf(config, attempts, email, remoteIp, t).LockedOut?
    requires t <= u <= t + CheckOf(config, attempts, email, remoteIp, t).retryAfter
    ensures CheckOf(config, attempts + more, email, remoteIp, u).LockedOut?
  {
    if OnAxis(attempts, ByEmail(email), config.emailMaxFailures, config.emailWindow, EmailReason, t).LockedOut? {
      AxisStaysLocked(attempts, more, ByEmail(email), config.emailMaxFailures, config.emailWindow, EmailReason, t, u);
    } else {
      AxisStaysLocked(attempts, more, ByIp(remoteIp), config.ipMaxFailures, config.ipWindow, IpReason, t, u);
    }
  }

  /**
   * And after it, if no failure was recorded on the axis since, the axis opens at once when exactly the
   * threshold had been counted, and in general as soon as the failures still in the window are too few.
   */
  lemma RetryAfterIsExact(attempts: seq<Attempt>, more: seq<Attempt>, axis: Axis, maxFailures: int, window: int, reason: LockoutReason, t: int, u: int)
    requires OnAxis(attempts, axis, maxFailures, window, reason, t).LockedOut? && 0 < maxFailures
    requires u > t + OnAxis(attempts, axis, maxFailures, window, reason, t).retryAfter
    requires Failures(more, axis, u - window) == 0
    ensures Failures(attempts, axis, t - window) == maxFailures ==> OnAxis(attempts + more, axis, maxFailures, window, reason, u) == Admitted
    ensures OnAxis(attempts + more, axis, maxFailures, window, reason, u) == Admitted <==> Failures(attempts, axis, u - window) < maxFailures
  {
    OldestIsTheMinimum(attempts, axis, t - window, t);
    LaterStart(attempts, axis, t - window, u - window);
    FailuresOfConcatenation(attempts, more, axis, u - window);
  }

  /** RetryAfter is measured on one clock from failures not in the future, so it is between 0 and the window. */
  lemma RetryAfterIsWithinTheWindow(attempts: seq<Attempt>, axis: Axis, maxFailures: int, window: int, reason: LockoutReason, t: int)
    requires OnAxis(attempts, axis, maxFailures, window, reason, t).LockedOut? && 0 <= window
    requires forall i :: 0 <= i < |attempts| ==> attempts[i].at <= t
    ensures 0 <= OnAxis(attempts, axis, maxFailures, window, reason, t).retryAfter <= window
    ensures OnAxis(attempts, axis, maxFailures, window, reason, t).retryAfter == Oldest(attempts, axis, t - window, t) + window - t
  {
    OldestIsTheMinimum(attempts, axis, t - window, t);
  }

  // ---------- Deleting ----------

  lemma {:induction false} ResetIsExact(attempts: seq<Attempt>, email: string)
    ensures forall a :: multiset(ResetOf(attempts, email))[a] == if a.email == email && !a.success then 0 else multiset(attempts)[a]
  {
    if attempts == [] {
    } else {
      var init, last := attempts[..|attempts| - 1], attempts[|attempts| - 1];
      ResetIsExact(init, email);
      assert attempts == init + [last];
    }
  }

  lemma {:induction false} RecentIsExact(attempts: seq<Attempt>, cutoff: int)
    ensures forall a :: multiset(Recent(attempts, cutoff))[a] == if a.at < cutoff then 0 else multiset(attempts)[a]
  {
    if attempts == [] {
    } else {
      var init, last := attempts[..|attempts| - 1], attempts[|attempts| - 1];
      RecentIsExact(init, cutoff);
      assert attempts == init + [last];
    }
  }

  /** Rows older than every window in use do not count, so deleting them changes no count and no oldest. */
  lemma {:induction false} RecentCountsTheSame(attempts: seq<Attempt>, cutoff: int, axis: Axis, since: int, default: int)
    requires cutoff <= since
    ensures Failures(Recent(attempts, cutoff), axis, since) == Failures(attempts, axis, since)
    ensures Oldest(Recent(attempts, cutoff), axis, since, default) == Oldest(attempts, axis, since, default)
  {
    if attempts == [] {
    } else {
      var init, last := attempts[..|attempts| - 1], attempts[|attempts| - 1];
      RecentCountsTheSame(init, cutoff, axis, since, default);
      var recent := Recent(init, cutoff);
      assert (recent + [last])[..|recent|] == recent;
      assert recent + [] == recent;
    }
  }

  lemma {:induction false} RecentTwice(attempts: seq<Attempt>, a: int, b: int)
    ensures Recent(Recent(attempts, a), b) == Recent(attempts, if a < b then b else a)
  {
    if attempts == [] {
    } else {
      var init, last := attempts[..|attempts| - 1], attempts[|attempts| - 1];
      RecentTwice(init, a, b);
      var recent := Recent(init, a);
      assert (recent + [last])[..|recent|] == recent;
      assert recent + [] == recent;
    }
  }

  lemma {:induction false} RecentResetCommute(attempts: seq<Attempt>, cutoff: int, email: string)
    ensures Recent(ResetOf(attempts, email), cutoff) == ResetOf(Recent(attempts, cutoff), email)
  {
    if attempts == [] {
    } else {
      var init, last := attempts[..|attempts| - 1], attempts[|attempts| - 1];
      RecentResetCommute(init, cutoff, email);
      var recent, reset := Recent(init, cutoff), ResetOf(init, email);
      assert (recent + [last])[..|recent|] == recent && (reset + [last])[..|reset|] == reset;
      assert recent + [] == recent && reset + [] == reset;
    }
  }

  lemma {:induction false} ResetClears(attempts: seq<Attempt>, email: string, since: int)
    ensures Failures(ResetOf(attempts, email), ByEmail(email), since) == 0
  {
    if attempts == [] {
    } else {
      var init, last := attempts[..|attempts| - 1], attempts[|attempts| - 1];
      ResetClears(init, email, since);
      if last.email == email && !last.success {
        assert ResetOf(init, email) + [] == ResetOf(init, email);
      } else {
        FailuresAppend(ResetOf(init, email), last, ByEmail(email), since);
      }
    }
  }

  lemma {:induction false} ResetSparesOthers(attempts: seq<Attempt>, email: string, other: string, since: int)
    ensures other != email ==> Failures(ResetOf(attempts, email), ByEmail(other), since) == Failures(attempts, ByEmail(other), since)
  {
    if attempts == [] {
    } else {
      var init, last := attempts[..|attempts| - 1], attempts[|attempts| - 1];
      ResetSparesOthers(init, email, other, since);
      if last.email == email && !last.success {
        assert ResetOf(init, email) + [] == ResetOf(init, email);
      } else {
        FailuresAppend(ResetOf(init, email), last, ByEmail(other), since);
      }
    }
  }

  lemma {:induction false} ResetOnAddress(attempts: seq<Attempt>, email: string, remoteIp: string, since: int)
    ensures Failures(ResetOf(attempts, email), ByIp(remoteIp), since) + FailuresOfBoth(attempts, email, remoteIp, since)
      == Failures(attempts, ByIp(remoteIp), since)
  {
    if attempts == [] {
    } else {
      var init, last := attempts[..|attempts| - 1], attempts[|attempts| - 1];
      ResetOnAddress(init, email, remoteIp, since);
      if last.email == email && !last.success {
        assert ResetOf(init, email) + [] == ResetOf(init, email);
      } else {
        FailuresAppend(ResetOf(init, email), last, ByIp(remoteIp), since);
      }
    }
  }

  /** A reset clears its e-mail's count, leaves every other e-mail's, and takes its own failures out of the address counts too. */
  lemma ResetMeaning(attempts: seq<Attempt>, email: string, other: string, remoteIp: string, since: int)
    ensures Failures(ResetOf(attempts, email), ByEmail(email), since) == 0
    ensures other != email ==> Failures(ResetOf(attempts, email), ByEmail(other), since) == Failures(attempts, ByEmail(other), since)
    ensures Failures(ResetOf(attempts, email), ByIp(remoteIp), since)
      == Failures(attempts, ByIp(remoteIp), since) - FailuresOfBoth(attempts, email, remoteIp, since)
  {
    ResetClears(attempts, email, since);
    ResetSparesOthers(attempts, email, other, since);
    ResetOnAddress(attempts, email, remoteIp, since);
  }

  function FailuresOfBoth(attempts: seq<Attempt>, email: string, remoteIp: string, since: int): nat {
    if attempts == [] then 0
    else
      var last := attempts[|attempts| - 1];
      FailuresOfBoth(attempts[..|attempts| - 1], email, remoteIp, since)
      + if Counts(last, ByEmail(email), since) && last.remoteIp == remoteIp then 1 else 0
  }
}
