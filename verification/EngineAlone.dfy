/**
 * What booking and refunding do, end to end: a registration, cancellation, rejection or pardon that
 * nobody interferes with takes effect completely, or not at all, and exactly under the stated conditions.
 */
module EngineAlone {

  import opened Durations
  import opened Outcomes
  import opened Reservations
  import opened Passes
  import opened Activities
  import opened Engine
  import opened EngineInvariant
  import opened EngineLocal
  import opened EngineSerial
  import PendingReasons

  /** Other clients may be in flight, as long as they hold no lock and have written no status. */
  ghost predicate Idle(others: map<int, Session>, client: int) {
    client !in others && forall o :: o in others ==> others[o].locks == {} && others[o].work.statuses == map[]
  }

  /** The client is at the given point of its use case, next to idle others. */
  ghost predicate At(s: State, others: map<int, Session>, client: int, t: Session) {
    Idle(others, client) && client in s.sessions && s.sessions == others[client := t]
  }

  ghost predicate InFlight(s: State, others: map<int, Session>, client: int) {
    client in s.sessions && At(s, others, client, s.sessions[client])
  }

  lemma Undisturbed(s: State, others: map<int, Session>, client: int, t: Session)
    requires At(s, others, client, t)
    ensures Drop(s, client) == s.(sessions := others)
    ensures forall t' :: Put(s, client, t') == s.(sessions := others[client := t'])
    ensures forall l :: Free(s, client, l)
    ensures forall a, d :: !Contested(s, client, a, d)
  {
    assert s.sessions - {client} == others;
  }

  // ---------- Registering ----------

  ghost predicate MayEnter(s: State, job: Job)
    requires job.RegisterJob?
  {
    && job.activityId in s.activities && job.dogId in s.dogs
    && job.now <= s.activities[job.activityId].date && !s.activities[job.activityId].closed
    && VerdictOn(s, job).Success?
  }

  /** The pass is there, usable, the caller's own and, under an override, the dog owner's. */
  predicate MayPay(s: State, job: Job)
    requires job.RegisterJob?
  {
    && job.passId in s.passes
    && var row := s.passes[job.passId];
      && (job.admin || row.userId == job.userId) && row.remaining > 0 && (row.expiresAt.None? || job.now <= row.expiresAt.value)
      && (job.admin && job.dogId in s.dogs ==> s.dogs[job.dogId].userId == row.userId)
  }

  ghost predicate NotBookedYet(s: State, job: Job)
    requires job.RegisterJob?
  {
    forall r :: !HasSlot(s.rows, r, job.activityId, job.dogId)
  }

  ghost predicate Bookable(s: State, job: Job)
    requires job.RegisterJob?
  {
    MayEnter(s, job) && MayPay(s, job) && NotBookedYet(s, job)
  }

  function Consumed(row: PassRow, version: int): PassRow {
    row.(remaining := row.remaining - 1, version := version)
  }

  function BookingOf(job: Job, status: Status): ReservationRow
    requires job.RegisterJob?
  {
    ReservationRow(job.activityId, job.dogId, job.passId, status)
  }

  function BookingMovement(job: Job): Movement
    requires job.RegisterJob?
  {
    Movement(job.passId, -1, Booked(job.activityId, job.dogId))
  }

  /**
   * One session less, its movement, and a new reservation in the status of the verdict, with the reasons
   * it is held for, if it is.
   */
  ghost function Booking(s: State, job: Job): State
    requires job.RegisterJob? && Bookable(s, job)
  {
    var p, row, reasons := job.passId, BookingOf(job, VerdictOn(s, job).value), ReasonsOn(s, job);
    s.(passes := s.passes[p := Consumed(s.passes[p], s.clock)],
       rows := s.rows[s.nextId := row],
       movements := s.movements + [BookingMovement(job)],
       reasons := if row.status == PendingToConfirm && reasons != [] then PendingReasons.Saved(s.reasons, s.nextId, reasons) else s.reasons,
       ever := s.ever[s.nextId := row],
       byAdmin := if job.admin then s.byAdmin + {s.nextId} else s.byAdmin,
       nextId := s.nextId + 1, clock := s.clock + 1)
  }

  /** No table has changed, and everybody else is where they were. */
  ghost predicate Refusal(s: State, x: State) {
    x == s.(clock := x.clock, nextId := x.nextId)
  }

  lemma LockAlone(s: State, others: map<int, Session>, client: int, t: Session, good: iset<State>) returns (next: State)
    requires Backward(good, client)
    requires At(s, others, client, t) && t.phase == Begin && t.job.RegisterJob?
    ensures (next in good ==> s in good) && next == s.(sessions := next.sessions)
    ensures var a := t.job.activityId;
      if a in s.activities && !IsInThePast(s.activities[a], t.job.now) && !s.activities[a].closed then
        At(next, others, client, t.(phase := ActivityLocked, locks := t.locks + {OnActivity(a)}))
      else next.sessions == others
  {
    next := Step(s, Proceed(client));
    Undisturbed(s, others, client, t);
  }

  lemma AdmitAlone(s: State, others: map<int, Session>, client: int, t: Session, good: iset<State>) returns (next: State)
    requires Backward(good, client)
    requires At(s, others, client, t) && t.phase == ActivityLocked && t.job.RegisterJob? && t.job.activityId in s.activities
    ensures (next in good ==> s in good) && next == s.(sessions := next.sessions)
    ensures if t.job.dogId in s.dogs && VerdictOn(s, t.job).Success? then
        At(next, others, client, t.(phase := Admitted, target := VerdictOn(s, t.job).value, reasons := ReasonsOn(s, t.job)))
      else next.sessions == others
  {
    next := Step(s, Proceed(client));
    Undisturbed(s, others, client, t);
    assert next == AdmitDog(s, client, t);
  }

  lemma AdmittedReadsThePass(s: State, client: int, t: Session)
    requires client in s.sessions && s.sessions[client] == t && t.phase == Admitted
    ensures Step(s, Proceed(client)) == LoadPass(s, client, t)
  {}

  lemma ReadsThePass(s: State, client: int, t: Session)
    requires t.phase == Admitted && t.job.RegisterJob? && Free(s, client, OnPass(t.job.passId))
    ensures LoadPass(s, client, t) ==
      if MayPay(s, t.job) then
        Put(s, client, t.(phase := PassRead, pass := Some(s.passes[t.job.passId]),
                          locks := if t.forUpdate then t.locks + {OnPass(t.job.passId)} else t.locks))
      else Drop(s, client)
  {}

  lemma PayAlone(s: State, others: map<int, Session>, client: int, t: Session, good: iset<State>) returns (next: State)
    requires Backward(good, client)
    requires At(s, others, client, t) && t.phase == Admitted && t.job.RegisterJob?
    ensures (next in good ==> s in good) && next == s.(sessions := next.sessions)
    ensures if MayPay(s, t.job) then
        At(next, others, client, t.(phase := PassRead, pass := Some(s.passes[t.job.passId]),
                                    locks := if t.forUpdate then t.locks + {OnPass(t.job.passId)} else t.locks))
      else next.sessions == others
  {
    next := LoadPass(s, client, t);
    AdmittedReadsThePass(s, client, t);
    Undisturbed(s, others, client, t);
    ReadsThePass(s, client, t);
  }

  lemma ConsumeAlone(s: State, others: map<int, Session>, client: int, t: Session, good: iset<State>) returns (next: State)
    requires Backward(good, client)
    requires At(s, others, client, t) && t.phase == PassRead && t.job.RegisterJob? && MayPay(s, t.job)
    requires t.pass == Some(s.passes[t.job.passId]) && t.work == NO_WORK
    ensures (next in good ==> s in good) && next == s.(sessions := next.sessions, clock := s.clock + 1)
    ensures At(next, others, client, t.(phase := PassWritten, locks := t.locks + {OnPass(t.job.passId)},
        work := NO_WORK.(pass := Some(Consumed(s.passes[t.job.passId], s.clock)), movements := [BookingMovement(t.job)])))
  {
    next := Step(s, Proceed(client));
    Undisturbed(s, others, client, t);
    assert PassEditOf(t) == Write(Ledger(t.pass.value.(remaining := t.pass.value.remaining - 1), [BookingMovement(t.job)]));
  }

  lemma InsertAlone(s: State, others: map<int, Session>, client: int, t: Session, good: iset<State>) returns (next: State)
    requires Backward(good, client)
    requires At(s, others, client, t) && t.phase == PassWritten && t.job.RegisterJob?
    ensures next in good ==> s in good
    ensures if NotBookedYet(s, t.job) then
        && next == s.(sessions := next.sessions, nextId := s.nextId + 1)
        && At(next, others, client, t.(phase := Ready, locks := t.locks + {OnReservation(s.nextId)},
             work := t.work.(inserted := Some((s.nextId, BookingOf(t.job, t.target))))))
      else next == s.(sessions := others)
  {
    next := Step(s, Proceed(client));
    Undisturbed(s, others, client, t);
  }

  lemma CommitBookingAlone(s: State, others: map<int, Session>, client: int, t: Session, good: iset<State>) returns (next: State)
    requires Backward(good, client)
    requires At(s, others, client, t) && t.phase == Ready && t.job.RegisterJob?
    requires t.work.statuses == map[] && !t.work.closes && t.work.pass.Some? && t.work.inserted.Some?
    ensures next in good ==> s in good
    ensures next == s.(sessions := others,
      passes := s.passes[t.job.passId := t.work.pass.value],
      rows := s.rows[t.work.inserted.value.0 := t.work.inserted.value.1],
      movements := s.movements + t.work.movements,
      reasons := WithReasons(s.reasons, t),
      ever := s.ever[t.work.inserted.value.0 := t.work.inserted.value.1],
      byAdmin := if t.job.admin then s.byAdmin + {t.work.inserted.value.0} else s.byAdmin)
  {
    next := Step(s, Proceed(client));
    Undisturbed(s, others, client, t);
    assert Merge(s.rows, t.work.statuses) == s.rows && Merge(s.ever, t.work.statuses) == s.ever;
  }

  /** A state among the good ones, if the registration comes to its end: booked, or refused. */
  ghost predicate EndsWell(s: State, job: Job, good: iset<State>)
    requires job.RegisterJob?
  {
    if Bookable(s, job) then Booking(s, job) in good else forall x :: Refusal(s, x) ==> x in good
  }

  /** The second half, from a pass that may pay; s0 is the state before the registration. */
  lemma PaidReaches(s0: State, s: State, client: int, t: Session, good: iset<State>)
    requires s == s0.(sessions := s.sessions) && At(s, s0.sessions, client, t)
    requires t.phase == PassRead && t.job.RegisterJob? && MayEnter(s0, t.job) && MayPay(s0, t.job)
    requires t.pass == Some(s0.passes[t.job.passId]) && t.work == NO_WORK
    requires t.target == VerdictOn(s0, t.job).value && t.reasons == ReasonsOn(s0, t.job)
    requires Backward(good, client) && EndsWell(s0, t.job, good)
    ensures s in good
  {
    var written := ConsumeAlone(s, s0.sessions, client, t, good);
    InsertReaches(s0, written, client, written.sessions[client], good);
  }

  lemma InsertReaches(s0: State, s: State, client: int, t: Session, good: iset<State>)
    requires s == s0.(sessions := s.sessions, clock := s0.clock + 1) && At(s, s0.sessions, client, t)
    requires t.phase == PassWritten && t.job.RegisterJob? && MayEnter(s0, t.job) && MayPay(s0, t.job)
    requires t.work == NO_WORK.(pass := Some(Consumed(s0.passes[t.job.passId], s0.clock)), movements := [BookingMovement(t.job)])
    requires t.target == VerdictOn(s0, t.job).value && t.reasons == ReasonsOn(s0, t.job)
    requires Backward(good, client) && EndsWell(s0, t.job, good)
    ensures s in good
  {
    var inserted := InsertAlone(s, s0.sessions, client, t, good);
    if NotBookedYet(s, t.job) {
      assert NotBookedYet(s0, t.job);
      CommitReaches(s0, inserted, client, inserted.sessions[client], good);
    } else {
      assert !NotBookedYet(s0, t.job);
      assert Refusal(s0, inserted);
    }
  }

  lemma CommitReaches(s0: State, s: State, client: int, t: Session, good: iset<State>)
    requires s == s0.(sessions := s.sessions, clock := s0.clock + 1, nextId := s0.nextId + 1) && At(s, s0.sessions, client, t)
    requires t.phase == Ready && t.job.RegisterJob? && Bookable(s0, t.job)
    requires t.work == NO_WORK.(pass := Some(Consumed(s0.passes[t.job.passId], s0.clock)), movements := [BookingMovement(t.job)],
                                inserted := Some((s0.nextId, BookingOf(t.job, t.target))))
    requires t.target == VerdictOn(s0, t.job).value && t.reasons == ReasonsOn(s0, t.job)
    requires Backward(good, client) && Booking(s0, t.job) in good
    ensures s in good
  {
    var done := CommitBookingAlone(s, s0.sessions, client, t, good);
    assert done == Booking(s0, t.job);
  }

  lemma RegisterReaches(s: State, client: int, job: Job, forUpdate: bool, good: iset<State>)
    requires job.RegisterJob? && Idle(s.sessions, client)
    requires Backward(good, client) && EndsWell(s, job, good)
    ensures Put(s, client, NewSession(job, forUpdate)) in good
  {
    var begun := Put(s, client, NewSession(job, forUpdate));
    var locked := LockAlone(begun, s.sessions, client, NewSession(job, forUpdate), good);
    if client !in locked.sessions {
      assert Refusal(s, locked);
    } else {
      var admitted := AdmitAlone(locked, s.sessions, client, locked.sessions[client], good);
      if client !in admitted.sessions {
        assert Refusal(s, admitted);
      } else {
        AdmittedReaches(s, admitted, client, admitted.sessions[client], good);
      }
    }
  }

  lemma AdmittedReaches(s0: State, s: State, client: int, t: Session, good: iset<State>)
    requires s == s0.(sessions := s.sessions) && At(s, s0.sessions, client, t)
    requires t.phase == Admitted && t.job.RegisterJob? && MayEnter(s0, t.job) && t.work == NO_WORK
    requires t.target == VerdictOn(s0, t.job).value && t.reasons == ReasonsOn(s0, t.job)
    requires Backward(good, client) && EndsWell(s0, t.job, good)
    ensures s in good
  {
    var read := PayAlone(s, s0.sessions, client, t, good);
    if client !in read.sessions {
      assert Refusal(s0, read);
    } else {
      PaidReaches(s0, read, client, read.sessions[client], good);
    }
  }

  ghost function BookingOrRefusal(s: State, job: Job): iset<State>
    requires job.RegisterJob?
  {
    if Bookable(s, job) then iset{Booking(s, job)} else iset x | Refusal(s, x)
  }

  /**
   * A registration that nobody interferes with terminates; exactly if it is bookable it takes one
   * session, records it, inserts the reservation in the status of the admission verdict and saves the
   * reasons it is held for, all at once. Otherwise no table changes.
   */
  lemma RegisterAlone(s: State, client: int, job: Job, forUpdate: bool)
    requires job.RegisterJob? && Idle(s.sessions, client)
    ensures RunsTo(Step(s, Start(client, job, forUpdate)), client, BookingOrRefusal(s, job))
  {
    RunsToIsBackward(client, BookingOrRefusal(s, job));
    RegisterReaches(s, client, job, forUpdate, iset x | RunsTo(x, client, BookingOrRefusal(s, job)));
  }

  // ---------- Cancelling, rejecting, forgiving ----------

  function Row(s: State, job: Job): ReservationRow
    requires ReservationIdOf(job) in s.rows
  {
    s.rows[ReservationIdOf(job)]
  }

  /** The policy and the state machine allow it; a cancelling client must also own the pass, which must exist. */
  predicate Releasable(s: State, job: Job)
    requires Refunding(job)
  {
    && ReservationIdOf(job) in s.rows && TargetOf(s, job, Row(s, job)).Some?
    && (job.CancelJob? ==>
          Row(s, job).passId in s.passes && (job.admin || s.passes[Row(s, job).passId].userId == job.userId))
  }

  /** A late cancellation gives nothing back; everything else does if there is a pass and something to give back. */
  predicate GivesBack(s: State, job: Job)
    requires Refunding(job) && Releasable(s, job)
  {
    && Row(s, job).passId in s.passes && CanRefund(s.passes[Row(s, job).passId])
    && (job.CancelJob? ==> TargetOf(s, job, Row(s, job)).value == CancelledInTime)
  }

  function RefundReason(job: Job): Reason {
    match job
    case CancelJob(r, _, _, _) => RefundedInTime(r)
    case RejectJob(r) => RefundedRejection(r)
    case ForgiveJob(r) => RefundedForgiveness(r)
    case _ => Blank
  }

  function GivenBack(row: PassRow, version: int): PassRow {
    row.(remaining := row.remaining + 1, version := version)
  }

  /** The new status, and one session back with its movement if one is given back. */
  function Release(s: State, job: Job): State
    requires Refunding(job) && Releasable(s, job)
  {
    var row, target := Row(s, job), TargetOf(s, job, Row(s, job)).value;
    var released := s.(rows := s.rows[ReservationIdOf(job) := row.(status := target)],
                       ever := Merge(s.ever, map[ReservationIdOf(job) := target]));
    if !GivesBack(s, job) then released
    else released.(
      passes := s.passes[row.passId := GivenBack(s.passes[row.passId], s.clock)],
      movements := s.movements + [Movement(row.passId, 1, RefundReason(job))], clock := s.clock + 1)
  }

  lemma BeginsByLoading(s: State, client: int, t: Session)
    requires client in s.sessions && s.sessions[client] == t && t.phase == Begin && (Refunding(t.job) || Moving(t.job))
    ensures Step(s, Proceed(client)) == LoadReservation(s, client, t)
  {}

  lemma LoadAlone(s: State, others: map<int, Session>, client: int, t: Session, good: iset<State>) returns (next: State)
    requires Backward(good, client)
    requires At(s, others, client, t) && t.phase == Begin && (Refunding(t.job) || Moving(t.job))
    ensures (next in good ==> s in good) && next == s.(sessions := next.sessions)
    ensures if ReservationIdOf(t.job) in s.rows && TargetOf(s, t.job, Row(s, t.job)).Some? then
        && InFlight(next, others, client)
        && next.sessions[client] == t.(phase := ReservationRead, target := TargetOf(s, t.job, Row(s, t.job)).value,
             seen := Some(Row(s, t.job)), locks := next.sessions[client].locks)
      else next.sessions == others
  {
    next := LoadReservation(s, client, t);
    BeginsByLoading(s, client, t);
    Undisturbed(s, others, client, t);
  }

  lemma LoadedReadsThePass(s: State, client: int, t: Session)
    requires client in s.sessions && s.sessions[client] == t && t.phase == ReservationRead && Refunding(t.job)
    ensures Step(s, Proceed(client)) == LoadPass(s, client, t)
  {}

  /** The client after reading the pass of its reservation, or nobody if it may not go on. */
  function Reading(s: State, t: Session): Option<Session> {
    var p := PassIdOf(t);
    if p !in s.passes then if t.job.CancelJob? then None else Some(t.(phase := PassWritten))
    else if t.job.CancelJob? && !t.job.admin && s.passes[p].userId != t.job.userId then None
    else Some(t.(phase := PassRead, pass := Some(s.passes[p]), locks := if t.forUpdate then t.locks + {OnPass(p)} else t.locks))
  }

  lemma ReadsTheRefundedPass(s: State, client: int, t: Session)
    requires Refunding(t.job) && t.phase == ReservationRead && Free(s, client, OnPass(PassIdOf(t)))
    ensures LoadPass(s, client, t) == if Reading(s, t).Some? then Put(s, client, Reading(s, t).value) else Drop(s, client)
  {}

  lemma LoadPassAlone(s: State, others: map<int, Session>, client: int, t: Session, good: iset<State>) returns (next: State)
    requires Backward(good, client)
    requires At(s, others, client, t) && t.phase == ReservationRead && Refunding(t.job)
    ensures (next in good ==> s in good) && next == s.(sessions := next.sessions)
    ensures if Reading(s, t).Some? then At(next, others, client, Reading(s, t).value) else next.sessions == others
  {
    next := if Reading(s, t).Some? then Put(s, client, Reading(s, t).value) else Drop(s, client);
    LoadedReadsThePass(s, client, t);
    Undisturbed(s, others, client, t);
    ReadsTheRefundedPass(s, client, t);
    assert Step(s, Proceed(client)) in good ==> s in good;
  }

  lemma RefundEdit(s: State, t: Session)
    requires Refunding(t.job) && Releasable(s, t.job) && t.seen == Some(Row(s, t.job)) && Row(s, t.job).passId in s.passes
    requires t.pass == Some(s.passes[Row(s, t.job).passId]) && t.target == TargetOf(s, t.job, Row(s, t.job)).value
    ensures var row := t.pass.value;
      PassEditOf(t) == if GivesBack(s, t.job) then
        Write(Ledger(row.(remaining := row.remaining + 1), [Movement(Row(s, t.job).passId, 1, RefundReason(t.job))])) else Nothing
  {}

  lemma RefundPassAlone(s: State, others: map<int, Session>, client: int, t: Session, good: iset<State>) returns (next: State)
    requires Backward(good, client)
    requires At(s, others, client, t) && t.phase == PassRead && Refunding(t.job) && Releasable(s, t.job)
    requires t.seen == Some(Row(s, t.job)) && Row(s, t.job).passId in s.passes && t.work == NO_WORK
    requires t.pass == Some(s.passes[Row(s, t.job).passId]) && t.target == TargetOf(s, t.job, Row(s, t.job)).value
    ensures next in good ==> s in good
    ensures next == s.(sessions := next.sessions, clock := if GivesBack(s, t.job) then s.clock + 1 else s.clock)
    ensures InFlight(next, others, client)
    ensures var p := Row(s, t.job).passId;
      next.sessions[client] == t.(phase := PassWritten, locks := next.sessions[client].locks,
        work := if GivesBack(s, t.job) then
            NO_WORK.(pass := Some(GivenBack(s.passes[p], s.clock)), movements := [Movement(p, 1, RefundReason(t.job))])
          else NO_WORK)
  {
    next := Step(s, Proceed(client));
    Undisturbed(s, others, client, t);
    RefundEdit(s, t);
    assert next == StoreEdit(s, client, t, PassEditOf(t), t.pass.value.version);
  }

  lemma StatusAlone(s: State, others: map<int, Session>, client: int, t: Session, good: iset<State>) returns (next: State)
    requires Backward(good, client)
    requires At(s, others, client, t) && ((t.phase == PassWritten && Refunding(t.job)) || (t.phase == ReservationRead && Moving(t.job)))
    requires ReservationIdOf(t.job) in s.rows && t.seen == Some(Row(s, t.job))
    ensures (next in good ==> s in good) && next == s.(sessions := next.sessions) && InFlight(next, others, client)
    ensures next.sessions[client] == t.(phase := Ready, locks := next.sessions[client].locks,
      work := t.work.(statuses := map[ReservationIdOf(t.job) := t.target]))
  {
    next := Step(s, Proceed(client));
    Undisturbed(s, others, client, t);
  }

  lemma CommitReleaseAlone(s: State, others: map<int, Session>, client: int, t: Session, good: iset<State>) returns (next: State)
    requires Backward(good, client)
    requires At(s, others, client, t) && t.phase == Ready && (Refunding(t.job) || Moving(t.job)) && ReservationIdOf(t.job) in s.rows
    requires t.work.statuses == map[ReservationIdOf(t.job) := t.target] && !t.work.closes && t.work.inserted.None?
    ensures next in good ==> s in good
    ensures next == s.(sessions := others, movements := s.movements + t.work.movements,
      passes := if t.work.pass.Some? then s.passes[PassIdOf(t) := t.work.pass.value] else s.passes,
      rows := s.rows[ReservationIdOf(t.job) := Row(s, t.job).(status := t.target)],
      ever := Merge(s.ever, t.work.statuses))
  {
    next := Step(s, Proceed(client));
    Undisturbed(s, others, client, t);
    assert Merge(s.rows, t.work.statuses) == s.rows[ReservationIdOf(t.job) := Row(s, t.job).(status := t.target)];
  }

  /** The second half, once the pass has been dealt with. */
  lemma ReleasedReaches(s: State, others: map<int, Session>, client: int, t: Session, goal: State, good: iset<State>)
    requires At(s, others, client, t) && t.phase == PassWritten && Refunding(t.job) && ReservationIdOf(t.job) in s.rows
    requires t.seen == Some(Row(s, t.job)) && t.work == NO_WORK.(pass := t.work.pass, movements := t.work.movements)
    requires goal == s.(sessions := others,
      rows := s.rows[ReservationIdOf(t.job) := Row(s, t.job).(status := t.target)],
      ever := Merge(s.ever, map[ReservationIdOf(t.job) := t.target]),
      passes := if t.work.pass.Some? then s.passes[PassIdOf(t) := t.work.pass.value] else s.passes,
      movements := s.movements + t.work.movements)
    requires Backward(good, client) && goal in good
    ensures s in good
  {
    var ready := StatusAlone(s, others, client, t, good);
    var done := CommitReleaseAlone(ready, others, client, ready.sessions[client], good);
    assert done == goal;
  }

  /** From the pass as read, or found missing; s0 is the state before the use case. */
  lemma PassDealtWith(s0: State, s: State, client: int, t: Session, good: iset<State>)
    requires s == s0.(sessions := s.sessions) && At(s, s0.sessions, client, t)
    requires Refunding(t.job) && t.work == NO_WORK && Releasable(s0, t.job)
    requires t.seen == Some(Row(s0, t.job)) && t.target == TargetOf(s0, t.job, Row(s0, t.job)).value
    requires if Row(s0, t.job).passId in s0.passes then t.phase == PassRead && t.pass == Some(s0.passes[Row(s0, t.job).passId])
             else t.phase == PassWritten
    requires Backward(good, client) && Release(s0, t.job) in good
    ensures s in good
  {
    assert s.movements + [] == s.movements;
    if t.phase == PassRead {
      SameRelease(s0, s, t.job);
      var written := RefundPassAlone(s, s0.sessions, client, t, good);
      ReleasedReaches(written, s0.sessions, client, written.sessions[client], Release(s0, t.job), good);
    } else {
      ReleasedReaches(s, s0.sessions, client, t, Release(s0, t.job), good);
    }
  }

  lemma SameRelease(s0: State, s: State, job: Job)
    requires s == s0.(sessions := s.sessions) && Refunding(job) && Releasable(s0, job)
    ensures Releasable(s, job) && Row(s, job) == Row(s0, job) && GivesBack(s, job) == GivesBack(s0, job)
    ensures TargetOf(s, job, Row(s, job)) == TargetOf(s0, job, Row(s0, job))
  {}

  /** A state among the good ones, if the use case comes to its end: released, or refused. */
  ghost predicate ReleasesWell(s: State, job: Job, good: iset<State>)
    requires Refunding(job)
  {
    if Releasable(s, job) then Release(s, job) in good else s in good
  }

  lemma RefundReaches(s: State, client: int, job: Job, forUpdate: bool, good: iset<State>)
    requires Refunding(job) && Idle(s.sessions, client)
    requires Backward(good, client) && ReleasesWell(s, job, good)
    ensures Put(s, client, NewSession(job, forUpdate)) in good
  {
    var begun := Put(s, client, NewSession(job, forUpdate));
    var loaded := LoadAlone(begun, s.sessions, client, NewSession(job, forUpdate), good);
    if client !in loaded.sessions {
      assert loaded == s;
    } else {
      var t := loaded.sessions[client];
      var read := LoadPassAlone(loaded, s.sessions, client, t, good);
      assert Releasable(s, job) <==> Reading(loaded, t).Some?;
      if client !in read.sessions {
        assert read == s;
      } else {
        PassDealtWith(s, read, client, read.sessions[client], good);
      }
    }
  }

  /**
   * A cancellation, rejection or pardon that nobody interferes with terminates; exactly if it is allowed
   * it moves the status and gives the session back where one is due, all at once. Otherwise nothing
   * changes.
   */
  lemma RefundAlone(s: State, client: int, job: Job, forUpdate: bool)
    requires Refunding(job) && Idle(s.sessions, client)
    ensures RunsTo(Step(s, Start(client, job, forUpdate)), client, iset{if Releasable(s, job) then Release(s, job) else s})
  {
    var goal := iset{if Releasable(s, job) then Release(s, job) else s};
    RunsToIsBackward(client, goal);
    RefundReaches(s, client, job, forUpdate, iset x | RunsTo(x, client, goal));
  }

  /**
   * A cancellation that takes effect comes before the activity begins. At least two hours before, it
   * leaves the pass with one session more and the reservation CANCELLED_IN_TIME; later, it leaves the
   * pass and the movements alone and the reservation CANCELLED_LATE.
   */
  lemma CancellationInFull(s: State, job: Job)
    requires TablesOk(s) && job.CancelJob? && Releasable(s, job)
    ensures var r, after := job.reservationId, Release(s, job);
      && s.rows[r].status == Confirmed && s.rows[r].activityId in s.activities && s.rows[r].passId in s.passes
      && var date, p := s.activities[s.rows[r].activityId].date, s.rows[r].passId;
        && job.now <= date
        && if date - job.now >= 2 * HOUR then
             && after.passes == s.passes[p := s.passes[p].(remaining := s.passes[p].remaining + 1, version := s.clock)]
             && after.movements == s.movements + [Movement(p, 1, RefundedInTime(r))]
             && after.rows == s.rows[r := s.rows[r].(status := CancelledInTime)]
           else
             && after.passes == s.passes && after.movements == s.movements
             && after.rows == s.rows[r := s.rows[r].(status := CancelledLate)]
  {
    var r := job.reservationId;
    assert s.ever[r] == s.rows[r];
    if !CanRefund(s.passes[s.rows[r].passId]) {
      NothingToRefundMeansUncharged(s, r);
    }
  }

  // ---------- Confirming, completing, marking a no-show ----------

  predicate Movable(s: State, job: Job)
    requires Moving(job)
  {
    ReservationIdOf(job) in s.rows && TargetOf(s, job, Row(s, job)).Some?
  }

  /** The new status, and nothing else. */
  function Move(s: State, job: Job): State
    requires Moving(job) && Movable(s, job)
  {
    var r, target := ReservationIdOf(job), TargetOf(s, job, Row(s, job)).value;
    s.(rows := s.rows[r := Row(s, job).(status := target)], ever := Merge(s.ever, map[r := target]))
  }

  lemma MovedReaches(s0: State, s: State, client: int, t: Session, good: iset<State>)
    requires s == s0.(sessions := s.sessions) && At(s, s0.sessions, client, t)
    requires t.phase == ReservationRead && Moving(t.job) && t.work == NO_WORK && Movable(s0, t.job)
    requires t.seen == Some(Row(s0, t.job)) && t.target == TargetOf(s0, t.job, Row(s0, t.job)).value
    requires Backward(good, client) && Move(s0, t.job) in good
    ensures s in good
  {
    var ready := StatusAlone(s, s0.sessions, client, t, good);
    var done := CommitReleaseAlone(ready, s0.sessions, client, ready.sessions[client], good);
    assert s.movements + [] == s.movements;
    assert done == Move(s0, t.job);
  }

  ghost predicate MovesWell(s: State, job: Job, good: iset<State>)
    requires Moving(job)
  {
    if Movable(s, job) then Move(s, job) in good else s in good
  }

  lemma MoveReaches(s: State, client: int, job: Job, forUpdate: bool, good: iset<State>)
    requires Moving(job) && Idle(s.sessions, client)
    requires Backward(good, client) && MovesWell(s, job, good)
    ensures Put(s, client, NewSession(job, forUpdate)) in good
  {
    var begun := Put(s, client, NewSession(job, forUpdate));
    var loaded := LoadAlone(begun, s.sessions, client, NewSession(job, forUpdate), good);
    if client !in loaded.sessions {
      assert loaded == s;
    } else {
      MovedReaches(s, loaded, client, loaded.sessions[client], good);
    }
  }

  /** A confirmation, completion or no-show that nobody interferes with takes effect exactly if it is allowed. */
  lemma MoveAlone(s: State, client: int, job: Job, forUpdate: bool)
    requires Moving(job) && Idle(s.sessions, client)
    ensures RunsTo(Step(s, Start(client, job, forUpdate)), client, iset{if Movable(s, job) then Move(s, job) else s})
  {
    var goal := iset{if Movable(s, job) then Move(s, job) else s};
    RunsToIsBackward(client, goal);
    MoveReaches(s, client, job, forUpdate, iset x | RunsTo(x, client, goal));
  }

  // ---------- Patching a pass ----------

  /** The pass is there, something is given, and what is given is acceptable. */
  predicate Patchable(s: State, job: Job)
    requires job.PatchPassJob?
  {
    var patch := job.patch;
    && job.passId in s.passes
    && (patch.price.Some? || patch.passType.Some? || patch.expiresAt.Some? || patch.isPaid.Some?)
    && (patch.price.Some? ==> patch.price.value >= 0) && (patch.expiresAt.Some? ==> patch.expiresAt.value != 0)
  }

  /** The given fields are replaced; owner, size and counter stay. */
  function Patch(s: State, job: Job): State
    requires job.PatchPassJob? && Patchable(s, job)
  {
    var row, patch := s.passes[job.passId], job.patch;
    s.(passes := s.passes[job.passId := PassRow(
         row.userId, row.numOfSessions, row.remaining,
         if patch.price.Some? then patch.price.value else row.price,
         if patch.passType.Some? then patch.passType.value else row.passType,
         if patch.expiresAt.Some? then patch.expiresAt else row.expiresAt,
         if patch.isPaid.Some? then patch.isPaid.value else row.isPaid, s.clock)],
       clock := s.clock + 1)
  }

  lemma ReadPassAlone(s: State, others: map<int, Session>, client: int, t: Session, good: iset<State>) returns (next: State)
    requires Backward(good, client)
    requires At(s, others, client, t) && t.phase == Begin && t.job.PatchPassJob?
    ensures (next in good ==> s in good) && next == s.(sessions := next.sessions)
    ensures if t.job.passId in s.passes then At(next, others, client, t.(phase := PassRead, pass := Some(s.passes[t.job.passId])))
      else next.sessions == others
  {
    next := LoadPass(s, client, t);
    assert next == Step(s, Proceed(client));
    Undisturbed(s, others, client, t);
  }

  lemma PatchEdit(s: State, t: Session)
    requires t.job.PatchPassJob? && t.job.passId in s.passes && t.pass == Some(s.passes[t.job.passId])
    ensures PassEditOf(t) == if Patchable(s, t.job) then
      Write(Ledger(Patch(s, t.job).passes[t.job.passId].(version := t.pass.value.version), [])) else Refused
  {}

  lemma WritePatchAlone(s: State, others: map<int, Session>, client: int, t: Session, good: iset<State>) returns (next: State)
    requires Backward(good, client)
    requires At(s, others, client, t) && t.phase == PassRead && t.job.PatchPassJob? && t.job.passId in s.passes
    requires t.pass == Some(s.passes[t.job.passId]) && t.work == NO_WORK
    ensures next in good ==> s in good
    ensures if Patchable(s, t.job) then
        && next == s.(sessions := next.sessions, clock := s.clock + 1)
        && At(next, others, client, t.(phase := Ready, locks := t.locks + {OnPass(t.job.passId)},
             work := NO_WORK.(pass := Some(Patch(s, t.job).passes[t.job.passId]))))
      else next == s.(sessions := others)
  {
    PatchEdit(s, t);
    var edit := PassEditOf(t);
    next := StoreEdit(s, client, t, edit, t.pass.value.version);
    assert next == Step(s, Proceed(client));
    Undisturbed(s, others, client, t);
  }

  lemma CommitPatchAlone(s: State, others: map<int, Session>, client: int, t: Session, good: iset<State>) returns (next: State)
    requires Backward(good, client)
    requires At(s, others, client, t) && t.phase == Ready && t.job.PatchPassJob? && t.work == NO_WORK.(pass := t.work.pass)
    requires t.work.pass.Some?
    ensures next in good ==> s in good
    ensures next == s.(sessions := others, passes := s.passes[t.job.passId := t.work.pass.value])
  {
    next := Commit(s, client, t);
    assert next == Step(s, Proceed(client));
    Undisturbed(s, others, client, t);
    assert Merge(s.rows, map[]) == s.rows && Merge(s.ever, map[]) == s.ever && s.movements + [] == s.movements;
  }

  lemma PatchReaches(s: State, client: int, job: Job, forUpdate: bool, good: iset<State>)
    requires job.PatchPassJob? && Idle(s.sessions, client)
    requires Backward(good, client) && if Patchable(s, job) then Patch(s, job) in good else s in good
    ensures Put(s, client, NewSession(job, forUpdate)) in good
  {
    var begun := Put(s, client, NewSession(job, forUpdate));
    var read := ReadPassAlone(begun, s.sessions, client, NewSession(job, forUpdate), good);
    if client !in read.sessions {
      assert read == s;
    } else {
      var written := WritePatchAlone(read, s.sessions, client, read.sessions[client], good);
      if !Patchable(s, job) {
        assert written == s;
      } else {
        var done := CommitPatchAlone(written, s.sessions, client, written.sessions[client], good);
        assert done == Patch(s, job);
      }
    }
  }

  /** A patch of a pass that nobody interferes with replaces exactly the given fields, or changes nothing. */
  lemma PatchAlone(s: State, client: int, job: Job, forUpdate: bool)
    requires job.PatchPassJob? && Idle(s.sessions, client)
    ensures RunsTo(Step(s, Start(client, job, forUpdate)), client, iset{if Patchable(s, job) then Patch(s, job) else s})
  {
    var goal := iset{if Patchable(s, job) then Patch(s, job) else s};
    RunsToIsBackward(client, goal);
    PatchReaches(s, client, job, forUpdate, iset x | RunsTo(x, client, goal));
  }

  // ---------- Deleting an activity ----------

  /** The activity is there, and nobody has a place in it. */
  ghost predicate Deletable(s: State, job: Job)
    requires job.DeleteActivityJob?
  {
    && job.activityId in s.activities
    && forall r :: r in s.rows && s.rows[r].activityId == job.activityId ==> s.rows[r].status != Confirmed && s.rows[r].status != PendingToConfirm
  }

  /** The activity goes with its reservations and their reasons; everything else stays. */
  function Deletion(s: State, job: Job): State
    requires job.DeleteActivityJob?
  {
    s.(activities := map a | a in s.activities && a != job.activityId :: s.activities[a],
       rows := map r | r in s.rows && s.rows[r].activityId != job.activityId :: s.rows[r],
       reasons := map k | k in s.reasons && !(k.0 in s.rows && s.rows[k.0].activityId == job.activityId) :: s.reasons[k])
  }

  lemma GuardAlone(s: State, others: map<int, Session>, client: int, t: Session, good: iset<State>) returns (next: State)
    requires Backward(good, client)
    requires At(s, others, client, t) && t.phase == Begin && t.job.DeleteActivityJob?
    ensures (next in good ==> s in good) && next == s.(sessions := next.sessions)
    ensures if Holders(s.rows, t.job.activityId) == {} then At(next, others, client, t.(phase := Guarded)) else next.sessions == others
  {
    next := GuardDelete(s, client, t);
    assert next == Step(s, Proceed(client));
    Undisturbed(s, others, client, t);
  }

  lemma BeginDeleteAlone(s: State, others: map<int, Session>, client: int, t: Session, good: iset<State>) returns (next: State)
    requires Backward(good, client)
    requires At(s, others, client, t) && t.phase == Guarded && t.job.DeleteActivityJob?
    ensures (next in good ==> s in good) && next == s.(sessions := next.sessions)
    ensures if t.job.activityId in s.activities then
        && InFlight(next, others, client)
        && next.sessions[client] == t.(phase := Deleting, todo := next.sessions[client].todo, locks := next.sessions[client].locks)
      else next.sessions == others
  {
    next := BeginDelete(s, client, t);
    assert next == Step(s, Proceed(client));
    Undisturbed(s, others, client, t);
  }

  lemma {:induction false} CascadeAlone(s: State, others: map<int, Session>, client: int, t: Session, good: iset<State>)
    requires Backward(good, client)
    requires At(s, others, client, t) && t.phase == Deleting && t.job.DeleteActivityJob?
    requires Deletion(s.(sessions := others), t.job) in good
    ensures s in good
    decreases |t.todo|
  {
    Undisturbed(s, others, client, t);
    if t.todo == [] {
      var next := DeleteRow(s, client, t);
      assert next == Step(s, Proceed(client));
      DeletionIsWhatGoes(s, others, client, t);
    } else {
      var t' := t.(todo := t.todo[1..], locks := t.locks + {OnReservation(t.todo[0])});
      var next := Put(s, client, t');
      assert CascadeNext(s, client, t) == next == Step(s, Proceed(client));
      CascadeAlone(next, others, client, t', good);
    }
  }

  lemma DeletionIsWhatGoes(s: State, others: map<int, Session>, client: int, t: Session)
    requires At(s, others, client, t) && t.job.DeleteActivityJob?
    ensures DeleteRow(s, client, t) == Deletion(s.(sessions := others), t.job)
  {
    var next, goal := DeleteRow(s, client, t), Deletion(s.(sessions := others), t.job);
    Undisturbed(s, others, client, t);
    assert next.activities == goal.activities;
    assert next.rows == goal.rows;
    assert next.reasons == goal.reasons;
  }

  lemma DeleteReaches(s: State, client: int, job: Job, forUpdate: bool, good: iset<State>)
    requires job.DeleteActivityJob? && Idle(s.sessions, client)
    requires Backward(good, client) && if Deletable(s, job) then Deletion(s, job) in good else s in good
    ensures Put(s, client, NewSession(job, forUpdate)) in good
  {
    var begun := Put(s, client, NewSession(job, forUpdate));
    var guarded := GuardAlone(begun, s.sessions, client, NewSession(job, forUpdate), good);
    NobodyHasAPlace(s, job);
    if client !in guarded.sessions {
      assert guarded == s;
    } else {
      var deleting := BeginDeleteAlone(guarded, s.sessions, client, guarded.sessions[client], good);
      if client !in deleting.sessions {
        assert deleting == s;
      } else {
        assert deleting.(sessions := s.sessions) == s;
        CascadeAlone(deleting, s.sessions, client, deleting.sessions[client], good);
      }
    }
  }

  lemma NobodyHasAPlace(s: State, job: Job)
    requires job.DeleteActivityJob?
    ensures Deletable(s, job) <==> job.activityId in s.activities && Holders(s.rows, job.activityId) == {}
  {
    if exists r :: r in Holders(s.rows, job.activityId) {
      var r :| r in Holders(s.rows, job.activityId);
    } else {
      forall r | r in s.rows && s.rows[r].activityId == job.activityId
        ensures s.rows[r].status != Confirmed && s.rows[r].status != PendingToConfirm
      {
        assert r !in Holders(s.rows, job.activityId);
      }
    }
  }

  /** A deletion that nobody interferes with is refused exactly while somebody has a place or the activity is gone. */
  lemma DeleteAlone(s: State, client: int, job: Job, forUpdate: bool)
    requires job.DeleteActivityJob? && Idle(s.sessions, client)
    ensures RunsTo(Step(s, Start(client, job, forUpdate)), client, iset{if Deletable(s, job) then Deletion(s, job) else s})
  {
    var goal := iset{if Deletable(s, job) then Deletion(s, job) else s};
    RunsToIsBackward(client, goal);
    DeleteReaches(s, client, job, forUpdate, iset x | RunsTo(x, client, goal));
  }

  // ---------- Booking and cancelling ----------

  /**
   * An in-time cancellation undoes its booking: the pass is as before but for its version, every sum of
   * movements is as before, and all that remains is a CANCELLED_IN_TIME reservation.
   */
  lemma CancelUndoesBooking(s: State, booked: State, job: Job, cancel: Job, q: int)
    requires job.RegisterJob? && Bookable(s, job) && s.passes[job.passId].remaining <= s.passes[job.passId].numOfSessions
    requires booked.passes == Booking(s, job).passes && booked.rows == Booking(s, job).rows
    requires booked.movements == Booking(s, job).movements
    requires cancel.CancelJob? && cancel.reservationId == s.nextId && Releasable(booked, cancel)
    requires TargetOf(booked, cancel, Row(booked, cancel)) == Some(CancelledInTime)
    ensures var after := Release(booked, cancel);
      && after.passes == s.passes[job.passId := s.passes[job.passId].(version := booked.clock)]
      && after.rows == s.rows[s.nextId := BookingOf(job, CancelledInTime)]
      && AmountOn(after.movements, q) == AmountOn(s.movements, q)
  {
    assert Row(booked, cancel) == BookingOf(job, VerdictOn(s, job).value);
    ReleasedInTime(booked, cancel);
    SumsCancelOut(s.movements, BookingMovement(job), Movement(job.passId, 1, RefundedInTime(s.nextId)), q);
  }

  lemma ReleasedInTime(s: State, job: Job)
    requires job.CancelJob? && Releasable(s, job) && TargetOf(s, job, Row(s, job)) == Some(CancelledInTime)
    requires CanRefund(s.passes[Row(s, job).passId])
    ensures var row, after := Row(s, job), Release(s, job);
      && after.passes == s.passes[row.passId := GivenBack(s.passes[row.passId], s.clock)]
      && after.rows == s.rows[job.reservationId := row.(status := CancelledInTime)]
      && after.movements == s.movements + [Movement(row.passId, 1, RefundedInTime(job.reservationId))]
  {}

  lemma SumsCancelOut(movements: seq<Movement>, out: Movement, back: Movement, q: int)
    requires out.passId == back.passId && out.amount + back.amount == 0
    ensures AmountOn(movements + [out] + [back], q) == AmountOn(movements, q)
  {
    AmountOfConcatenation(movements, [out], q);
    AmountOfConcatenation(movements + [out], [back], q);
    assert [out][..0] == [] && [back][..0] == [];
  }
}
