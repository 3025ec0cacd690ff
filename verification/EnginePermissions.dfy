/** Who may do what, and when: in no run does a client get to COMMIT that its use case does not allow. */
module EnginePermissions {

  import opened Durations
  import opened Outcomes
  import opened Counting
  import opened Reservations
  import opened Passes
  import opened Activities
  import opened Compatibility
  import opened Admission
  import opened Engine
  import opened EngineInvariant
  import opened EngineLocal
  import opened EngineCommit
  import opened EngineTheorems

  /** In some run the client is about to commit. */
  ghost predicate Committing(s0: State, events: seq<Event>, client: int) {
    Opening(s0) && client in Run(s0, events).sessions && Run(s0, events).sessions[client].phase == Ready
  }

  lemma CommittingIsCommittable(s0: State, events: seq<Event>, client: int)
    requires Committing(s0, events, client)
    ensures Inv(Run(s0, events)) && Committable(Run(s0, events), client)
  {
    OpeningHolds(s0);
    RunKeeps(s0, events);
  }

  /**
   * A booking is of an active dog into an open activity that has not begun and has a place left, and an
   * individual class is of its own dog; it is paid with a session of a pass of the dog's owner that is
   * neither used up nor expired. Without an override the caller is that owner, and the size fits.
   */
  lemma BookingsArePermitted(s0: State, events: seq<Event>, client: int)
    requires Committing(s0, events, client) && Run(s0, events).sessions[client].job.RegisterJob?
    ensures var s := Run(s0, events); var t := s.sessions[client]; var job := t.job;
      && job.activityId in s.activities && job.dogId in s.dogs && t.pass.Some?
      && var activity, dog, pass := s.activities[job.activityId], s.dogs[job.dogId], t.pass.value;
        && job.now <= activity.date && !activity.closed && dog.isActive
        && |set r | r in s.rows && s.rows[r].activityId == job.activityId && (s.rows[r].status == Confirmed || s.rows[r].status == PendingToConfirm)|
           < activity.maxCapacity
        && (activity.kind == Individual ==> activity.dogId == Some(job.dogId))
        && dog.userId == pass.userId && pass.remaining > 0 && (pass.expiresAt.None? || job.now <= pass.expiresAt.value)
        && (job.admin || (dog.userId == job.userId && (activity.sizeTarget.None? || activity.sizeTarget.value == SizeOf(dog))))
        && (t.target == Confirmed || t.target == PendingToConfirm)
        && t.work.inserted.Some? && t.work.inserted.value.1 == ReservationRow(job.activityId, job.dogId, job.passId, t.target)
        && t.work.movements == [Movement(job.passId, -1, Booked(job.activityId, job.dogId))]
  {
    CommittingIsCommittable(s0, events, client);
    BookingReady(Run(s0, events), client);
    RegisterWork(Run(s0, events), client);
  }

  lemma BookingReady(s: State, client: int)
    requires Committable(s, client) && s.sessions[client].job.RegisterJob?
    ensures var t := s.sessions[client]; var job := t.job;
      && job.activityId in s.activities && job.dogId in s.dogs && t.pass.Some?
      && var activity, dog, pass := s.activities[job.activityId], s.dogs[job.dogId], t.pass.value;
        && job.now <= activity.date && !activity.closed && dog.isActive
        && |set r | r in s.rows && s.rows[r].activityId == job.activityId && (s.rows[r].status == Confirmed || s.rows[r].status == PendingToConfirm)|
           < activity.maxCapacity
        && (activity.kind == Individual ==> activity.dogId == Some(job.dogId))
        && dog.userId == pass.userId && pass.remaining > 0 && (pass.expiresAt.None? || job.now <= pass.expiresAt.value)
        && (job.admin || (dog.userId == job.userId && (activity.sizeTarget.None? || activity.sizeTarget.value == SizeOf(dog))))
        && (t.target == Confirmed || t.target == PendingToConfirm)
  {
    assert RegisterReady(s, s.sessions[client]);
    HoldersSpelledOut(s.rows, s.sessions[client].job.activityId);
  }

  /** The status a client gives the reservation it has read, and the session it gives back, if any. */
  ghost predicate Changes(s: State, t: Session, before: Status, after: Status, refund: Option<Reason>) {
    var r := ReservationIdOf(t.job);
    && r in s.rows && s.rows[r].status == before && t.work.statuses == map[r := after]
    && if refund.None? then t.work.movements == [] && t.work.pass.None?
       else
         && t.work.movements == [Movement(s.rows[r].passId, 1, refund.value)]
         && s.rows[r].passId in s.passes && t.work.pass.Some?
         && t.work.pass.value.remaining == s.passes[s.rows[r].passId].remaining + 1
  }

  /** The rules of the six use cases that change the status of one reservation. */
  ghost predicate ByTheRules(s: State, t: Session) {
    var r := ReservationIdOf(t.job);
    && r in s.rows && s.rows[r].activityId in s.activities && s.rows[r].dogId in s.dogs
    && var activity, owner := s.activities[s.rows[r].activityId], s.dogs[s.rows[r].dogId].userId;
      match t.job
      case CancelJob(_, userId, admin, now) =>
        && now <= activity.date && (admin || owner == userId)
        && if activity.date - now < 2 * HOUR then Changes(s, t, Confirmed, CancelledLate, None)
           else Changes(s, t, Confirmed, CancelledInTime, Some(RefundedInTime(r)))
      case RejectJob(_) => Changes(s, t, PendingToConfirm, CancelledInTime, Some(RefundedRejection(r)))
      case ForgiveJob(_) => Changes(s, t, CancelledLate, Forgiven, Some(RefundedForgiveness(r)))
      case ConfirmJob(_) => Changes(s, t, PendingToConfirm, Confirmed, None)
      case CompleteJob(_, userId, now) =>
        && owner == userId && IsFinished(activity, now) && Changes(s, t, Confirmed, Completed, None)
        && (0 < activity.durationInHours <= MAX_EXACT_HOURS ==> now > activity.date + activity.durationInHours * HOUR)
      case NoShowJob(_, userId, now) => owner == userId && now > activity.date && Changes(s, t, Confirmed, NoShow, None)
      case _ => false
  }

  /**
   * A cancellation comes before the activity begins, from the dog's owner or an administrator, and gives
   * a session back exactly if it comes at least two hours before; a rejection and a pardon always give
   * one back; completing and marking a no-show is the owner's, after the end and after the beginning.
   */
  lemma ChangesArePermitted(s0: State, events: seq<Event>, client: int)
    requires Committing(s0, events, client)
    requires var job := Run(s0, events).sessions[client].job; Refunding(job) || Moving(job)
    ensures ByTheRules(Run(s0, events), Run(s0, events).sessions[client])
  {
    var s := Run(s0, events);
    CommittingIsCommittable(s0, events, client);
    if Moving(s.sessions[client].job) {
      MoveByTheRules(s, client);
    } else {
      RefundByTheRules(s, client);
    }
  }

  lemma MoveByTheRules(s: State, client: int)
    requires Committable(s, client) && Moving(s.sessions[client].job)
    ensures ByTheRules(s, s.sessions[client])
  {
    var t := s.sessions[client];
    assert MoveReady(s, t);
    var r := ReservationIdOf(t.job);
    assert s.ever[r] == s.rows[r];
    assert t.work.statuses == map[r := t.target];
    var activity := s.activities[s.rows[r].activityId];
    if t.job.CompleteJob? && 0 < activity.durationInHours <= MAX_EXACT_HOURS {
      FinishedAfterItsDuration(activity, t.job.now);
    }
  }

  lemma RefundByTheRules(s: State, client: int)
    requires Committable(s, client) && Refunding(s.sessions[client].job)
    ensures ByTheRules(s, s.sessions[client])
  {
    var t := s.sessions[client];
    assert RefundReady(s, t);
    var r := ReservationIdOf(t.job);
    assert s.ever[r] == s.rows[r];
    assert t.work.statuses == map[r := t.target];
    if !Charged(t.target) {
      RefundIsExact(s, t);
    }
  }

  lemma RefundIsExact(s: State, t: Session)
    requires WroteOk(s, t) && Refunding(t.job) && t.seen.Some?
    ensures t.work.pass.value.remaining == s.passes[t.seen.value.passId].remaining + 1
    ensures t.work.movements == [Movement(t.seen.value.passId, 1, match t.job
      case CancelJob(r, _, _, _) => RefundedInTime(r)
      case RejectJob(r) => RefundedRejection(r)
      case ForgiveJob(r) => RefundedForgiveness(r)
      case _ => Blank)]
  {}

  /**
   * A batch settles CONFIRMED reservations of its own activity only, once that has ended: NO_SHOW those
   * its list names, COMPLETED the others.
   */
  lemma BatchesArePermitted(s0: State, events: seq<Event>, client: int)
    requires Committing(s0, events, client) && Batch(Run(s0, events).sessions[client].job)
    ensures var s := Run(s0, events); var t := s.sessions[client]; var a := ActivityIdOf(t.job);
      && (forall r :: r in t.work.statuses ==>
            && r in s.rows && s.rows[r].activityId == a && s.rows[r].status == Confirmed
            && t.work.statuses[r] == if t.job.CloseJob? && r in t.job.noShows then NoShow else Completed)
      && (a in s.activities && 0 < s.activities[a].durationInHours <= MAX_EXACT_HOURS ==>
            t.job.now > s.activities[a].date + s.activities[a].durationInHours * HOUR)
  {
    var s := Run(s0, events);
    CommittingIsCommittable(s0, events, client);
    var t := s.sessions[client];
    var a := ActivityIdOf(t.job);
    assert BatchOk(s, t) && Scoped(s, t) && StatusesOk(s, t);
    forall r | r in t.work.statuses
      ensures r in s.rows && s.rows[r].activityId == a && s.rows[r].status == Confirmed
    {
      assert OnReservation(r) in t.locks && s.ever[r] == s.rows[r];
    }
    if a in s.activities && 0 < s.activities[a].durationInHours <= MAX_EXACT_HOURS {
      FinishedAfterItsDuration(s.activities[a], t.job.now);
    }
  }

  /** No reservation was ever made for a dog that is not active, with or without an override. */
  lemma EveryBookedDogIsActive(s0: State, events: seq<Event>, r: int)
    requires Opening(s0) && r in Run(s0, events).ever
    ensures var s := Run(s0, events); s.ever[r].dogId in s.dogs && s.dogs[s.ever[r].dogId].isActive
  {
    OpeningHolds(s0);
    RunKeeps(s0, events);
  }

  // ---------- Admission ----------

  /** Reservations that have a place in the activity. */
  function Placed(s: State, a: int): set<int> {
    set r | r in s.rows && s.rows[r].activityId == a && (s.rows[r].status == Confirmed || s.rows[r].status == PendingToConfirm)
  }

  /** The dog is not another than this, or the two may be together. */
  ghost predicate MayMeet(dog: Dog, other: Dog) {
    || other.id == dog.id
    || (!(dog.sex == Male && !dog.neutered && other.sex == Male && !other.neutered)
        && !TriggersAt({Absoluta}, dog, other) && !TriggersAt({Absoluta}, other, dog))
  }

  /** It is not, or nothing about the two needs a review. */
  ghost predicate NeedsNoReview(dog: Dog, other: Dog) {
    || other.id == dog.id
    || (!(dog.sex == Male && other.sex == Male)
        && !TriggersAt({Absoluta, Media, Baja}, dog, other) && !TriggersAt({Absoluta, Media, Baja}, other, dog))
  }

  /**
   * Who is let in, in full: there is a place left, the dog is active, an individual class is its own, and
   * without an override it is the caller's, its size fits, and it may be with every dog that has a place.
   */
  lemma AdmissionInFull(s: State, job: Job)
    requires job.RegisterJob? && job.activityId in s.activities && job.dogId in s.dogs && forall d :: d in s.dogs ==> s.dogs[d].id == d
    ensures var a := job.activityId; var activity, dog := s.activities[a], s.dogs[job.dogId];
      VerdictOn(s, job).Success? <==>
        && |Placed(s, a)| < activity.maxCapacity && dog.isActive && (activity.kind == Individual ==> activity.dogId == Some(job.dogId))
        && (job.admin || (dog.userId == job.userId && (activity.sizeTarget.None? || activity.sizeTarget.value == SizeOf(dog))))
        && (job.admin || forall r :: r in Placed(s, a) && s.rows[r].dogId in s.dogs ==> MayMeet(dog, s.dogs[s.rows[r].dogId]))
  {
    var a := job.activityId;
    var activity, dog, holders := s.activities[a], s.dogs[job.dogId], SetOf(SlotDogs(s.dogs, s.rows, a));
    HoldersSpelledOut(s.rows, a);
    if !job.admin && |Placed(s, a)| < activity.maxCapacity && dog.userId == job.userId && dog.isActive && WellPlaced(activity, dog, false) {
      VerdictIsTheWorstPair(activity, dog, holders, |Placed(s, a)|, job.userId);
      CompatibleWithAll(s, a, dog);
    }
  }

  /** An override is confirmed at once; any other booking is, unless there is cause for review. */
  lemma ReviewInFull(s: State, job: Job)
    requires job.RegisterJob? && job.activityId in s.activities && job.dogId in s.dogs && forall d :: d in s.dogs ==> s.dogs[d].id == d
    requires VerdictOn(s, job).Success?
    ensures var dog := s.dogs[job.dogId];
      && (VerdictOn(s, job).value == Confirmed || VerdictOn(s, job).value == PendingToConfirm)
      && (VerdictOn(s, job).value == Confirmed <==>
            || job.admin
            || (!dog.hasSpecialCondition
                && forall r :: r in Placed(s, job.activityId) && s.rows[r].dogId in s.dogs ==> NeedsNoReview(dog, s.dogs[s.rows[r].dogId])))
  {
    var a := job.activityId;
    var activity, dog, holders := s.activities[a], s.dogs[job.dogId], SetOf(SlotDogs(s.dogs, s.rows, a));
    HoldersSpelledOut(s.rows, a);
    if !job.admin {
      VerdictIsTheWorstPair(activity, dog, holders, |Placed(s, a)|, job.userId);
      ReviewOfAll(s, a, dog);
    }
  }

  lemma CompatibleWithAll(s: State, a: int, dog: Dog)
    ensures (exists o :: o in SetOf(SlotDogs(s.dogs, s.rows, a)) && !Compatible(dog, o)) <==>
      !forall r :: r in Placed(s, a) && s.rows[r].dogId in s.dogs ==> MayMeet(dog, s.dogs[s.rows[r].dogId])
  {
    HoldersSpelledOut(s.rows, a);
    forall o: Dog
      ensures Compatible(dog, o) <==> MayMeet(dog, o)
    {
      SexRule(dog, o);
    }
    forall r | r in Placed(s, a) && s.rows[r].dogId in s.dogs
      ensures s.dogs[s.rows[r].dogId] in SetOf(SlotDogs(s.dogs, s.rows, a))
    {
      SlotDogsAreComplete(s, a, r);
    }
    forall o | o in SetOf(SlotDogs(s.dogs, s.rows, a))
      ensures exists r :: r in Placed(s, a) && s.rows[r].dogId in s.dogs && s.dogs[s.rows[r].dogId] == o
    {
      SlotDogsHoldSlots(s, a, o);
    }
  }

  lemma ReviewOfAll(s: State, a: int, dog: Dog)
    ensures (forall o :: o in SetOf(SlotDogs(s.dogs, s.rows, a)) ==> NeedsNoReview(dog, o)) <==>
      forall r :: r in Placed(s, a) && s.rows[r].dogId in s.dogs ==> NeedsNoReview(dog, s.dogs[s.rows[r].dogId])
  {
    HoldersSpelledOut(s.rows, a);
    forall r | r in Placed(s, a) && s.rows[r].dogId in s.dogs
      ensures s.dogs[s.rows[r].dogId] in SetOf(SlotDogs(s.dogs, s.rows, a))
    {
      SlotDogsAreComplete(s, a, r);
    }
    forall o | o in SetOf(SlotDogs(s.dogs, s.rows, a))
      ensures exists r :: r in Placed(s, a) && s.rows[r].dogId in s.dogs && s.dogs[s.rows[r].dogId] == o
    {
      SlotDogsHoldSlots(s, a, o);
    }
  }

  // ---------- The decision on a reservation ----------

  /** When each use case may change a status, and to what. */
  lemma DecisionInFull(s: State, job: Job, row: ReservationRow)
    requires row.activityId in s.activities && row.dogId in s.dogs
    ensures var activity, owner := s.activities[row.activityId], s.dogs[row.dogId].userId;
      TargetOf(s, job, row) == match job
        case CancelJob(_, userId, admin, now) =>
          if row.status == Confirmed && now <= activity.date && (admin || owner == userId) then
            Some(if activity.date - now < 2 * HOUR then CancelledLate else CancelledInTime)
          else None
        case RejectJob(_) => if row.status == PendingToConfirm then Some(CancelledInTime) else None
        case ForgiveJob(_) => if row.status == CancelledLate then Some(Forgiven) else None
        case ConfirmJob(_) => if row.status == PendingToConfirm then Some(Confirmed) else None
        case CompleteJob(_, userId, now) =>
          if row.status == Confirmed && IsFinished(activity, now) && owner == userId then Some(Completed) else None
        case NoShowJob(_, userId, now) =>
          if row.status == Confirmed && now > activity.date && owner == userId then Some(NoShow) else None
        case _ => None
  {}
}
