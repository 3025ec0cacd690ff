/** What every reachable state of the booking engine satisfies. */
module EngineInvariant {

  import opened Durations
  import opened Outcomes
  import opened Reservations
  import opened Passes
  import opened Activities
  import opened Compatibility
  import opened Admission
  import opened Engine

  // ---------- Counting movements and reservations ----------

  function RefundIn(m: Movement): Option<int> {
    match m.reason
    case RefundedInTime(r) => Some(r)
    case RefundedRejection(r) => Some(r)
    case RefundedForgiveness(r) => Some(r)
    case _ => None
  }

  /** Number of refund movements naming a reservation. */
  function RefundsOf(movements: seq<Movement>, reservationId: int): nat {
    if movements == [] then 0
    else
      var last := movements[|movements| - 1];
      RefundsOf(movements[..|movements| - 1], reservationId) + if RefundIn(last) == Some(reservationId) then 1 else 0
  }

  /** Number of booking movements of a pass for a dog and an activity. */
  function BookingsOf(movements: seq<Movement>, passId: int, activityId: int, dogId: int): nat {
    if movements == [] then 0
    else
      var last := movements[|movements| - 1];
      BookingsOf(movements[..|movements| - 1], passId, activityId, dogId)
      + if last.passId == passId && last.reason == Booked(activityId, dogId) then 1 else 0
  }

  function ChargedOn(ever: map<int, ReservationRow>, passId: int): set<int> {
    set r | r in ever && ever[r].passId == passId && Charged(ever[r].status)
  }

  function BookedOn(ever: map<int, ReservationRow>, passId: int, activityId: int, dogId: int): set<int> {
    set r | r in ever && ever[r].passId == passId && ever[r].activityId == activityId && ever[r].dogId == dogId
  }

  // ---------- The committed tables ----------

  /** Foreign keys, identities and history. */
  ghost predicate Sane(s: State) {
    && (forall d :: d in s.dogs ==> s.dogs[d].id == d)
    && (forall r :: r in s.ever ==> 0 <= r < s.nextId && s.ever[r].passId in s.passes && s.ever[r].dogId in s.dogs)
    && (forall r :: r in s.rows ==> r in s.ever && s.ever[r] == s.rows[r] && s.rows[r].activityId in s.activities)
    && (forall p :: p in s.passes ==> s.passes[p].version < s.clock)
  }

  /** The counter of every pass is what its movements say. */
  ghost predicate LedgerAgrees(s: State) {
    forall p :: p in s.passes ==>
      && s.passes[p].remaining == s.passes[p].numOfSessions + AmountOn(s.movements, p)
      && 0 <= s.passes[p].remaining <= s.passes[p].numOfSessions
  }

  /** Sessions consumed are sessions charged. */
  ghost predicate SessionsConserved(s: State) {
    forall p :: p in s.passes ==>
      s.passes[p].numOfSessions - s.passes[p].remaining == |ChargedOn(s.ever, p)|
  }

  /** One refund for every reservation that is no longer charged, none for the others. */
  ghost predicate RefundsExact(s: State) {
    forall r :: RefundsOf(s.movements, r) == if r in s.ever && !Charged(s.ever[r].status) then 1 else 0
  }

  /** One booking movement for every reservation, on the pass that pays for it. */
  ghost predicate BookingsExact(s: State) {
    forall p, a, d :: BookingsOf(s.movements, p, a, d) == |BookedOn(s.ever, p, a, d)|
  }

  /** Bookings take one session, refunds give one back, to the pass of the reservation they name. */
  ghost predicate MovementsWellFormed(s: State) {
    forall m :: m in s.movements ==> WellFormed(m, s.ever)
  }

  ghost predicate WellFormed(m: Movement, ever: map<int, ReservationRow>) {
    match RefundIn(m)
    case Some(r) => m.amount == 1 && r in ever && m.passId == ever[r].passId
    case None => m.amount == -1 && m.reason.Booked?
  }

  ghost predicate CapacityRespected(s: State) {
    forall a :: a in s.activities ==> |Holders(s.rows, a)| <= s.activities[a].maxCapacity
  }

  /** Two different reservations hold slots of the same activity. */
  ghost predicate Share(s: State, r1: int, r2: int) {
    && r1 in s.rows && r2 in s.rows && r1 != r2
    && HoldsSlot(s.rows[r1].status) && HoldsSlot(s.rows[r2].status)
    && s.rows[r1].activityId == s.rows[r2].activityId
  }

  ghost predicate OneSlotPerDog(s: State) {
    forall r1, r2 :: Share(s, r1, r2) ==> s.rows[r1].dogId != s.rows[r2].dogId
  }

  /** The dogs of two reservations may be together. */
  ghost predicate DogsCompatible(s: State, r1: int, r2: int)
    requires r1 in s.rows && r2 in s.rows
  {
    var d1, d2 := s.rows[r1].dogId, s.rows[r2].dogId;
    d1 in s.dogs && d2 in s.dogs ==> Compatible(s.dogs[d2], s.dogs[d1])
  }

  /** Of two incompatible slot holders the later one was booked by an administrator's override. */
  ghost predicate RosterSafe(s: State) {
    forall r1, r2 :: Share(s, r1, r2) && r1 < r2 && r2 !in s.byAdmin ==> DogsCompatible(s, r1, r2)
  }

  ghost predicate EveryoneWellPlaced(s: State) {
    forall r :: r in s.rows && s.rows[r].activityId in s.activities && s.rows[r].dogId in s.dogs ==>
      WellPlaced(s.activities[s.rows[r].activityId], s.dogs[s.rows[r].dogId], r in s.byAdmin)
  }

  /** A dog is only ever booked on a pass of its own owner. */
  ghost predicate OwnersAgree(s: State) {
    forall r :: r in s.ever && s.ever[r].dogId in s.dogs && s.ever[r].passId in s.passes ==>
      s.dogs[s.ever[r].dogId].userId == s.passes[s.ever[r].passId].userId
  }

  /** Only active dogs are ever booked. */
  ghost predicate DogsActive(s: State) {
    forall r :: r in s.ever && s.ever[r].dogId in s.dogs ==> s.dogs[s.ever[r].dogId].isActive
  }

  ghost predicate TablesOk(s: State) {
    && Sane(s)
    && LedgerAgrees(s)
    && SessionsConserved(s)
    && RefundsExact(s)
    && BookingsExact(s)
    && MovementsWellFormed(s)
    && CapacityRespected(s)
    && OneSlotPerDog(s)
    && RosterSafe(s)
    && EveryoneWellPlaced(s)
    && OwnersAgree(s)
    && DogsActive(s)
  }

  // ---------- Clients in flight ----------

  ghost predicate HasActivity(s: State, t: Session) {
    OnActivity(ActivityIdOf(t.job)) in t.locks && ActivityIdOf(t.job) in s.activities
  }

  ghost predicate HasOpenActivity(s: State, t: Session)
    requires t.job.RegisterJob?
  {
    HasActivity(s, t) && !s.activities[t.job.activityId].closed && t.job.now <= s.activities[t.job.activityId].date
  }

  /** What a batch saw finished, and perhaps closed, stays so. */
  ghost predicate SawRight(s: State, t: Session)
    requires Batch(t.job)
  {
    var a := ActivityIdOf(t.job);
    && (t.job.CloseJob? ==> !t.seenClosed)
    && (a in s.activities ==> IsFinished(s.activities[a], t.job.now) && (t.seenClosed ==> s.activities[a].closed))
  }

  /** What admission established and the lock on the activity preserves. */
  ghost predicate AdmissionHolds(s: State, t: Session)
    requires t.job.RegisterJob?
  {
    var a, d := t.job.activityId, t.job.dogId;
    && HasOpenActivity(s, t)
    && d in s.dogs && s.dogs[d].isActive
    && HoldsSlot(t.target)
    && |Holders(s.rows, a)| < s.activities[a].maxCapacity
    && WellPlaced(s.activities[a], s.dogs[d], t.job.admin)
    && (!t.job.admin ==>
        && s.dogs[d].userId == t.job.userId
        && forall r :: r in Holders(s.rows, a) && s.rows[r].dogId in s.dogs ==> Compatible(s.dogs[d], s.dogs[s.rows[r].dogId]))
  }

  ghost predicate SameBooking(a: ReservationRow, b: ReservationRow) {
    a == b.(status := a.status)
  }

  /** Every change of status is one the use case may make, on behalf of somebody who may, at the time it may. */
  ghost predicate Permitted(s: State, t: Session)
    requires t.seen.Some?
  {
    var row := t.seen.value;
    && row.dogId in s.dogs
    && match t.job
       case CancelJob(_, userId, admin, now) =>
         && row.status == Confirmed && (admin || s.dogs[row.dogId].userId == userId)
         && (row.activityId in s.activities ==>
               var date := s.activities[row.activityId].date;
               now <= date && t.target == if date - now < 2 * HOUR then CancelledLate else CancelledInTime)
       case RejectJob(_) => row.status == PendingToConfirm && t.target == CancelledInTime
       case ForgiveJob(_) => row.status == CancelledLate && t.target == Forgiven
       case ConfirmJob(_) => row.status == PendingToConfirm && t.target == Confirmed
       case CompleteJob(_, userId, now) =>
         && row.status == Confirmed && t.target == Completed && s.dogs[row.dogId].userId == userId
         && (row.activityId in s.activities ==> IsFinished(s.activities[row.activityId], now))
       case NoShowJob(_, userId, now) =>
         && row.status == Confirmed && t.target == NoShow && s.dogs[row.dogId].userId == userId
         && (row.activityId in s.activities ==> now > s.activities[row.activityId].date)
       case _ => false
  }

  /** What is known of a reservation that was read, even if it has changed since. */
  ghost predicate SeenOk(s: State, t: Session) {
    var r := ReservationIdOf(t.job);
    && (Refunding(t.job) || Moving(t.job))
    && t.seen.Some? && r in s.ever && SameBooking(s.ever[r], t.seen.value) && Permitted(s, t)
    && Arrow(t.seen.value.status, t.target)
    && (Moving(t.job) ==> Charged(t.target))
    && ((t.job.RejectJob? || t.job.ForgiveJob?) ==> !Charged(t.target))
    && (t.job.CancelJob? ==> t.target == CancelledInTime || t.target == CancelledLate)
  }

  /** What is known of a pass that was read: same version, same row. */
  ghost predicate PassSeen(s: State, t: Session) {
    var p := PassIdOf(t);
    && t.pass.Some? && p in s.passes
    && s.passes[p].userId == t.pass.value.userId
    && s.passes[p].numOfSessions == t.pass.value.numOfSessions
    && t.pass.value.version <= s.passes[p].version
    && (t.pass.value.version == s.passes[p].version ==> s.passes[p] == t.pass.value)
  }

  /** The pass is usable, the dog owner's and, without an override, the caller's. */
  ghost predicate OwnerPays(s: State, t: Session)
    requires t.job.RegisterJob?
  {
    && t.pass.Some? && t.job.dogId in s.dogs && s.dogs[t.job.dogId].userId == t.pass.value.userId
    && (t.job.admin || t.pass.value.userId == t.job.userId)
    && t.pass.value.remaining > 0 && (t.pass.value.expiresAt.None? || t.job.now <= t.pass.value.expiresAt.value)
  }

  /** A refund is only skipped for a reservation that is no longer charged. */
  ghost predicate SkipsOnlyUncharged(s: State, t: Session) {
    var r := ReservationIdOf(t.job);
    t.pass.Some? && !CanRefund(t.pass.value) && !Charged(t.target) ==> r in s.ever && !Charged(s.ever[r].status)
  }

  ghost predicate WroteOk(s: State, t: Session) {
    && PassSeen(s, t)
    && OnPass(PassIdOf(t)) in t.locks
    && s.passes[PassIdOf(t)] == t.pass.value
    && t.work.pass.Some?
    && t.pass.value.version < t.work.pass.value.version < s.clock
    && PassEditOf(t) == Write(Ledger(t.work.pass.value.(version := t.pass.value.version), t.work.movements))
  }

  ghost predicate NoPassWork(t: Session) {
    t.work.pass.None? && t.work.movements == []
  }

  /** Every uncommitted status is an arrow from the committed one, under a lock. */
  ghost predicate StatusesOk(s: State, t: Session) {
    forall r :: r in t.work.statuses ==>
      OnReservation(r) in t.locks && r in s.rows && Arrow(s.rows[r].status, t.work.statuses[r])
  }

  ghost predicate InsertOk(s: State, t: Session)
    requires t.job.RegisterJob?
  {
    && t.work.inserted.Some?
    && var (id, row) := t.work.inserted.value;
      && OnReservation(id) in t.locks
      && 0 <= id < s.nextId && id !in s.ever
      && row == ReservationRow(t.job.activityId, t.job.dogId, t.job.passId, t.target)
      && (forall r :: r in Holders(s.rows, t.job.activityId) ==> s.rows[r].dogId != t.job.dogId)
      && (forall r :: r in s.rows && s.rows[r].activityId == t.job.activityId ==> r < id)
  }

  ghost predicate RegisterReady(s: State, t: Session) {
    && t.job.RegisterJob? && AdmissionHolds(s, t) && OwnerPays(s, t) && WroteOk(s, t) && InsertOk(s, t)
    && t.work.statuses == map[] && !t.work.closes
  }

  /** The reservation is as it was read. */
  predicate StillAsSeen(s: State, t: Session) {
    var r := ReservationIdOf(t.job);
    r in s.rows && t.seen.Some? && s.rows[r].status == t.seen.value.status
  }

  ghost predicate RefundReady(s: State, t: Session) {
    && Refunding(t.job) && SeenOk(s, t) && StillAsSeen(s, t)
    && t.work.statuses.Keys == {ReservationIdOf(t.job)} && t.work.statuses[ReservationIdOf(t.job)] == t.target
    && (if Charged(t.target) then NoPassWork(t) else WroteOk(s, t))
    && t.work.inserted.None? && !t.work.closes
  }

  ghost predicate MoveReady(s: State, t: Session) {
    && Moving(t.job) && SeenOk(s, t) && StillAsSeen(s, t)
    && t.work.statuses.Keys == {ReservationIdOf(t.job)} && t.work.statuses[ReservationIdOf(t.job)] == t.target
    && NoPassWork(t) && t.work.inserted.None? && !t.work.closes
  }

  ghost predicate BatchOk(s: State, t: Session) {
    && Batch(t.job) && NoPassWork(t) && t.work.inserted.None?
    && (forall r :: r in t.work.statuses ==>
          t.work.statuses[r] == if t.job.CloseJob? && r in t.job.noShows then NoShow else Completed)
    && SawRight(s, t)
  }

  ghost predicate PatchReady(s: State, t: Session) {
    && t.job.PatchPassJob? && WroteOk(s, t)
    && t.work.statuses == map[] && t.work.inserted.None? && !t.work.closes
  }

  /** Every reservation of the activity is locked by the cascade or still to be visited. */
  ghost predicate CascadeCovers(s: State, t: Session) {
    forall r :: r in RowsOf(s.rows, ActivityIdOf(t.job)) ==> OnReservation(r) in t.locks || r in t.todo
  }

  /** A batch or a cascade deals with reservations of its own activity only. */
  ghost predicate Scoped(s: State, t: Session) {
    forall r :: r in t.todo || OnReservation(r) in t.locks ==> r in s.ever && s.ever[r].activityId == ActivityIdOf(t.job)
  }

  ghost predicate LocksWhatItWrites(t: Session) {
    forall r :: OnReservation(r) in t.locks ==> r in t.work.statuses
  }

  ghost predicate PhaseOk(s: State, t: Session) {
    match t.phase
    case Begin => t.seen.None? && t.pass.None? && t.work == NO_WORK && t.locks == {}
    case ActivityLocked => t.job.RegisterJob? && HasOpenActivity(s, t) && t.pass.None? && t.work == NO_WORK
    case Admitted => t.job.RegisterJob? && AdmissionHolds(s, t) && t.pass.None? && t.work == NO_WORK
    case ReservationRead => SeenOk(s, t) && t.pass.None? && t.work == NO_WORK
    case PassRead =>
      && PassSeen(s, t) && t.work == NO_WORK
      && (if t.job.RegisterJob? then AdmissionHolds(s, t) && OwnerPays(s, t)
          else if t.job.PatchPassJob? then true
          else Refunding(t.job) && SeenOk(s, t) && SkipsOnlyUncharged(s, t))
    case PassWritten =>
      && PassSeen(s, t) && t.work == NO_WORK.(pass := t.work.pass, movements := t.work.movements)
      && if t.job.RegisterJob? then AdmissionHolds(s, t) && OwnerPays(s, t) && WroteOk(s, t)
         else
           && Refunding(t.job) && SeenOk(s, t) && SkipsOnlyUncharged(s, t)
           && if PassEditOf(t) == Nothing then NoPassWork(t) else WroteOk(s, t)
    case ActivityRead => Batch(t.job) && t.work == NO_WORK && t.locks == {} && SawRight(s, t)
    case Listed => BatchOk(s, t) && !t.work.closes && Scoped(s, t) && LocksWhatItWrites(t)
    case Ready =>
      || RegisterReady(s, t)
      || RefundReady(s, t)
      || MoveReady(s, t)
      || (BatchOk(s, t) && Scoped(s, t) && (t.work.closes ==> HasActivity(s, t)))
      || PatchReady(s, t)
    case Guarded => t.job.DeleteActivityJob? && t.work == NO_WORK && t.locks == {}
    case Deleting => t.job.DeleteActivityJob? && t.work == NO_WORK && HasActivity(s, t) && CascadeCovers(s, t) && Scoped(s, t)
  }

  ghost predicate SessionOk(s: State, t: Session) {
    PhaseOk(s, t) && StatusesOk(s, t) && forall r :: OnReservation(r) in t.locks ==> r < s.nextId
  }

  ghost predicate SessionsOk(s: State) {
    forall c :: c in s.sessions ==> SessionOk(s, s.sessions[c])
  }

  /** Row locks are exclusive. */
  ghost predicate LocksExclusive(s: State) {
    forall c, d :: c in s.sessions && d in s.sessions && c != d ==> s.sessions[c].locks !! s.sessions[d].locks
  }

  ghost predicate Inv(s: State) {
    TablesOk(s) && SessionsOk(s) && LocksExclusive(s)
  }
}
