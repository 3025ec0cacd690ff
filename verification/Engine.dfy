/**
 * The booking engine as a state machine: any number of clients, each running one use case, one SQL
 * statement at a time, against the same tables.
 *
 * A client's writes stay in its own transaction (`work`) until COMMIT; the rows it has written or
 * read FOR UPDATE stay locked until COMMIT or ROLLBACK; a statement that needs a row locked by
 * somebody else, and an INSERT that meets a row somebody else is changing in the partial unique index,
 * waits, which here means that its step changes nothing. Statements see the last committed version of
 * every row (READ COMMITTED). Rows no step ever changes are read together with the statement before
 * them.
 */
module Engine {

  import opened Outcomes
  import opened Counting
  import opened Reservations
  import opened Passes
  import opened Activities
  import opened Compatibility
  import opened Admission
  import PendingReasons

  // ---------- What clients ask for ----------

  datatype PassPatch = PassPatch(
    price: Option<int>, passType: Option<PassType>, expiresAt: Option<int>, isPaid: Option<bool>)

  datatype Job =
    | RegisterJob(activityId: int, dogId: int, passId: int, userId: int, admin: bool, now: int)
    | CancelJob(reservationId: int, userId: int, admin: bool, now: int)
    | RejectJob(reservationId: int)
    | ForgiveJob(reservationId: int)
    | ConfirmJob(reservationId: int)
    | CompleteJob(reservationId: int, userId: int, now: int)
    | NoShowJob(reservationId: int, userId: int, now: int)
    | CloseJob(activityId: int, noShows: set<int>, now: int)
    | BulkCompleteJob(activityId: int, now: int)
    | PatchPassJob(passId: int, patch: PassPatch)
    | DeleteActivityJob(activityId: int, scan: seq<int>)

  /** Cancel, Reject and Forgive may refund a session. */
  predicate Refunding(job: Job) {
    job.CancelJob? || job.RejectJob? || job.ForgiveJob?
  }

  /** Confirm, Complete and NoShow only move a status. */
  predicate Moving(job: Job) {
    job.ConfirmJob? || job.CompleteJob? || job.NoShowJob?
  }

  predicate Batch(job: Job) {
    job.CloseJob? || job.BulkCompleteJob?
  }

  // ---------- State ----------

  datatype Lock = OnReservation(id: int) | OnActivity(id: int) | OnPass(id: int)

  /** Uncommitted writes. */
  datatype Work = Work(
    statuses: map<int, Status>, pass: Option<PassRow>, movements: seq<Movement>,
    inserted: Option<(int, ReservationRow)>, closes: bool)

  const NO_WORK: Work := Work(map[], None, [], None, false)

  /** How far a client has got. */
  datatype Phase =
    | Begin
    | ActivityLocked
    | Admitted
    | ReservationRead
    | PassRead
    | PassWritten
    | ActivityRead
    | Listed
    | Ready
    | Guarded
    | Deleting

  /**
   * `forUpdate` tells whether reservations and passes are read FOR UPDATE. `target` is the status
   * decided in memory and `reasons` what a held booking waits for, `seen` and `pass` the rows as read,
   * `todo` the reservations a batch has still to process or a cascade still to lock.
   */
  datatype Session = Session(
    job: Job, forUpdate: bool, phase: Phase, target: Status, reasons: seq<PendingReasons.PendingReason>,
    todo: seq<int>, seenClosed: bool, locks: set<Lock>, seen: Option<ReservationRow>, pass: Option<PassRow>, work: Work)

  /**
   * The committed tables, the clients in flight, and two history variables: `ever` keeps the last
   * version of every reservation that was ever committed, deleted or not, and `byAdmin` the ones
   * booked with an administrator's override. `nextId` is the identity sequence of reservations and
   * `clock` the source of pass versions.
   */
  datatype State = State(
    dogs: map<int, Dog>,
    activities: map<int, ActivityRow>, passes: map<int, PassRow>, rows: map<int, ReservationRow>,
    movements: seq<Movement>, reasons: PendingReasons.Table,
    ever: map<int, ReservationRow>, byAdmin: set<int>,
    nextId: nat, clock: int,
    sessions: map<int, Session>)

  ghost predicate Free(s: State, client: int, lock: Lock) {
    forall other :: other in s.sessions && other != client ==> lock !in s.sessions[other].locks
  }

  function Put(s: State, client: int, t: Session): State {
    s.(sessions := s.sessions[client := t])
  }

  /** ROLLBACK, or the end of a client: its locks and uncommitted writes vanish. */
  function Drop(s: State, client: int): State {
    s.(sessions := s.sessions - {client})
  }

  // ---------- The in-memory decisions ----------

  function ReservationIdOf(job: Job): int {
    match job
    case CancelJob(r, _, _, _) => r
    case RejectJob(r) => r
    case ForgiveJob(r) => r
    case ConfirmJob(r) => r
    case CompleteJob(r, _, _) => r
    case NoShowJob(r, _, _) => r
    case _ => 0
  }

  function ActivityIdOf(job: Job): int {
    match job
    case RegisterJob(a, _, _, _, _, _) => a
    case CloseJob(a, _, _) => a
    case BulkCompleteJob(a, _) => a
    case DeleteActivityJob(a, _) => a
    case _ => 0
  }

  /** The pass a session works on. */
  function PassIdOf(t: Session): int {
    match t.job
    case RegisterJob(_, _, p, _, _, _) => p
    case PatchPassJob(p, _) => p
    case _ => if t.seen.Some? then t.seen.value.passId else 0
  }

  /** The new status a use case decides on for the reservation it read, unless it refuses. */
  function TargetOf(s: State, job: Job, row: ReservationRow): Option<Status> {
    if row.activityId !in s.activities || row.dogId !in s.dogs then None
    else
      var activity, dog := s.activities[row.activityId], s.dogs[row.dogId];
      var verdict: Result<Status, LifecycleError> := match job
        case CancelJob(_, userId, admin, now) =>
          if IsInThePast(activity, now) || (!admin && dog.userId != userId) then Failure(WrongStatus(row.status))
          else Apply(row.status, Cancelling(activity.date, now))
        case RejectJob(_) => Apply(row.status, RejectingPending)
        case ForgiveJob(_) => Apply(row.status, Forgiving)
        case ConfirmJob(_) => Apply(row.status, ConfirmingPending)
        case CompleteJob(_, userId, now) =>
          if !IsFinished(activity, now) || dog.userId != userId then Failure(WrongStatus(row.status))
          else Apply(row.status, Completing)
        case NoShowJob(_, userId, now) =>
          if !IsInThePast(activity, now) || dog.userId != userId then Failure(WrongStatus(row.status))
          else Apply(row.status, MarkingNoShow)
        case _ => Failure(WrongStatus(row.status));
      if verdict.Success? then Some(verdict.value) else None
  }

  /** What a use case does to the pass it read. */
  datatype PassEdit = Nothing | Refused | Write(ledger: Ledger)

  function Attempt(result: Result<Ledger, PassError>): PassEdit {
    if result.Success? then Write(result.value) else Refused
  }

  function Patched(row: PassRow, patch: PassPatch): PassRow {
    var r1 := if patch.price.Some? then row.(price := patch.price.value) else row;
    var r2 := if patch.passType.Some? then r1.(passType := patch.passType.value) else r1;
    var r3 := if patch.expiresAt.Some? then r2.(expiresAt := patch.expiresAt) else r2;
    if patch.isPaid.Some? then r3.(isPaid := patch.isPaid.value) else r3
  }

  /** Something is given, the price is not negative, the expiry not the zero time. An empty patch writes nothing. */
  predicate Writable(patch: PassPatch) {
    && patch != PassPatch(None, None, None, None)
    && (patch.price.Some? ==> patch.price.value >= 0) && patch.expiresAt != Some(ZERO_VERSION)
  }

  function PassEditOf(t: Session): PassEdit
    requires t.pass.Some?
  {
    var row, id := t.pass.value, PassIdOf(t);
    match t.job
    case RegisterJob(a, d, _, _, _, now) => Attempt(Consume(Ledger(row, []), id, Booked(a, d), now))
    case CancelJob(r, _, _, _) =>
      if t.target == CancelledInTime && CanRefund(row) then Attempt(Refund(Ledger(row, []), id, RefundedInTime(r)))
      else Nothing
    case RejectJob(r) =>
      if CanRefund(row) then Attempt(Refund(Ledger(row, []), id, RefundedRejection(r))) else Nothing
    case ForgiveJob(r) =>
      if CanRefund(row) then Attempt(Refund(Ledger(row, []), id, RefundedForgiveness(r))) else Nothing
    case PatchPassJob(_, patch) => if Writable(patch) then Write(Ledger(Patched(row, patch), [])) else Refused
    case _ => Refused
  }

  // ---------- One statement at a time ----------

  /** SELECT ... FROM activities WHERE id = $1 FOR UPDATE, and the checks on what it returns. */
  ghost function LockActivity(s: State, client: int, t: Session): State
    requires t.job.RegisterJob?
  {
    var id := t.job.activityId;
    if !Free(s, client, OnActivity(id)) then s
    else if id !in s.activities || IsInThePast(s.activities[id], t.job.now) || s.activities[id].closed then Drop(s, client)
    else Put(s, client, t.(phase := ActivityLocked, locks := t.locks + {OnActivity(id)}))
  }

  /** The dogs holding a slot of an activity, in the order of their ids. */
  ghost function SlotDogs(dogs: map<int, Dog>, rows: map<int, ReservationRow>, a: int): seq<Dog> {
    var ids := InOrder(set r | r in Holders(rows, a) && rows[r].dogId in dogs :: rows[r].dogId);
    assert forall i :: 0 <= i < |ids| ==> ids[i] in ids;
    seq(|ids|, i requires 0 <= i < |ids| => dogs[ids[i]])
  }

  /** The verdict on a dog for an activity, given who holds its slots. */
  ghost function VerdictOn(s: State, job: Job): Result<Status, Refusal>
    requires job.RegisterJob? && job.activityId in s.activities && job.dogId in s.dogs
  {
    Admit(s.activities[job.activityId], s.dogs[job.dogId], SetOf(SlotDogs(s.dogs, s.rows, job.activityId)),
          |Holders(s.rows, job.activityId)|, job.userId, job.admin)
  }

  /** The reasons to hold the booking. */
  ghost function ReasonsOn(s: State, job: Job): seq<PendingReasons.PendingReason>
    requires job.RegisterJob? && job.dogId in s.dogs
  {
    ReasonsFor(s.dogs[job.dogId], SlotDogs(s.dogs, s.rows, job.activityId), job.admin)
  }

  /** ListByActivity, the candidate dog and the dogs holding a slot, and the admission verdict. */
  ghost function AdmitDog(s: State, client: int, t: Session): State
    requires t.job.RegisterJob?
  {
    if t.job.activityId !in s.activities || t.job.dogId !in s.dogs || VerdictOn(s, t.job).Failure? then Drop(s, client)
    else Put(s, client, t.(phase := Admitted, target := VerdictOn(s, t.job).value, reasons := ReasonsOn(s, t.job)))
  }

  /** SELECT ... FROM reservations WHERE id = $1 [FOR UPDATE], and the transition in memory. */
  ghost function LoadReservation(s: State, client: int, t: Session): State {
    var id := ReservationIdOf(t.job);
    if t.forUpdate && !Free(s, client, OnReservation(id)) then s
    else if id !in s.rows then Drop(s, client)
    else
      var target := TargetOf(s, t.job, s.rows[id]);
      if target.None? then Drop(s, client)
      else Put(s, client, t.(phase := ReservationRead, target := target.value, seen := Some(s.rows[id]),
                             locks := if t.forUpdate then t.locks + {OnReservation(id)} else t.locks))
  }

  /** SELECT ... FROM passes WHERE id = $1 [FOR UPDATE], and the checks on what it returns. */
  ghost function LoadPass(s: State, client: int, t: Session): State {
    var id := PassIdOf(t);
    var locking := t.forUpdate && !t.job.PatchPassJob?;
    if locking && !Free(s, client, OnPass(id)) then s
    else if id !in s.passes then
      // Reject and Forgive go on without a refund; everybody else gives up.
      if t.job.RejectJob? || t.job.ForgiveJob? then Put(s, client, t.(phase := PassWritten)) else Drop(s, client)
    else
      var row := s.passes[id];
      var refused := match t.job
        case RegisterJob(_, dogId, _, userId, admin, now) =>
          || (!admin && row.userId != userId) || IsExhausted(row) || IsExpired(row, now)
          || (admin && dogId in s.dogs && s.dogs[dogId].userId != row.userId)
        case CancelJob(_, userId, admin, _) => !admin && row.userId != userId
        case _ => false;
      if refused then Drop(s, client)
      else Put(s, client, t.(phase := PassRead, pass := Some(row),
                             locks := if locking then t.locks + {OnPass(id)} else t.locks))
  }

  /**
   * UPDATE passes ... WHERE id = $7 AND updated_at = $8 and the INSERTs of its movements. The trigger
   * stamps the row with a version never used before.
   */
  ghost function WritePass(s: State, client: int, t: Session): State {
    if t.pass.None? then Drop(s, client) else StoreEdit(s, client, t, PassEditOf(t), t.pass.value.version)
  }

  ghost function StoreEdit(s: State, client: int, t: Session, edit: PassEdit, expectedVersion: int): State {
    var id := PassIdOf(t);
    match edit
    case Refused => Drop(s, client)
    case Nothing => Put(s, client, t.(phase := PassWritten))
    case Write(ledger) =>
      if !Free(s, client, OnPass(id)) then s
      else if id !in s.passes || s.passes[id].version != expectedVersion then Drop(s, client)
      else
        var t' := t.(phase := if t.job.PatchPassJob? then Ready else PassWritten,
                     locks := t.locks + {OnPass(id)},
                     work := t.work.(pass := Some(ledger.row.(version := s.clock)), movements := ledger.pending));
        Put(s, client, t').(clock := s.clock + 1)
  }

  /** UPDATE reservations SET status = $1 WHERE id = $2 AND status = $3. */
  ghost function WriteReservation(s: State, client: int, t: Session): State {
    var id := ReservationIdOf(t.job);
    if !Free(s, client, OnReservation(id)) then s
    else if id !in s.rows || t.seen.None? || s.rows[id].status != t.seen.value.status then Drop(s, client)
    else Put(s, client, t.(phase := Ready, locks := t.locks + {OnReservation(id)},
                           work := t.work.(statuses := map[id := t.target])))
  }

  /** The reservation holds the dog's slot of the activity, as far as is committed. */
  predicate HasSlot(rows: map<int, ReservationRow>, r: int, a: int, d: int) {
    r in rows && rows[r].activityId == a && rows[r].dogId == d && HoldsSlot(rows[r].status)
  }

  /** Somebody else has an uncommitted status write of the reservation that holds the dog's slot. */
  ghost predicate Contested(s: State, client: int, a: int, d: int) {
    exists other, r :: other in s.sessions && other != client && r in s.sessions[other].work.statuses && HasSlot(s.rows, r, a, d)
  }

  /**
   * INSERT INTO reservations, and the rows of its reasons. The partial unique index admits one
   * slot-holding row per activity and dog; where that row has an uncommitted status write of somebody
   * else, the INSERT waits for the end of that transaction.
   */
  ghost function InsertReservation(s: State, client: int, t: Session): State
    requires t.job.RegisterJob?
  {
    var a, d := t.job.activityId, t.job.dogId;
    if Contested(s, client, a, d) then s
    else if exists r :: HasSlot(s.rows, r, a, d) then Drop(s, client)
    else
      var id := s.nextId;
      var row := ReservationRow(a, d, t.job.passId, t.target);
      Put(s, client, t.(phase := Ready, locks := t.locks + {OnReservation(id)},
                        work := t.work.(inserted := Some((id, row))))).(nextId := id + 1)
  }

  /** A batch job's SELECT of the activity (no lock), and its policy. */
  ghost function ReadActivity(s: State, client: int, t: Session): State
    requires Batch(t.job)
  {
    var id := ActivityIdOf(t.job);
    if id !in s.activities || !IsFinished(s.activities[id], t.job.now) then Drop(s, client)
    else if t.job.CloseJob? && s.activities[id].closed then Drop(s, client)
    else Put(s, client, t.(phase := ActivityRead, seenClosed := s.activities[id].closed))
  }

  /** ListByActivity: partition, refuse pending or unknown ids, sort by id. */
  ghost function ListReservations(s: State, client: int, t: Session): State
    requires Batch(t.job)
  {
    var id := ActivityIdOf(t.job);
    var confirmed := ConfirmedOf(s.rows, id);
    if t.job.CloseJob? && !(t.job.noShows <= confirmed) then Drop(s, client)
    else if t.job.BulkCompleteJob? && (exists r :: r in RowsOf(s.rows, id) && s.rows[r].status == PendingToConfirm) then
      Drop(s, client)
    else Put(s, client, t.(phase := Listed, todo := Below(confirmed, s.nextId)))
  }

  /** What a batch job makes of one CONFIRMED reservation, through the per-reservation use case. */
  function BatchTarget(s: State, job: Job, id: int, row: ReservationRow): Option<Status>
    requires Batch(job)
  {
    if row.dogId !in s.dogs then None
    else
      var owner := s.dogs[row.dogId].userId;
      if job.CloseJob? && id in job.noShows then TargetOf(s, NoShowJob(id, owner, job.now), row)
      else TargetOf(s, CompleteJob(id, owner, job.now), row)
  }

  /** SELECT ... FOR UPDATE and UPDATE of the next reservation of a batch, inside the batch's transaction. */
  ghost function ProcessNext(s: State, client: int, t: Session): State
    requires Batch(t.job) && t.todo != []
  {
    var id := t.todo[0];
    if !Free(s, client, OnReservation(id)) then s
    else if id !in s.rows || id in t.work.statuses then Drop(s, client)
    else
      var target := BatchTarget(s, t.job, id, s.rows[id]);
      if target.None? then Drop(s, client)
      else Put(s, client, t.(todo := t.todo[1..], locks := t.locks + {OnReservation(id)},
                             work := t.work.(statuses := t.work.statuses[id := target.value])))
  }

  /** UPDATE activities ... WHERE id = $11; BulkComplete skips it on an activity it saw closed. */
  ghost function CloseActivity(s: State, client: int, t: Session): State
    requires Batch(t.job)
  {
    var id := ActivityIdOf(t.job);
    if t.seenClosed then Put(s, client, t.(phase := Ready))
    else if !Free(s, client, OnActivity(id)) then s
    else if id !in s.activities then Drop(s, client)
    else Put(s, client, t.(phase := Ready, locks := t.locks + {OnActivity(id)}, work := t.work.(closes := true)))
  }

  /** SELECT COUNT(*): the guard of activity deletion, a statement of its own. */
  ghost function GuardDelete(s: State, client: int, t: Session): State
    requires t.job.DeleteActivityJob?
  {
    if Holders(s.rows, t.job.activityId) != {} then Drop(s, client) else Put(s, client, t.(phase := Guarded))
  }

  /** The given reservations in the order of the scan. */
  function Visited(scan: seq<int>, rows: set<int>): seq<int> {
    if scan == [] then []
    else if scan[0] in rows then [scan[0]] + Visited(scan[1..], rows - {scan[0]})
    else Visited(scan[1..], rows)
  }

  /** All the given reservations, each once: those of the scan first, in its order. */
  ghost function CascadeOrder(scan: seq<int>, rows: set<int>, bound: nat): seq<int> {
    Visited(scan, rows) + Below(rows - (set r | r in scan), bound)
  }

  /** DELETE FROM activities locks the activity; ON DELETE CASCADE then visits its reservations. */
  ghost function BeginDelete(s: State, client: int, t: Session): State
    requires t.job.DeleteActivityJob?
  {
    var id := t.job.activityId;
    if !Free(s, client, OnActivity(id)) then s
    else if id !in s.activities then Drop(s, client)
    else Put(s, client, t.(phase := Deleting, todo := CascadeOrder(t.job.scan, RowsOf(s.rows, id), s.nextId),
                           locks := t.locks + {OnActivity(id)}))
  }

  /** The cascade locks the reservation it has reached, in whatever order the server visits them. */
  ghost function CascadeNext(s: State, client: int, t: Session): State
    requires t.job.DeleteActivityJob? && t.todo != []
  {
    if !Free(s, client, OnReservation(t.todo[0])) then s
    else Put(s, client, t.(todo := t.todo[1..], locks := t.locks + {OnReservation(t.todo[0])}))
  }

  /** The reasons of the reservations that are left. */
  function WithoutReasons(reasons: PendingReasons.Table, gone: set<int>): PendingReasons.Table {
    map k | k in reasons && k.0 !in gone :: reasons[k]
  }

  /** The end of the DELETE: the activity, its reservations and their reasons are gone; it commits by itself. */
  ghost function DeleteRow(s: State, client: int, t: Session): State
    requires t.job.DeleteActivityJob?
  {
    var id := t.job.activityId;
    var gone := RowsOf(s.rows, id);
    Drop(s.(activities := s.activities - {id}, rows := s.rows - gone, reasons := WithoutReasons(s.reasons, gone)), client)
  }

  function Merge(rows: map<int, ReservationRow>, statuses: map<int, Status>): map<int, ReservationRow> {
    map r | r in rows :: if r in statuses then rows[r].(status := statuses[r]) else rows[r]
  }

  function WithInserted(rows: map<int, ReservationRow>, work: Work): map<int, ReservationRow> {
    if work.inserted.Some? then rows[work.inserted.value.0 := work.inserted.value.1] else rows
  }

  /** A booking held for review keeps the reasons, if there are any. */
  function WithReasons(reasons: PendingReasons.Table, t: Session): PendingReasons.Table {
    if t.work.inserted.Some? && t.target == PendingToConfirm && t.reasons != [] then
      PendingReasons.Saved(reasons, t.work.inserted.value.0, t.reasons)
    else reasons
  }

  /** COMMIT: the work becomes visible all at once and the locks go. */
  ghost function Commit(s: State, client: int, t: Session): State {
    var a := ActivityIdOf(t.job);
    Drop(s.(
      activities := if t.work.closes && a in s.activities then s.activities[a := s.activities[a].(closed := true)] else s.activities,
      passes := if t.work.pass.Some? then s.passes[PassIdOf(t) := t.work.pass.value] else s.passes,
      rows := WithInserted(Merge(s.rows, t.work.statuses), t.work),
      movements := s.movements + t.work.movements,
      reasons := WithReasons(s.reasons, t),
      ever := WithInserted(Merge(s.ever, t.work.statuses), t.work),
      byAdmin := if t.work.inserted.Some? && t.job.RegisterJob? && t.job.admin then s.byAdmin + {t.work.inserted.value.0} else s.byAdmin),
      client)
  }

  /** The next statement of a client. */
  ghost function Advance(s: State, client: int): State
    requires client in s.sessions
  {
    var t := s.sessions[client];
    match t.phase
    case Begin =>
      if t.job.RegisterJob? then LockActivity(s, client, t)
      else if Batch(t.job) then ReadActivity(s, client, t)
      else if t.job.PatchPassJob? then LoadPass(s, client, t)
      else if t.job.DeleteActivityJob? then GuardDelete(s, client, t)
      else LoadReservation(s, client, t)
    case ActivityLocked => if t.job.RegisterJob? then AdmitDog(s, client, t) else Drop(s, client)
    case Admitted => LoadPass(s, client, t)
    case ReservationRead => if Refunding(t.job) then LoadPass(s, client, t) else WriteReservation(s, client, t)
    case PassRead => WritePass(s, client, t)
    case PassWritten => if t.job.RegisterJob? then InsertReservation(s, client, t) else WriteReservation(s, client, t)
    case ActivityRead => if Batch(t.job) then ListReservations(s, client, t) else Drop(s, client)
    case Listed =>
      if !Batch(t.job) then Drop(s, client)
      else if t.todo == [] then CloseActivity(s, client, t)
      else ProcessNext(s, client, t)
    case Ready => Commit(s, client, t)
    case Guarded => if t.job.DeleteActivityJob? then BeginDelete(s, client, t) else Drop(s, client)
    case Deleting =>
      if !t.job.DeleteActivityJob? then Drop(s, client)
      else if t.todo == [] then DeleteRow(s, client, t)
      else CascadeNext(s, client, t)
  }

  // ---------- Runs ----------

  /** Start a use case, execute a client's next statement, or lose a client to any error. */
  datatype Event =
    | Start(client: int, job: Job, forUpdate: bool)
    | Proceed(client: int)
    | Abort(client: int)

  function NewSession(job: Job, forUpdate: bool): Session {
    Session(job, forUpdate, Begin, Confirmed, [], [], false, {}, None, None, NO_WORK)
  }

  ghost function Step(s: State, event: Event): State {
    match event
    case Start(client, job, forUpdate) =>
      if client in s.sessions then s else Put(s, client, NewSession(job, forUpdate))
    case Proceed(client) => if client in s.sessions then Advance(s, client) else s
    case Abort(client) => Drop(s, client)
  }

  /** The state after the first events of any interleaving. */
  ghost function Run(s: State, events: seq<Event>): State {
    if events == [] then s
    else Step(Run(s, events[..|events| - 1]), events[|events| - 1])
  }
}
