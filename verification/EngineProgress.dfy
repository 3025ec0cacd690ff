/**
 * Progress of clients that read FOR UPDATE, as the use cases do: what each statement needs, the locks a
 * client holds when it needs it, and a bound on the statements left.
 *
 * All use cases but two take what they need in one global order: reservations by ascending id, then
 * the activity, then the pass. The id-ascending sort of the two batch jobs is what makes them fit it.
 * The exceptions are the deletion of an activity, whose cascade locks reservations after the activity,
 * and a registration, whose INSERT may have to wait for a reservation while it holds activity and pass.
 */
module EngineProgress {

  import opened Outcomes
  import opened Counting
  import opened Reservations
  import opened Engine
  import opened EngineInvariant
  import opened EngineTheorems

  // ---------- The lock order ----------

  function Class(l: Lock): nat {
    match l
    case OnReservation(_) => 0
    case OnActivity(_) => 1
    case OnPass(_) => 2
  }

  predicate Before(a: Lock, b: Lock) {
    Class(a) < Class(b) || (Class(a) == Class(b) && a.id < b.id)
  }

  /** The row lock the next statement needs, if any. */
  function NextLock(t: Session): Option<Lock> {
    match t.phase
    case Begin =>
      if t.job.RegisterJob? then Some(OnActivity(t.job.activityId))
      else if (Refunding(t.job) || Moving(t.job)) && t.forUpdate then Some(OnReservation(ReservationIdOf(t.job)))
      else None
    case Admitted => if t.forUpdate then Some(OnPass(PassIdOf(t))) else None
    case ReservationRead =>
      if !Refunding(t.job) then Some(OnReservation(ReservationIdOf(t.job)))
      else if t.forUpdate then Some(OnPass(PassIdOf(t))) else None
    case PassRead => if t.pass.Some? && PassEditOf(t).Write? then Some(OnPass(PassIdOf(t))) else None
    case PassWritten => if t.job.RegisterJob? then None else Some(OnReservation(ReservationIdOf(t.job)))
    case Listed =>
      if t.todo != [] then Some(OnReservation(t.todo[0]))
      else if t.seenClosed then None else Some(OnActivity(ActivityIdOf(t.job)))
    case Guarded => Some(OnActivity(ActivityIdOf(t.job)))
    case Deleting => if t.todo != [] then Some(OnReservation(t.todo[0])) else None
    case _ => None
  }

  /** The locks a FOR UPDATE reader holds at each point. */
  ghost predicate Disciplined(t: Session) {
    && t.forUpdate
    && match t.phase
       case Begin => t.locks == {}
       case ActivityLocked => t.locks == {OnActivity(ActivityIdOf(t.job))}
       case Admitted => t.locks == {OnActivity(ActivityIdOf(t.job))}
       case ReservationRead => t.locks == {OnReservation(ReservationIdOf(t.job))}
       case PassRead =>
         if t.job.RegisterJob? then t.locks == {OnActivity(ActivityIdOf(t.job)), OnPass(PassIdOf(t))}
         else if t.job.PatchPassJob? then t.locks == {}
         else t.locks == {OnReservation(ReservationIdOf(t.job)), OnPass(PassIdOf(t))}
       case PassWritten => !t.job.RegisterJob? ==> OnReservation(ReservationIdOf(t.job)) in t.locks
       case ActivityRead => t.locks == {}
       case Listed => Ascending(t.todo) && forall l :: l in t.locks ==> l.OnReservation? && forall x :: x in t.todo ==> l.id < x
       case Ready => true
       case Guarded => t.locks == {}
       case Deleting => OnActivity(ActivityIdOf(t.job)) in t.locks && forall l :: l in t.locks ==> l.OnReservation? || l == OnActivity(ActivityIdOf(t.job))
  }

  ghost predicate AllDisciplined(s: State) {
    forall c :: c in s.sessions ==> Disciplined(s.sessions[c])
  }

  /** Which jobs reach which phase; all that is needed of the invariant here. */
  ghost predicate Staged(t: Session) {
    match t.phase
    case Begin => true
    case ActivityLocked => t.job.RegisterJob?
    case Admitted => t.job.RegisterJob?
    case ReservationRead => (Refunding(t.job) || Moving(t.job)) && t.seen.Some?
    case PassRead => t.pass.Some? && (t.job.RegisterJob? || t.job.PatchPassJob? || (Refunding(t.job) && t.seen.Some?))
    case PassWritten => t.job.RegisterJob? || (Refunding(t.job) && t.seen.Some?)
    case ActivityRead => Batch(t.job)
    case Listed => Batch(t.job)
    case Ready => true
    case Guarded => t.job.DeleteActivityJob?
    case Deleting => t.job.DeleteActivityJob?
  }

  lemma SessionsAreStaged(s: State, t: Session)
    requires SessionOk(s, t)
    ensures Staged(t)
  {}

  /** Except in a cascade, a disciplined client only ever waits for a lock that comes after all those it holds. */
  lemma WaitsUpwards(t: Session, l: Lock)
    requires Disciplined(t) && Staged(t) && t.phase != Deleting && NextLock(t) == Some(l) && l !in t.locks
    ensures forall held :: held in t.locks ==> Before(held, l)
  {
    if t.phase == Listed && t.todo != [] {
      assert t.todo[0] in t.todo;
    }
  }

  // ---------- Steps left ----------

  /** Registrations that have not drawn their id yet. */
  function Pending(t: Session): nat {
    if t.job.RegisterJob? && t.phase != Ready then 1 else 0
  }

  /** More than the statements a client still has to execute, while ids stay below `bound`. */
  function StepsLeft(t: Session, bound: nat): nat {
    match t.phase
    case Begin => if Batch(t.job) || t.job.DeleteActivityJob? then bound + 4 else 6
    case ActivityLocked => 5
    case Admitted => 4
    case ReservationRead => 4
    case PassRead => 3
    case PassWritten => 2
    case ActivityRead => bound + 3
    case Listed => |t.todo| + 2
    case Ready => 1
    case Guarded => bound + 2
    case Deleting => |t.todo| + 1
  }

  /**
   * The use case stays the same; a batch's loop and a cascade are entered from the statement before
   * them and do one reservation at a time.
   */
  predicate Continues(t: Session, t': Session) {
    && t'.job == t.job
    && (t'.phase == Deleting ==> Cascades(t, t'))
    && (t'.phase == Listed ==> Loops(t, t'))
  }

  predicate Cascades(t: Session, t': Session) {
    if t.phase == Deleting then t.todo != [] && t'.todo == t.todo[1..] && t'.locks == t.locks + {OnReservation(t.todo[0])}
    else t.phase == Guarded && t'.locks == t.locks + {OnActivity(ActivityIdOf(t.job))}
  }

  predicate Loops(t: Session, t': Session) {
    if t.phase == Listed then
      && t.todo != [] && t'.todo == t.todo[1..] && t'.seenClosed == t.seenClosed
      && t'.work.statuses.Keys == t.work.statuses.Keys + {t.todo[0]}
    else t.phase == ActivityRead && t'.work == t.work
  }

  /** A client moves on: discipline is kept and fewer steps are left; ids are drawn by registrations only. */
  ghost predicate Forward(t: Session, t': Session, n: nat, n': nat) {
    && Continues(t, t') && (Disciplined(t) ==> Disciplined(t'))
    && (if n' == n then Pending(t') == Pending(t) else n' == n + 1 && Pending(t) == 1 && Pending(t') == 0)
    && (forall bound: nat :: bound >= n ==> FewerSteps(t, t', bound))
  }

  predicate FewerSteps(t: Session, t': Session, bound: nat) {
    StepsLeft(t', bound) < StepsLeft(t, bound)
  }

  /** The INSERT of the registration meets this reservation in the partial unique index. */
  predicate InsertMeets(s: State, t: Session, r: int) {
    t.job.RegisterJob? && t.phase == PassWritten && HasSlot(s.rows, r, t.job.activityId, t.job.dogId)
  }

  /** u has a lock that t's next statement needs, or is changing the reservation that t's INSERT meets. */
  ghost predicate Obstructs(s: State, u: Session, t: Session) {
    || (NextLock(t).Some? && NextLock(t).value in u.locks)
    || exists r :: r in u.work.statuses && InsertMeets(s, t, r)
  }

  ghost predicate Blocked(s: State, client: int, t: Session) {
    exists h :: h in s.sessions && h != client && Obstructs(s, s.sessions[h], t)
  }

  /** The three things a statement can do: wait for somebody, end the client, or move it on. */
  ghost predicate Outcome(s: State, s': State, client: int, t: Session) {
    || (s' == s && Blocked(s, client, t))
    || (s'.sessions == s.sessions - {client} && s'.nextId == s.nextId)
    || (client in s'.sessions && s'.sessions == s.sessions[client := s'.sessions[client]]
        && Forward(t, s'.sessions[client], s.nextId, s'.nextId))
  }

  lemma LockActivityOutcome(s: State, client: int, t: Session)
    requires t.job.RegisterJob? && t.phase == Begin
    ensures Outcome(s, LockActivity(s, client, t), client, t)
  {}

  lemma AdmitDogOutcome(s: State, client: int, t: Session)
    requires t.job.RegisterJob? && t.phase == ActivityLocked
    ensures Outcome(s, AdmitDog(s, client, t), client, t)
  {
    var s' := AdmitDog(s, client, t);
    if s' != Drop(s, client) {
      var t' := t.(phase := Admitted, target := VerdictOn(s, t.job).value, reasons := ReasonsOn(s, t.job));
      LocalIsForward(t, t', s.nextId);
      assert s' == Put(s, client, t');
    }
  }

  /** A step that draws no id, enters neither loop and does not read FOR UPDATE. */
  lemma LocalIsForward(t: Session, t': Session, n: nat)
    requires t' == t.(phase := t'.phase, target := t'.target, reasons := t'.reasons, seenClosed := t'.seenClosed)
    requires || (t.phase == ActivityLocked && t.job.RegisterJob? && t'.phase == Admitted)
             || (t.phase == Begin && Batch(t.job) && t'.phase == ActivityRead)
    ensures Forward(t, t', n, n)
  {}

  lemma InsertOutcome(s: State, client: int, t: Session)
    requires t.job.RegisterJob? && t.phase == PassWritten
    ensures Outcome(s, InsertReservation(s, client, t), client, t)
  {
    var s' := InsertReservation(s, client, t);
    if s' != s && s' != Drop(s, client) {
      var t' := s'.sessions[client];
      InsertingIsForward(t, t', s.nextId);
      assert s' == Put(s, client, t').(nextId := s.nextId + 1);
    }
  }

  lemma InsertingIsForward(t: Session, t': Session, n: nat)
    requires t.job.RegisterJob? && t.phase == PassWritten
    requires t' == t.(phase := Ready, locks := t'.locks, work := t'.work)
    ensures Forward(t, t', n, n + 1)
  {}

  lemma LoadReservationOutcome(s: State, client: int, t: Session)
    requires t.phase == Begin && (Refunding(t.job) || Moving(t.job))
    ensures Outcome(s, LoadReservation(s, client, t), client, t)
  {}

  lemma PassReadIsForward(t: Session, t': Session, n: nat)
    requires Staged(t)
    requires t.phase == Admitted || (t.phase == ReservationRead && Refunding(t.job)) || (t.phase == Begin && t.job.PatchPassJob?)
    requires t' == t.(phase := PassRead, pass := t'.pass, locks := t'.locks) && t'.pass.Some?
    requires t'.locks == if t.forUpdate && !t.job.PatchPassJob? then t.locks + {OnPass(PassIdOf(t))} else t.locks
    ensures Forward(t, t', n, n)
  {}

  lemma PassSkippedIsForward(t: Session, n: nat)
    requires Staged(t) && t.phase == ReservationRead && Refunding(t.job)
    ensures Forward(t, t.(phase := PassWritten), n, n)
  {}

  lemma LoadPassOutcome(s: State, client: int, t: Session)
    requires Staged(t)
    requires t.phase == Admitted || (t.phase == ReservationRead && Refunding(t.job)) || (t.phase == Begin && t.job.PatchPassJob?)
    ensures Outcome(s, LoadPass(s, client, t), client, t)
  {
    var s', id := LoadPass(s, client, t), PassIdOf(t);
    var locking := t.forUpdate && !t.job.PatchPassJob?;
    if locking && !Free(s, client, OnPass(id)) {
      assert s' == s && NextLock(t) == Some(OnPass(id));
    } else if s' != Drop(s, client) {
      var t' := s'.sessions[client];
      assert s' == Put(s, client, t');
      if id in s.passes {
        PassReadIsForward(t, t', s.nextId);
      } else {
        PassSkippedIsForward(t, s.nextId);
      }
    }
  }

  lemma StoreEditOutcome(s: State, client: int, t: Session, edit: PassEdit, version: int)
    requires t.phase == PassRead && (t.job.RegisterJob? || t.job.PatchPassJob? || Refunding(t.job))
    requires t.job.PatchPassJob? ==> edit != Nothing
    ensures var s' := StoreEdit(s, client, t, edit, version);
      || (s' == s && edit.Write? && !Free(s, client, OnPass(PassIdOf(t))))
      || (s'.sessions == s.sessions - {client} && s'.nextId == s.nextId)
      || (client in s'.sessions && s'.sessions == s.sessions[client := s'.sessions[client]]
          && Forward(t, s'.sessions[client], s.nextId, s'.nextId))
  {
    if edit.Write? {
      var t' := t.(phase := if t.job.PatchPassJob? then Ready else PassWritten, locks := t.locks + {OnPass(PassIdOf(t))},
                   work := t.work.(pass := Some(edit.ledger.row.(version := s.clock)), movements := edit.ledger.pending));
      EditIsForward(t, t', s.nextId);
      var s' := StoreEdit(s, client, t, edit, version);
      assert !Free(s, client, OnPass(PassIdOf(t))) || s' == Drop(s, client) || s' == Put(s, client, t').(clock := s.clock + 1);
    } else if edit.Nothing? {
      EditIsForward(t, t.(phase := PassWritten), s.nextId);
    }
  }

  lemma EditIsForward(t: Session, t': Session, n: nat)
    requires t.phase == PassRead && (t.job.RegisterJob? || t.job.PatchPassJob? || Refunding(t.job))
    requires t' == t.(phase := t'.phase, locks := t'.locks, work := t'.work) && t.locks <= t'.locks
    requires t'.phase == if t.job.PatchPassJob? then Ready else PassWritten
    ensures Forward(t, t', n, n)
  {}

  lemma WritePassOutcome(s: State, client: int, t: Session)
    requires Staged(t) && t.phase == PassRead
    ensures Outcome(s, WritePass(s, client, t), client, t)
  {
    var edit := PassEditOf(t);
    StoreEditOutcome(s, client, t, edit, t.pass.value.version);
    assert edit.Write? ==> NextLock(t) == Some(OnPass(PassIdOf(t)));
  }

  lemma WriteReservationOutcome(s: State, client: int, t: Session)
    requires Staged(t)
    requires (t.phase == ReservationRead && Moving(t.job)) || (t.phase == PassWritten && !t.job.RegisterJob?)
    ensures Outcome(s, WriteReservation(s, client, t), client, t)
  {}

  lemma {:induction false} BelowIsShort(x: set<int>, bound: nat)
    ensures |Below(x, bound)| <= bound
  {
    if bound == 0 {
    } else {
      BelowIsShort(x, bound - 1);
    }
  }

  lemma ReadActivityOutcome(s: State, client: int, t: Session)
    requires Batch(t.job) && t.phase == Begin
    ensures Outcome(s, ReadActivity(s, client, t), client, t)
  {
    var s' := ReadActivity(s, client, t);
    if s' != Drop(s, client) {
      var t' := t.(phase := ActivityRead, seenClosed := s.activities[ActivityIdOf(t.job)].closed);
      LocalIsForward(t, t', s.nextId);
      assert s' == Put(s, client, t');
    }
  }

  lemma ListReservationsOutcome(s: State, client: int, t: Session)
    requires Batch(t.job) && t.phase == ActivityRead
    ensures Outcome(s, ListReservations(s, client, t), client, t)
  {
    var s' := ListReservations(s, client, t);
    var todo := Below(ConfirmedOf(s.rows, ActivityIdOf(t.job)), s.nextId);
    BelowIsShort(ConfirmedOf(s.rows, ActivityIdOf(t.job)), s.nextId);
    ListingIsForward(t, todo, s.nextId);
    assert s' == Drop(s, client) || s' == Put(s, client, t.(phase := Listed, todo := todo));
  }

  lemma ListingIsForward(t: Session, todo: seq<int>, n: nat)
    requires Batch(t.job) && t.phase == ActivityRead && Ascending(todo) && |todo| <= n
    ensures Forward(t, t.(phase := Listed, todo := todo), n, n)
  {}

  lemma CloseActivityOutcome(s: State, client: int, t: Session)
    requires Batch(t.job) && t.phase == Listed && t.todo == []
    ensures Outcome(s, CloseActivity(s, client, t), client, t)
  {
    var s', a := CloseActivity(s, client, t), OnActivity(ActivityIdOf(t.job));
    if t.seenClosed {
      ClosingIsForward(t, t.(phase := Ready), s.nextId);
      assert s' == Put(s, client, t.(phase := Ready));
    } else if Free(s, client, a) && s' != Drop(s, client) {
      var t' := t.(phase := Ready, locks := t.locks + {a}, work := t.work.(closes := true));
      ClosingIsForward(t, t', s.nextId);
      assert s' == Put(s, client, t');
    }
  }

  lemma ClosingIsForward(t: Session, t': Session, n: nat)
    requires Batch(t.job) && t.phase == Listed && t.todo == []
    requires t' == t.(phase := Ready, locks := t'.locks, work := t'.work)
    ensures Forward(t, t', n, n)
  {}

  lemma ProcessNextOutcome(s: State, client: int, t: Session)
    requires Batch(t.job) && t.phase == Listed && t.todo != []
    ensures Outcome(s, ProcessNext(s, client, t), client, t)
  {
    var s', id := ProcessNext(s, client, t), t.todo[0];
    if Free(s, client, OnReservation(id)) && s' != Drop(s, client) {
      var target := BatchTarget(s, t.job, id, s.rows[id]).value;
      ProcessingIsForward(t, target, s.nextId);
      assert s' == Put(s, client, Processed(t, target));
    }
  }

  function Processed(t: Session, target: Status): Session
    requires t.todo != []
  {
    t.(todo := t.todo[1..], locks := t.locks + {OnReservation(t.todo[0])},
       work := t.work.(statuses := t.work.statuses[t.todo[0] := target]))
  }

  lemma ProcessingIsForward(t: Session, target: Status, n: nat)
    requires Batch(t.job) && t.phase == Listed && t.todo != []
    ensures Forward(t, Processed(t, target), n, n)
  {
    forall x | x in t.todo[1..] && Ascending(t.todo)
      ensures t.todo[0] < x && x in t.todo
    {}
  }

  lemma GuardOutcome(s: State, client: int, t: Session)
    requires t.job.DeleteActivityJob? && t.phase == Begin
    ensures Outcome(s, GuardDelete(s, client, t), client, t)
  {}

  lemma {:induction false} VisitedCount(scan: seq<int>, rows: set<int>)
    ensures |Visited(scan, rows)| == |set r | r in rows && r in scan|
  {
    var here := set r | r in rows && r in scan;
    if scan == [] {
      forall r
        ensures r !in here
      {}
      assert here == {};
    } else {
      var rest := scan[1..];
      assert scan == [scan[0]] + rest;
      if scan[0] in rows {
        VisitedCount(rest, rows - {scan[0]});
        assert here == (set r | r in rows - {scan[0]} && r in rest) + {scan[0]};
      } else {
        VisitedCount(rest, rows);
        assert here == set r | r in rows && r in rest;
      }
    }
  }

  lemma {:induction false} BelowCount(rows: set<int>, bound: nat)
    requires forall r :: r in rows ==> 0 <= r < bound
    ensures |Below(rows, bound)| == |rows| <= bound
  {
    if bound == 0 {
      forall r
        ensures r !in rows
      {}
      assert rows == {};
    } else {
      var fewer := rows - {bound - 1};
      BelowCount(fewer, bound - 1);
      BelowIgnores(rows, bound - 1, bound - 1);
    }
  }

  lemma {:induction false} BelowIgnores(rows: set<int>, x: int, bound: nat)
    requires bound <= x
    ensures Below(rows, bound) == Below(rows - {x}, bound)
  {
    if bound == 0 {
    } else {
      BelowIgnores(rows, x, bound - 1);
    }
  }

  lemma CascadeIsShort(scan: seq<int>, rows: set<int>, bound: nat)
    requires forall r :: r in rows ==> 0 <= r < bound
    ensures |CascadeOrder(scan, rows, bound)| <= bound
  {
    var here := set r | r in rows && r in scan;
    var rest := rows - set r | r in scan;
    VisitedCount(scan, rows);
    BelowCount(rest, bound);
    BelowCount(rows, bound);
    assert rows == here + rest;
  }

  lemma DeletingIsForward(t: Session, todo: seq<int>, n: nat)
    requires t.job.DeleteActivityJob? && t.phase == Guarded && |todo| <= n
    ensures Forward(t, t.(phase := Deleting, todo := todo, locks := t.locks + {OnActivity(t.job.activityId)}), n, n)
  {}

  lemma BeginDeleteOutcome(s: State, client: int, t: Session)
    requires t.job.DeleteActivityJob? && t.phase == Guarded && forall r :: r in s.rows ==> 0 <= r < s.nextId
    ensures Outcome(s, BeginDelete(s, client, t), client, t)
  {
    var todo := CascadeOrder(t.job.scan, RowsOf(s.rows, t.job.activityId), s.nextId);
    CascadeIsShort(t.job.scan, RowsOf(s.rows, t.job.activityId), s.nextId);
    DeletingIsForward(t, todo, s.nextId);
    var t' := t.(phase := Deleting, todo := todo, locks := t.locks + {OnActivity(t.job.activityId)});
    if Free(s, client, OnActivity(t.job.activityId)) {
      assert BeginDelete(s, client, t) == Drop(s, client) || BeginDelete(s, client, t) == Put(s, client, t');
    }
  }

  lemma CascadeOutcome(s: State, client: int, t: Session)
    requires t.job.DeleteActivityJob? && t.phase == Deleting
    ensures t.todo != [] ==> Outcome(s, CascadeNext(s, client, t), client, t)
    ensures t.todo == [] ==> Outcome(s, DeleteRow(s, client, t), client, t)
  {}

  /** Reservations carry ids the sequence has drawn. */
  ghost predicate IdsDrawn(s: State) {
    forall r :: r in s.rows ==> 0 <= r < s.nextId
  }

  lemma AdvanceOutcome(s: State, client: int)
    requires client in s.sessions && Staged(s.sessions[client]) && IdsDrawn(s)
    ensures Outcome(s, Advance(s, client), client, s.sessions[client])
  {
    var t := s.sessions[client];
    match t.phase
    case Begin =>
      if t.job.RegisterJob? {
        LockActivityOutcome(s, client, t);
      } else if Batch(t.job) {
        ReadActivityOutcome(s, client, t);
      } else if t.job.PatchPassJob? {
        LoadPassOutcome(s, client, t);
      } else if t.job.DeleteActivityJob? {
        GuardOutcome(s, client, t);
      } else {
        LoadReservationOutcome(s, client, t);
      }
    case ActivityLocked => AdmitDogOutcome(s, client, t);
    case Admitted => LoadPassOutcome(s, client, t);
    case ReservationRead =>
      if Refunding(t.job) {
        LoadPassOutcome(s, client, t);
      } else {
        WriteReservationOutcome(s, client, t);
      }
    case PassRead => WritePassOutcome(s, client, t);
    case PassWritten =>
      if t.job.RegisterJob? {
        InsertOutcome(s, client, t);
      } else {
        WriteReservationOutcome(s, client, t);
      }
    case ActivityRead => ListReservationsOutcome(s, client, t);
    case Listed =>
      if t.todo == [] {
        CloseActivityOutcome(s, client, t);
      } else {
        ProcessNextOutcome(s, client, t);
      }
    case Ready =>
    case Guarded => BeginDeleteOutcome(s, client, t);
    case Deleting => CascadeOutcome(s, client, t);
  }

  // ---------- Discipline is kept ----------

  lemma StepDisciplines(s: State, event: Event)
    requires Inv(s) && AllDisciplined(s) && (event.Start? ==> event.forUpdate)
    ensures AllDisciplined(Step(s, event))
  {
    if event.Proceed? && event.client in s.sessions {
      SessionsAreStaged(s, s.sessions[event.client]);
      AdvanceOutcome(s, event.client);
    }
  }

  lemma {:induction false} RunDisciplines(s: State, events: seq<Event>)
    requires Inv(s) && AllDisciplined(s)
    requires forall e :: e in events && e.Start? ==> e.forUpdate
    ensures AllDisciplined(Run(s, events))
  {
    if events == [] {
    } else {
      var init := events[..|events| - 1];
      RunDisciplines(s, init);
      RunKeeps(s, init);
      StepDisciplines(Run(s, init), events[|events| - 1]);
    }
  }

  // ---------- Waiting ----------

  /** The client's next statement has to wait. */
  ghost predicate Waits(s: State, client: int)
    requires client in s.sessions
  {
    Advance(s, client) == s
  }

  ghost predicate AllStaged(s: State) {
    IdsDrawn(s) && forall c :: c in s.sessions ==> Staged(s.sessions[c])
  }

  lemma InvIsStaged(s: State)
    requires Inv(s)
    ensures AllStaged(s)
  {
    forall c | c in s.sessions
      ensures Staged(s.sessions[c])
    {
      SessionsAreStaged(s, s.sessions[c]);
    }
  }

  /** A statement touches its own client's session only. */
  lemma OthersStay(s: State, client: int)
    requires Inv(s) && client in s.sessions
    ensures var s' := Advance(s, client);
      forall c :: c != client ==> (c in s'.sessions <==> c in s.sessions) && (c in s.sessions ==> s'.sessions[c] == s.sessions[c])
  {
    InvIsStaged(s);
    AdvanceOutcome(s, client);
  }

  // ---------- No schedule runs for ever ----------

  /** No repetitions, and every client in flight is on the list. */
  ghost predicate Covers(clients: seq<int>, s: State) {
    && (forall i, j :: 0 <= i < j < |clients| ==> clients[i] != clients[j])
    && (forall c :: c in s.sessions ==> c in clients)
  }

  function PendingAmong(sessions: map<int, Session>, clients: seq<int>): nat {
    if clients == [] then 0
    else
      var c := clients[|clients| - 1];
      PendingAmong(sessions, clients[..|clients| - 1]) + if c in sessions then Pending(sessions[c]) else 0
  }

  function StepsAmong(sessions: map<int, Session>, clients: seq<int>, bound: nat): nat {
    if clients == [] then 0
    else
      var c := clients[|clients| - 1];
      StepsAmong(sessions, clients[..|clients| - 1], bound) + if c in sessions then StepsLeft(sessions[c], bound) else 0
  }

  /** No id at or above this will be drawn by the clients in flight. */
  function IdBound(s: State, clients: seq<int>): nat {
    s.nextId + PendingAmong(s.sessions, clients)
  }

  /** More than all the statements left to execute. */
  function WorkLeft(s: State, clients: seq<int>): nat {
    StepsAmong(s.sessions, clients, IdBound(s, clients))
  }

  lemma {:induction false} StepsGrowWithTheBound(sessions: map<int, Session>, clients: seq<int>, low: nat, high: nat)
    requires low <= high
    ensures StepsAmong(sessions, clients, low) <= StepsAmong(sessions, clients, high)
  {
    if clients == [] {
    } else {
      StepsGrowWithTheBound(sessions, clients[..|clients| - 1], low, high);
    }
  }

  function PendingOf(sessions: map<int, Session>, c: int): nat {
    if c in sessions then Pending(sessions[c]) else 0
  }

  function StepsOf(sessions: map<int, Session>, c: int, bound: nat): nat {
    if c in sessions then StepsLeft(sessions[c], bound) else 0
  }

  /** Changing one client changes the sums by that client's share. */
  lemma {:induction false} OneClientChanges(a: map<int, Session>, b: map<int, Session>, clients: seq<int>, c: int, bound: nat)
    requires forall d :: d != c ==> (d in a <==> d in b) && (d in a ==> a[d] == b[d])
    requires forall i, j :: 0 <= i < j < |clients| ==> clients[i] != clients[j]
    ensures if c in clients
      then PendingAmong(b, clients) + PendingOf(a, c) == PendingAmong(a, clients) + PendingOf(b, c)
        && StepsAmong(b, clients, bound) + StepsOf(a, c, bound) == StepsAmong(a, clients, bound) + StepsOf(b, c, bound)
      else PendingAmong(b, clients) == PendingAmong(a, clients) && StepsAmong(b, clients, bound) == StepsAmong(a, clients, bound)
  {
    if clients == [] {
    } else {
      var init, last := clients[..|clients| - 1], clients[|clients| - 1];
      OneClientChanges(a, b, init, c, bound);
      assert clients == init + [last];
      if last == c {
        assert c !in init;
      }
    }
  }

  /** A statement that goes through leaves less work. */
  lemma StepsDecrease(s: State, client: int, clients: seq<int>)
    requires AllStaged(s) && Covers(clients, s) && client in s.sessions && !Waits(s, client)
    ensures Covers(clients, Advance(s, client)) && WorkLeft(Advance(s, client), clients) < WorkLeft(s, clients)
  {
    var s' := Advance(s, client);
    var t := s.sessions[client];
    AdvanceOutcome(s, client);
    var before, after := IdBound(s, clients), IdBound(s', clients);
    OneClientChanges(s.sessions, s'.sessions, clients, client, before);
    assert after <= before;
    assert client in s'.sessions ==> FewerSteps(t, s'.sessions[client], before);
    StepsGrowWithTheBound(s'.sessions, clients, after, before);
    assert StepsOf(s.sessions, client, before) > 0;
  }

  lemma RunOfOne(s: State, event: Event)
    ensures Run(s, [event]) == Step(s, event)
  {
    assert [event][..0] == [];
    assert Run(s, []) == s;
  }

  lemma RunAppends(s: State, init: seq<Event>, last: Event)
    ensures Run(s, init + [last]) == Step(Run(s, init), last)
  {
    var all := init + [last];
    assert all[..|all| - 1] == init && all[|all| - 1] == last;
  }

  lemma {:induction false} RunPrepends(s: State, first: Event, rest: seq<Event>)
    ensures Run(s, [first] + rest) == Run(Step(s, first), rest)
  {
    if rest == [] {
      assert [first] + rest == [first];
      RunOfOne(s, first);
    } else {
      var init, last := rest[..|rest| - 1], rest[|rest| - 1];
      RunPrepends(s, first, init);
      RunAppends(s, [first] + init, last);
      RunAppends(Step(s, first), init, last);
      assert [first] + rest == ([first] + init) + [last];
      assert rest == init + [last];
    }
  }

  /** How many of the events are statements that go through. */
  ghost function StatementsDone(s: State, events: seq<Event>): nat {
    if events == [] then 0
    else
      var init, last := events[..|events| - 1], events[|events| - 1];
      var before := Run(s, init);
      StatementsDone(s, init) + if last.Proceed? && last.client in before.sessions && !Waits(before, last.client) then 1 else 0
  }

  /** No schedule of the clients in flight can execute more statements than WorkLeft, whatever the order. */
  lemma {:induction false} NoScheduleRunsForEver(s: State, events: seq<Event>, clients: seq<int>)
    requires Inv(s) && Covers(clients, s) && forall e :: e in events ==> !e.Start?
    ensures Inv(Run(s, events)) && Covers(clients, Run(s, events))
    ensures StatementsDone(s, events) + WorkLeft(Run(s, events), clients) <= WorkLeft(s, clients)
  {
    if events == [] {
    } else {
      var init, last := events[..|events| - 1], events[|events| - 1];
      NoScheduleRunsForEver(s, init, clients);
      var before := Run(s, init);
      StepKeeps(before, last);
      InvIsStaged(before);
      if last.Proceed? {
        if last.client in before.sessions && !Waits(before, last.client) {
          StepsDecrease(before, last.client, clients);
        }
      } else {
        AbortsLeaveLess(before, last.client, clients);
      }
    }
  }

  lemma AbortsLeaveLess(s: State, client: int, clients: seq<int>)
    requires Covers(clients, s)
    ensures Covers(clients, Drop(s, client)) && WorkLeft(Drop(s, client), clients) <= WorkLeft(s, clients)
  {
    var s' := Drop(s, client);
    var before, after := IdBound(s, clients), IdBound(s', clients);
    OneClientChanges(s.sessions, s'.sessions, clients, client, before);
    StepsGrowWithTheBound(s'.sessions, clients, after, before);
  }
}
