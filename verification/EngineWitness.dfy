/**
 * Runs that show what can go wrong. From any state in which a deletion has passed its guard, a booking
 * that is possible can still be committed before the DELETE, which then takes it along. And each of the
 * two ways to a deadlock is reached from an opening state.
 */
module EngineWitness {

  import opened Outcomes
  import opened Counting
  import Durations
  import opened Reservations
  import opened Passes
  import opened Activities
  import opened Compatibility
  import opened Engine
  import opened EngineInvariant
  import opened EngineLocal
  import opened EngineTheorems
  import opened EngineProgress
  import opened EngineDeadlock
  import opened EngineSerial
  import opened EngineAlone

  /** Some run of FOR UPDATE readers leads from the one state to the other. */
  ghost predicate LeadsTo(s0: State, s: State) {
    exists events: seq<Event> :: (forall e :: e in events && e.Start? ==> e.forUpdate) && Run(s0, events) == s
  }

  ghost function From(s0: State): iset<State> {
    iset s | LeadsTo(s0, s)
  }

  /** Closed under the events of FOR UPDATE readers. */
  ghost predicate Onward(good: iset<State>) {
    forall s, e: Event :: s in good && (e.Start? ==> e.forUpdate) ==> Step(s, e) in good
  }

  lemma FromIsOnward(s0: State)
    ensures Onward(From(s0)) && s0 in From(s0)
  {
    forall s, e: Event | s in From(s0) && (e.Start? ==> e.forUpdate)
      ensures Step(s, e) in From(s0)
    {
      var events: seq<Event> :| (forall x :: x in events && x.Start? ==> x.forUpdate) && Run(s0, events) == s;
      RunAppends(s0, events, e);
      assert forall x :: x in events + [e] && x.Start? ==> x.forUpdate;
    }
    assert Run(s0, []) == s0;
  }

  ghost function Outside(good: iset<State>): iset<State> {
    iset s | s !in good
  }

  /** A lemma that goes back from a state to the one before can be used to go on as well. */
  lemma OutsideIsBackward(good: iset<State>, client: int)
    requires Onward(good)
    ensures Backward(Outside(good), client)
  {
    forall x | Step(x, Proceed(client)) in Outside(good)
      ensures x in Outside(good)
    {
      assert x in good ==> Step(x, Proceed(client)) in good;
    }
  }

  /** A possible booking that nobody interferes with is reached. */
  lemma BookingIsReached(good: iset<State>, s: State, client: int, job: Job)
    requires Onward(good) && s in good && Idle(s.sessions, client) && job.RegisterJob? && Bookable(s, job)
    ensures Booking(s, job) in good
  {
    OutsideIsBackward(good, client);
    assert Step(s, Start(client, job, true)) in good;
    if Booking(s, job) !in good {
      RegisterReaches(s, client, job, true, Outside(good));
    }
  }

  // ---------- Overtaking a guard ----------

  /** Everybody but one client is lost. */
  lemma {:induction false} TheOthersAreLost(good: iset<State>, s: State, client: int)
    requires Onward(good) && s in good && client in s.sessions
    ensures s.(sessions := map[client := s.sessions[client]]) in good
    decreases s.sessions.Keys
  {
    if forall c :: c in s.sessions ==> c == client {
      assert s.sessions == map[client := s.sessions[client]];
      assert s.(sessions := s.sessions) == s;
    } else {
      var other :| other in s.sessions && other != client;
      var rest := Step(s, Abort(other));
      assert rest.sessions.Keys == s.sessions.Keys - {other};
      TheOthersAreLost(good, rest, client);
      assert rest.(sessions := map[client := s.sessions[client]]) == s.(sessions := map[client := s.sessions[client]]);
    }
  }

  /** A deletion at one of its statements, and nobody else in flight. */
  ghost predicate OnlyDeleting(s: State, d: int, t: Session) {
    s.sessions == map[d := t] && t.job.DeleteActivityJob? && t.phase == Deleting
  }

  lemma DeleteBegins(good: iset<State>, s: State, d: int, t: Session) returns (s': State, t': Session)
    requires Onward(good) && s in good && s.sessions == map[d := t] && t.job.DeleteActivityJob? && t.phase == Guarded
    requires t.job.activityId in s.activities
    ensures s' in good && s' == s.(sessions := s'.sessions) && OnlyDeleting(s', d, t') && t'.job == t.job
  {
    s' := Step(s, Proceed(d));
    t' := t.(phase := Deleting, todo := CascadeOrder(t.job.scan, RowsOf(s.rows, t.job.activityId), s.nextId),
             locks := t.locks + {OnActivity(t.job.activityId)});
    assert s' == BeginDelete(s, d, t);
    assert Free(s, d, OnActivity(t.job.activityId));
    assert s.sessions[d := t'] == map[d := t'];
  }

  lemma {:induction false} CascadeRuns(good: iset<State>, s: State, d: int, t: Session) returns (s': State, t': Session)
    requires Onward(good) && s in good && OnlyDeleting(s, d, t)
    ensures s' in good && s' == s.(sessions := s'.sessions) && OnlyDeleting(s', d, t') && t'.job == t.job && t'.todo == []
    decreases |t.todo|
  {
    s', t' := s, t;
    if t.todo == [] {
    } else {
      s', t' := Step(s, Proceed(d)), t.(todo := t.todo[1..], locks := t.locks + {OnReservation(t.todo[0])});
      assert s' == CascadeNext(s, d, t);
      assert Free(s, d, OnReservation(t.todo[0]));
      assert s.sessions[d := t'] == map[d := t'];
      s', t' := CascadeRuns(good, s', d, t');
    }
  }

  lemma DeletionEnds(s: State, d: int, t: Session)
    requires OnlyDeleting(s, d, t) && t.todo == []
    ensures var after := Step(s, Proceed(d));
      t.job.activityId !in after.activities && forall r :: r in RowsOf(s.rows, t.job.activityId) ==> r !in after.rows
  {
    assert Step(s, Proceed(d)) == DeleteRow(s, d, t);
  }

  /** The tables decide on a booking, not who else is in flight. */
  lemma SameBookable(s: State, s': State, job: Job)
    requires job.RegisterJob? && s' == s.(sessions := s'.sessions) && Bookable(s, job)
    ensures Bookable(s', job) && VerdictOn(s', job) == VerdictOn(s, job)
  {
    assert forall r :: !HasSlot(s'.rows, r, job.activityId, job.dogId);
  }

  lemma OvertakenFrom(good: iset<State>, s: State, d: int, client: int, job: Job) returns (last: State)
    requires Onward(good) && s in good && Inv(s) && d in s.sessions && s.sessions[d].phase == Guarded && client != d
    requires job.RegisterJob? && s.sessions[d].job.DeleteActivityJob? && job.activityId == s.sessions[d].job.activityId
    requires Bookable(s, job)
    ensures last in good && s.nextId in last.rows && last.rows[s.nextId] == BookingOf(job, VerdictOn(s, job).value)
    ensures var after := Step(last, Proceed(d)); job.activityId !in after.activities && s.nextId !in after.rows
  {
    var alone := s.(sessions := map[d := s.sessions[d]]);
    TheOthersAreLost(good, s, d);
    assert SessionOk(s, s.sessions[d]);
    SameBookable(s, alone, job);
    BookingIsReached(good, alone, client, job);
    last := DeletionTakes(good, Booking(alone, job), d, s.sessions[d], s.nextId);
  }

  /** By itself a deletion that has passed its guard takes any reservation of the activity along. */
  lemma DeletionTakes(good: iset<State>, s: State, d: int, t: Session, r: int) returns (last: State)
    requires Onward(good) && s in good && s.sessions == map[d := t] && t.job.DeleteActivityJob? && t.phase == Guarded
    requires t.job.activityId in s.activities && r in RowsOf(s.rows, t.job.activityId)
    ensures last in good && last.rows == s.rows
    ensures var after := Step(last, Proceed(d)); t.job.activityId !in after.activities && r !in after.rows
  {
    var begun, t1 := DeleteBegins(good, s, d, t);
    var cascaded, t2 := CascadeRuns(good, begun, d, t1);
    DeletionEnds(cascaded, d, t2);
    last := cascaded;
  }

  /**
   * The guard does not keep its promise: from every state in which a deletion has passed it, and in which
   * a booking of the activity is possible outright, some run commits that booking and then the DELETE
   * takes the CONFIRMED reservation along. (While a sealed activity's guard does: SealedGuardsHold.)
   */
  lemma GuardIsOvertaken(s: State, d: int, client: int, job: Job) returns (last: State)
    requires Inv(s) && d in s.sessions && s.sessions[d].phase == Guarded && client != d
    requires job.RegisterJob? && s.sessions[d].job.DeleteActivityJob? && job.activityId == s.sessions[d].job.activityId
    requires Bookable(s, job) && VerdictOn(s, job) == Success(Confirmed)
    ensures LeadsTo(s, last) && s.nextId in last.rows && last.rows[s.nextId] == BookingOf(job, Confirmed)
    ensures var after := Step(last, Proceed(d)); job.activityId !in after.activities && s.nextId !in after.rows
  {
    FromIsOnward(s);
    last := OvertakenFrom(From(s), s, d, client, job);
  }

  // ---------- An opening state ----------

  const DOG := Dog(1, "Lua", 1, Female, true, true, false, 4.0, [], [])
  const ACTIVITY := ActivityRow(Socialization, 2, 1, 100, false, None, None)
  const PASS := PassRow(1, 2, 2, 0, Generic, None, true, 0)

  const DELETION := DeleteActivityJob(7, [])
  const BOOKING := RegisterJob(7, 1, 3, 1, true, 0)
  const CLOSING := CloseJob(7, {}, 200 + Durations.HOUR)

  const BOOKED := ReservationRow(7, 1, 3, Confirmed)
  const GUARDED: Session := NewSession(DELETION, true).(phase := Guarded)

  /** An activity in the future, a dog and a pass. */
  ghost function AtFirst(): State {
    State(map[1 := DOG], map[7 := ACTIVITY], map[3 := PASS], map[], [], map[], map[], {}, 1, 1, map[])
  }

  /** Later: the dog has a place, and these clients are in flight. */
  ghost predicate OneBooked(s: State, others: map<int, Session>) {
    && s.dogs == map[1 := DOG] && s.activities == map[7 := ACTIVITY] && s.passes.Keys == {3}
    && s.rows == map[1 := BOOKED] && s.nextId == 2 && s.sessions == others
  }

  /** With an override the dog is let in as long as there is a place. */
  lemma OverrideIsConfirmed(s: State)
    requires s.dogs == map[1 := DOG] && s.activities == map[7 := ACTIVITY] && |Holders(s.rows, 7)| < 2
    ensures VerdictOn(s, BOOKING) == Success(Confirmed) && MayEnter(s, BOOKING) && ReasonsOn(s, BOOKING) == []
  {}

  lemma BookedFirst(good: iset<State>, s: State, others: map<int, Session>) returns (booked: State)
    requires Onward(good) && s in good && s == AtFirst().(sessions := others) && Idle(others, 1)
    ensures booked in good && OneBooked(booked, others) && booked.passes[3] == PASS.(remaining := 1, version := 1)
  {
    assert Holders(s.rows, 7) == {};
    OverrideIsConfirmed(s);
    assert Bookable(s, BOOKING);
    BookingIsReached(good, s, 1, BOOKING);
    booked := Booking(s, BOOKING);
  }

  lemma GuardPasses(good: iset<State>)
    requires Onward(good) && AtFirst() in good
    ensures AtFirst().(sessions := map[0 := GUARDED]) in good
  {
    var begun := Step(AtFirst(), Start(0, DELETION, true));
    assert Holders(begun.rows, 7) == {};
    assert Step(begun, Proceed(0)) == GuardDelete(begun, 0, NewSession(DELETION, true));
    assert Step(begun, Proceed(0)) == AtFirst().(sessions := map[0 := GUARDED]);
  }

  /** In particular a run from an opening state leads to a DELETE that takes a CONFIRMED reservation along. */
  lemma DeletionTakesAConfirmedReservation() returns (s: State)
    ensures Opening(AtFirst()) && LeadsTo(AtFirst(), s)
    ensures 1 in s.rows && s.rows[1].status == Confirmed
    ensures var after := Step(s, Proceed(0)); 7 !in after.activities && 1 !in after.rows
  {
    FromIsOnward(AtFirst());
    var good, guarded := From(AtFirst()), AtFirst().(sessions := map[0 := GUARDED]);
    GuardPasses(good);
    OpeningHolds(AtFirst());
    LocalStep(AtFirst(), guarded, 0, GUARDED);
    assert Holders(guarded.rows, 7) == {};
    OverrideIsConfirmed(guarded);
    assert Bookable(guarded, BOOKING);
    s := OvertakenFrom(good, guarded, 0, 1, BOOKING);
  }

  // ---------- A closing that has processed the reservation ----------

  const READ: Session := NewSession(CLOSING, true).(phase := ActivityRead)
  const LISTED: Session := NewSession(CLOSING, true).(phase := Listed, todo := [1])
  const CLOSER: Session := NewSession(CLOSING, true).(
    phase := Listed, locks := {OnReservation(1)}, work := NO_WORK.(statuses := map[1 := Completed]))

  /** The closing is at this statement, next to others that have not locked the reservation. */
  ghost predicate Closing(s: State, others: map<int, Session>, t: Session) {
    && OneBooked(s, others[2 := t]) && 2 !in others
    && forall c :: c in others ==> OnReservation(1) !in others[c].locks
  }

  lemma ClosingMoves(s: State, others: map<int, Session>, t: Session, t': Session)
    requires s.sessions == others[2 := t]
    ensures Put(s, 2, t') == s.(sessions := others[2 := t'])
  {
    assert s.sessions[2 := t'] == others[2 := t'];
  }

  lemma Reads(good: iset<State>, s: State, others: map<int, Session>)
    requires Onward(good) && s in good && Closing(s, others, NewSession(CLOSING, true))
    ensures s.(sessions := others[2 := READ]) in good
  {
    assert Step(s, Proceed(2)) == ReadActivity(s, 2, NewSession(CLOSING, true));
    assert Step(s, Proceed(2)) == Put(s, 2, READ);
    ClosingMoves(s, others, NewSession(CLOSING, true), READ);
  }

  lemma OneConfirmed(rows: map<int, ReservationRow>)
    requires rows == map[1 := BOOKED]
    ensures Below(ConfirmedOf(rows, 7), 2) == [1]
  {
    assert ConfirmedOf(rows, 7) == {1};
    assert Below({1}, 1) == [];
    assert Below({1}, 2) == [1];
  }

  lemma Lists(good: iset<State>, s: State, others: map<int, Session>)
    requires Onward(good) && s in good && Closing(s, others, READ)
    ensures s.(sessions := others[2 := LISTED]) in good
  {
    OneConfirmed(s.rows);
    ListStep(good, s, 2, READ);
    ClosingMoves(s, others, READ, LISTED);
  }

  lemma ListStep(good: iset<State>, s: State, client: int, t: Session)
    requires Onward(good) && s in good && client in s.sessions && s.sessions[client] == t && t.phase == ActivityRead
    requires t.job.CloseJob? && t.job.noShows == {}
    ensures Put(s, client, t.(phase := Listed, todo := Below(ConfirmedOf(s.rows, t.job.activityId), s.nextId))) in good
  {
    assert Step(s, Proceed(client)) in good;
  }

  lemma Processes(good: iset<State>, s: State, others: map<int, Session>)
    requires Onward(good) && s in good && Closing(s, others, LISTED)
    ensures s.(sessions := others[2 := CLOSER]) in good
  {
    assert Step(s, Proceed(2)) == ProcessNext(s, 2, LISTED);
    assert Free(s, 2, OnReservation(1));
    assert BatchTarget(s, CLOSING, 1, BOOKED) == Some(Completed);
    assert [1][1..] == [];
    assert LISTED.locks + {OnReservation(1)} == {OnReservation(1)};
    assert ProcessNext(s, 2, LISTED) == Put(s, 2, CLOSER);
    ClosingMoves(s, others, LISTED, CLOSER);
  }

  /** The closing reads, lists and processes the reservation. */
  lemma ClosingProcesses(good: iset<State>, s: State, others: map<int, Session>)
    requires Onward(good) && s in good && OneBooked(s, others) && 2 !in others
    requires forall c :: c in others ==> OnReservation(1) !in others[c].locks
    ensures s.(sessions := others[2 := CLOSER]) in good
  {
    var begun := Step(s, Start(2, CLOSING, true));
    Reads(good, begun, others);
    Lists(good, s.(sessions := others[2 := READ]), others);
    Processes(good, s.(sessions := others[2 := LISTED]), others);
  }

  // ---------- The first way to a deadlock: deleting what is being closed ----------

  const DELETING: Session := NewSession(DELETION, true).(phase := Deleting, todo := [1], locks := {OnActivity(7)})

  lemma CascadeVisitsOne(rows: map<int, ReservationRow>)
    requires rows == map[1 := BOOKED]
    ensures CascadeOrder([], RowsOf(rows, 7), 2) == [1]
  {
    assert RowsOf(rows, 7) == {1};
    assert {1} - (set r | r in []) == {1};
    assert Below({1}, 1) == [];
    assert Below({1}, 2) == [1];
  }

  lemma DeletionLocksTheActivity(good: iset<State>, s: State)
    requires Onward(good) && s in good && OneBooked(s, map[0 := GUARDED, 2 := CLOSER])
    ensures s.(sessions := map[0 := DELETING, 2 := CLOSER]) in good
  {
    CascadeVisitsOne(s.rows);
    assert Step(s, Proceed(0)) == BeginDelete(s, 0, GUARDED);
    assert Free(s, 0, OnActivity(7));
    assert GUARDED.locks + {OnActivity(7)} == {OnActivity(7)};
    assert BeginDelete(s, 0, GUARDED) == Put(s, 0, DELETING);
    assert s.sessions[0 := DELETING] == map[0 := DELETING, 2 := CLOSER];
  }

  lemma WaitForEachOther(s: State, c: int, h: int)
    requires WaitsFor(s, c, h) && WaitsFor(s, h, c)
    ensures Clash(s, [c, h])
  {
    var ring := [c, h];
    forall i | 0 <= i < |ring|
      ensures WaitsFor(s, ring[i], Next(ring, i))
    {}
  }

  /** A run leads to a clash between a deletion and a closing of the activity. */
  lemma DeletionClashIsReached() returns (s: State)
    ensures Opening(AtFirst()) && LeadsTo(AtFirst(), s) && Clash(s, [0, 2])
    ensures s.sessions.Keys == {0, 2} && s.sessions[0].job == DELETION && s.sessions[2].job == CLOSING
  {
    FromIsOnward(AtFirst());
    var good := From(AtFirst());
    GuardPasses(good);
    var booked := BookedFirst(good, AtFirst().(sessions := map[0 := GUARDED]), map[0 := GUARDED]);
    ClosingProcesses(good, booked, map[0 := GUARDED]);
    assert map[0 := GUARDED][2 := CLOSER] == map[0 := GUARDED, 2 := CLOSER];
    DeletionLocksTheActivity(good, booked.(sessions := map[0 := GUARDED, 2 := CLOSER]));
    s := booked.(sessions := map[0 := DELETING, 2 := CLOSER]);
    DeletingMeetsClosing(s);
  }

  lemma DeletingMeetsClosing(s: State)
    requires s.sessions == map[0 := DELETING, 2 := CLOSER]
    ensures Clash(s, [0, 2])
  {
    assert WaitsFor(s, 0, 2) && WaitsFor(s, 2, 0);
    WaitForEachOther(s, 0, 2);
  }

  // ---------- The second way: booking a dog that is being closed ----------

  /** A second registration of the dog is about to insert its reservation. */
  ghost predicate Inserting(t: Session) {
    && t.job == BOOKING && t.phase == PassWritten
    && t.locks == {OnActivity(7), OnPass(3)} && t.work.statuses == map[]
  }

  lemma SecondBookingStarts(s: State, out: iset<State>) returns (locked: State)
    requires OneBooked(s, map[]) && Backward(out, 3)
    ensures At(locked, map[], 3, NewSession(BOOKING, true).(phase := ActivityLocked, locks := {OnActivity(7)}))
    ensures locked == s.(sessions := locked.sessions) && (locked in out ==> Step(s, Start(3, BOOKING, true)) in out)
  {
    var begun := Step(s, Start(3, BOOKING, true));
    locked := LockAlone(begun, map[], 3, NewSession(BOOKING, true), out);
    assert {} + {OnActivity(7)} == {OnActivity(7)};
  }

  lemma SecondBookingPays(s: State, locked: State, out: iset<State>) returns (paid: State)
    requires OneBooked(s, map[]) && s.passes[3] == PASS.(remaining := 1, version := 1) && Backward(out, 3)
    requires locked == s.(sessions := locked.sessions)
    requires At(locked, map[], 3, NewSession(BOOKING, true).(phase := ActivityLocked, locks := {OnActivity(7)}))
    ensures 3 in paid.sessions && Inserting(paid.sessions[3]) && OneBooked(paid, map[3 := paid.sessions[3]])
    ensures paid in out ==> locked in out
  {
    assert Holders(s.rows, 7) == {1};
    OverrideIsConfirmed(locked);
    var admitted := AdmitAlone(locked, map[], 3, locked.sessions[3], out);
    paid := SecondBookingConsumes(s, admitted, out);
  }

  lemma SecondBookingConsumes(s: State, admitted: State, out: iset<State>) returns (paid: State)
    requires OneBooked(s, map[]) && s.passes[3] == PASS.(remaining := 1, version := 1) && Backward(out, 3)
    requires admitted == s.(sessions := admitted.sessions)
    requires At(admitted, map[], 3, NewSession(BOOKING, true).(phase := Admitted, locks := {OnActivity(7)}))
    ensures 3 in paid.sessions && Inserting(paid.sessions[3]) && OneBooked(paid, map[3 := paid.sessions[3]])
    ensures paid in out ==> admitted in out
  {
    var read := PayAlone(admitted, map[], 3, admitted.sessions[3], out);
    paid := ConsumeAlone(read, map[], 3, read.sessions[3], out);
    assert paid.sessions[3].locks == {OnActivity(7), OnPass(3)};
  }

  lemma SecondBookingInserts(good: iset<State>, s: State) returns (paid: State)
    requires Onward(good) && s in good && OneBooked(s, map[]) && s.passes[3] == PASS.(remaining := 1, version := 1)
    ensures 3 in paid.sessions && Inserting(paid.sessions[3]) && OneBooked(paid, map[3 := paid.sessions[3]])
    ensures paid in good
  {
    var out := Outside(good);
    OutsideIsBackward(good, 3);
    var locked := SecondBookingStarts(s, out);
    paid := SecondBookingPays(s, locked, out);
    assert Step(s, Start(3, BOOKING, true)) in good;
  }

  /** A run without any deletion leads to a clash between a registration and a closing of the activity. */
  lemma BookingClashIsReached() returns (s: State)
    ensures Opening(AtFirst()) && LeadsTo(AtFirst(), s) && Clash(s, [3, 2])
    ensures s.sessions.Keys == {2, 3} && s.sessions[3].job == BOOKING && s.sessions[2].job == CLOSING
  {
    FromIsOnward(AtFirst());
    var good := From(AtFirst());
    var booked := BookedFirst(good, AtFirst(), map[]);
    var paid := SecondBookingInserts(good, booked);
    var others := map[3 := paid.sessions[3]];
    ClosingProcesses(good, paid, others);
    s := paid.(sessions := others[2 := CLOSER]);
    InsertingMeetsClosing(s, others[3]);
  }

  lemma InsertingMeetsClosing(s: State, t: Session)
    requires s.sessions == map[3 := t, 2 := CLOSER] && Inserting(t) && s.rows == map[1 := BOOKED]
    ensures Clash(s, [3, 2])
  {
    assert InsertMeets(s, t, 1) && 1 in CLOSER.work.statuses;
    assert WaitsFor(s, 3, 2) && WaitsFor(s, 2, 3);
    WaitForEachOther(s, 3, 2);
  }
}
