/**
 * Which deadlocks can be avoided. A crossing in which the batch has still to take a lock the other party
 * holds costs one of the two; from every state without one, everybody can be run to completion.
 */
module EngineCompletion {

  import opened Counting
  import opened Reservations
  import opened Engine
  import opened EngineInvariant
  import opened EngineTheorems
  import opened EngineProgress
  import opened EngineDeadlock

  ghost predicate NoBlocking(s: State) {
    forall x, b :: !Blocking(s, x, b)
  }

  // ---------- A blocking crossing lasts ----------

  /** One of the two is refused by its next statement. */
  ghost predicate Refuses(s: State, event: Event, x: int, b: int) {
    event.Proceed? && (event.client == x || event.client == b) && Step(s, event) == Drop(s, event.client)
  }

  lemma CrossingReservation(s: State, x: int, b: int)
    requires Inv(s) && Crossing(s, x, b)
    ensures x != b
    ensures s.sessions[x].phase == Deleting ==>
      exists r :: r in s.sessions[x].todo && !Free(s, x, OnReservation(r))
  {
    var t, u := s.sessions[x], s.sessions[b];
    assert SessionOk(s, t) && SessionOk(s, u);
    if t.phase == Deleting {
      var r :| r in u.work.statuses;
      assert OnReservation(r) in u.locks && r in s.rows && s.ever[r] == s.rows[r];
      assert r in RowsOf(s.rows, ActivityIdOf(t.job));
      assert t.locks !! u.locks;
    }
  }

  /** The deletion of a crossing goes on as a cascade of the same activity, with no lock less. */
  lemma DeletionGoesOn(s: State, x: int, b: int)
    requires Inv(s) && Blocking(s, x, b) && s.sessions[x].phase == Deleting
    ensures Blocking(Step(s, Proceed(x)), x, b)
  {
    var t, u := s.sessions[x], s.sessions[b];
    CrossingReservation(s, x, b);
    var l :| l in t.locks && StillNeeds(u, l);
    assert SessionOk(s, t) && t.todo != [];
    var s' := Step(s, Proceed(x));
    assert s' == CascadeNext(s, x, t);
    assert s'.sessions[b] == u && l in s'.sessions[x].locks;
  }

  /** What a registration before its COMMIT can do while its INSERT is held up. */
  lemma RegistrationGoesOn(s: State, x: int)
    requires Inv(s) && x in s.sessions && s.sessions[x].job.RegisterJob? && s.sessions[x].phase != Begin && s.sessions[x].phase != Ready
    requires Contested(s, x, s.sessions[x].job.activityId, s.sessions[x].job.dogId)
    ensures var s' := Step(s, Proceed(x));
      || s' == Drop(s, x)
      || (x in s'.sessions && s'.rows == s.rows && s'.sessions == s.sessions[x := s'.sessions[x]]
          && s'.sessions[x].job == s.sessions[x].job && s.sessions[x].locks <= s'.sessions[x].locks)
  {
    var t := s.sessions[x];
    assert SessionOk(s, t);
    match t.phase
    case ActivityLocked => assert Step(s, Proceed(x)) == AdmitDog(s, x, t);
    case Admitted => assert Step(s, Proceed(x)) == LoadPass(s, x, t);
    case PassRead => EditGoesOn(s, x, t, PassEditOf(t));
    case PassWritten => assert Step(s, Proceed(x)) == s;
  }

  lemma EditGoesOn(s: State, x: int, t: Session, edit: PassEdit)
    requires x in s.sessions && s.sessions[x] == t && t.phase == PassRead && t.job.RegisterJob? && t.pass.Some? && edit == PassEditOf(t)
    ensures var s' := Step(s, Proceed(x));
      || s' == Drop(s, x)
      || (x in s'.sessions && s'.rows == s.rows && s'.sessions == s.sessions[x := s'.sessions[x]]
          && s'.sessions[x].job == t.job && t.locks <= s'.sessions[x].locks)
  {
    assert Step(s, Proceed(x)) == StoreEdit(s, x, t, edit, t.pass.value.version);
  }

  lemma BookingIsContested(s: State, x: int, b: int)
    requires Inv(s) && Crossing(s, x, b) && s.sessions[x].phase != Deleting
    ensures s.sessions[x].job.RegisterJob? && s.sessions[x].phase != Begin && s.sessions[x].phase != Ready
    ensures Contested(s, x, s.sessions[x].job.activityId, s.sessions[x].job.dogId)
  {
    var t, u := s.sessions[x], s.sessions[b];
    assert SessionOk(s, t);
    var r :| r in u.work.statuses && HasSlot(s.rows, r, t.job.activityId, t.job.dogId);
    CrossingReservation(s, x, b);
    assert r in Holders(s.rows, t.job.activityId);
  }

  lemma BookingGoesOn(s: State, x: int, b: int)
    requires Inv(s) && Blocking(s, x, b) && s.sessions[x].phase != Deleting
    ensures Blocking(Step(s, Proceed(x)), x, b) || Refuses(s, Proceed(x), x, b)
  {
    BookingIsContested(s, x, b);
    CrossingReservation(s, x, b);
    RegistrationGoesOn(s, x);
  }

  /** The batch is refused, or waits, or does one more reservation that is not among those it is held up by. */
  lemma BatchGoesOn(s: State, x: int, b: int)
    requires Inv(s) && Blocking(s, x, b)
    ensures Blocking(Step(s, Proceed(b)), x, b) || Refuses(s, Proceed(b), x, b)
  {
    var t, u := s.sessions[x], s.sessions[b];
    CrossingReservation(s, x, b);
    var l :| l in t.locks && StillNeeds(u, l);
    assert !Free(s, b, l);
    var s' := Step(s, Proceed(b));
    if u.todo == [] {
      assert s' == CloseActivity(s, b, u);
    } else {
      assert s' == ProcessNext(s, b, u);
      if s' != s && s' != Drop(s, b) {
        BatchDoesOneMore(s, s', x, b, l);
      }
    }
  }

  lemma BatchDoesOneMore(s: State, s': State, x: int, b: int, l: Lock)
    requires Crossing(s, x, b) && x != b && l in s.sessions[x].locks && StillNeeds(s.sessions[b], l)
    requires s.sessions[b].todo != [] && Free(s, b, OnReservation(s.sessions[b].todo[0]))
    requires b in s'.sessions && s' == s.(sessions := s.sessions[b := s'.sessions[b]])
    requires var u, u' := s.sessions[b], s'.sessions[b];
      && u'.phase == Listed && u'.job == u.job && u'.seenClosed == u.seenClosed && u'.todo == u.todo[1..]
      && u.work.statuses.Keys <= u'.work.statuses.Keys
    ensures Blocking(s', x, b)
  {
    var u, u' := s.sessions[b], s'.sessions[b];
    assert forall r :: r in u.work.statuses ==> r in u'.work.statuses;
    if l.OnReservation? {
      assert l.id in u.todo && l.id != u.todo[0];
      assert u.todo == [u.todo[0]] + u'.todo;
    }
    assert StillNeeds(u', l);
  }

  /**
   * A blocking crossing costs one of the two: unless one of them is aborted it lasts until the batch, or
   * the registration, is refused.
   */
  lemma BlockingCostsOneOfThem(s: State, event: Event, x: int, b: int)
    requires Inv(s) && Blocking(s, x, b) && event != Abort(x) && event != Abort(b)
    ensures Blocking(Step(s, event), x, b) || Refuses(s, event, x, b)
  {
    if event == Proceed(b) {
      BatchGoesOn(s, x, b);
    } else if event == Proceed(x) {
      if s.sessions[x].phase == Deleting {
        DeletionGoesOn(s, x, b);
      } else {
        BookingGoesOn(s, x, b);
      }
    } else if event.client != x && event.client != b {
      OthersLeaveItAlone(s, event, x, b);
    }
  }

  lemma OthersLeaveItAlone(s: State, event: Event, x: int, b: int)
    requires Inv(s) && Blocking(s, x, b) && event.client != x && event.client != b
    ensures Blocking(Step(s, event), x, b)
  {
    var s', t, u := Step(s, event), s.sessions[x], s.sessions[b];
    SessionStays(s, event, x);
    SessionStays(s, event, b);
    if r: int :| r in u.work.statuses && t.job.RegisterJob? && HasSlot(s.rows, r, t.job.activityId, t.job.dogId) {
      WrittenRowsStay(s, event, b, r);
      assert HasSlot(s'.rows, r, t.job.activityId, t.job.dogId);
    }
  }

  /**
   * So in any run that aborts neither of them the crossing is still there, or ended with the refusal of
   * one of them.
   */
  lemma {:induction false} BlockingEndsInARefusal(s: State, events: seq<Event>, x: int, b: int)
    requires Inv(s) && Blocking(s, x, b) && Abort(x) !in events && Abort(b) !in events
    ensures Blocking(Run(s, events), x, b) || RefusedOnTheWay(s, events, x, b)
  {
    if events == [] {
    } else {
      var init, last := events[..|events| - 1], events[|events| - 1];
      BlockingEndsInARefusal(s, init, x, b);
      if Blocking(Run(s, init), x, b) {
        assert last in events;
        RunKeeps(s, init);
        BlockingCostsOneOfThem(Run(s, init), last, x, b);
      }
    }
  }

  /** While they still held each other up, an event of the run refused one of the two. */
  ghost predicate RefusedOnTheWay(s: State, events: seq<Event>, x: int, b: int) {
    events != []
    && var init, last := events[..|events| - 1], events[|events| - 1];
      RefusedOnTheWay(s, init, x, b) || (Blocking(Run(s, init), x, b) && Refuses(Run(s, init), last, x, b))
  }

  // ---------- Safe steps ----------

  /** The client's next statement goes through and brings about no blocking crossing. */
  ghost predicate SafeStep(s: State, c: int) {
    c in s.sessions && !Waits(s, c) && NoBlocking(Advance(s, c))
  }

  /** The statements that can bring one about. */
  predicate Risky(t: Session) {
    match t.phase
    case Begin => t.job.RegisterJob?
    case Guarded => true
    case Deleting => t.todo != []
    case Listed => t.todo != []
    case _ => false
  }

  ghost predicate UnderWay(s: State, b: int) {
    b in s.sessions && s.sessions[b].phase == Listed && HasProcessed(s.sessions[b])
  }

  /** The party a batch has to let go first: a deletion, if the batch has processed nothing so far, or a registration. */
  ghost predicate GoesFirst(s: State, x: int, b: int)
    requires b in s.sessions
  {
    && x in s.sessions && x != b
    && if s.sessions[x].phase == Deleting then !HasProcessed(s.sessions[b])
       else s.sessions[x].job.RegisterJob? && s.sessions[x].locks != {}
  }

  lemma StillCrossing(s: State, c: int, x: int, b: int)
    requires Inv(s) && c in s.sessions && c != b && x in s.sessions && b in s.sessions && Crossing(Advance(s, c), x, b)
    requires s.sessions[x].job == Advance(s, c).sessions[x].job
    requires MeetsDeletion(s.sessions[x], s.sessions[b])
      || (s.sessions[x].job.RegisterJob? && OnActivity(s.sessions[x].job.activityId) in s.sessions[x].locks
          && MeetsBooking(Advance(s, c), Advance(s, c).sessions[x], s.sessions[b]))
    ensures Crossing(s, x, b)
  {
    var s', t, u := Advance(s, c), s.sessions[x], s.sessions[b];
    OthersStay(s, c);
    if !MeetsDeletion(t, u) {
      var r :| r in u.work.statuses && HasSlot(s'.rows, r, t.job.activityId, t.job.dogId);
      RowsOutliveSteps(s, c, b, r);
      assert HasSlot(s.rows, r, t.job.activityId, t.job.dogId);
    }
  }

  /** A crossing with a registration is always a blocking one. */
  lemma BookingsAlwaysBlock(s: State, x: int, b: int)
    requires Orderly(s) && Crossing(s, x, b) && !MeetsDeletion(s.sessions[x], s.sessions[b])
    ensures Blocking(s, x, b)
  {
    var t := s.sessions[x];
    var r :| r in s.sessions[b].work.statuses && HasSlot(s.rows, r, t.job.activityId, t.job.dogId);
    BookingBlocks(s, x, b, r);
  }

  /** Unless one of the two moved it was there before. */
  lemma NeitherMoved(s: State, c: int, x: int, b: int)
    requires Orderly(s) && c in s.sessions && c != x && c != b && Blocking(Advance(s, c), x, b)
    ensures Blocking(s, x, b)
  {
    OthersStay(s, c);
    StillCrossing(s, c, x, b);
  }

  lemma TheHolderMoved(s: State, c: int, b: int)
    requires Orderly(s) && c in s.sessions && !Waits(s, c) && Blocking(Advance(s, c), c, b)
    ensures Blocking(s, c, b) || (Risky(s.sessions[c]) && s.sessions[c].phase != Listed && UnderWay(s, b))
  {
    var s', t := Advance(s, c), s.sessions[c];
    InvIsStaged(s);
    AdvanceOutcome(s, c);
    var t', u := s'.sessions[c], s'.sessions[b];
    assert Continues(t, t');
    assert c != b by {
      AdvanceKeeps(s, c);
      CrossingReservation(s', c, b);
    }
    assert b in s.sessions && s.sessions[b] == u;
    if t'.phase == Deleting {
      assert Cascades(t, t');
    } else {
      if OnActivity(t'.job.activityId) in t.locks {
        StillCrossing(s, c, c, b);
        BookingsAlwaysBlock(s, c, b);
      }
      LocksTheActivityFirst(s, t);
    }
  }

  lemma LocksTheActivityFirst(s: State, t: Session)
    requires SessionOk(s, t) && t.job.RegisterJob?
    ensures t.phase == Begin || OnActivity(t.job.activityId) in t.locks
  {}

  lemma TheBatchMoved(s: State, c: int, x: int)
    requires Orderly(s) && c in s.sessions && !Waits(s, c) && Blocking(Advance(s, c), x, c)
    ensures Blocking(s, x, c) || (s.sessions[c].phase == Listed && s.sessions[c].todo != [] && GoesFirst(s, x, c))
  {
    var s', u := Advance(s, c), s.sessions[c];
    InvIsStaged(s);
    AdvanceOutcome(s, c);
    var t, u' := s'.sessions[x], s'.sessions[c];
    assert Continues(u, u') && Loops(u, u');
    assert x != c by {
      AdvanceKeeps(s, c);
      CrossingReservation(s', x, c);
    }
    assert x in s.sessions && s.sessions[x] == t;
    assert SessionOk(s, u);
    var l :| l in t.locks && StillNeeds(u', l);
    assert u.phase == Listed;
    assert u.todo == [u.todo[0]] + u'.todo && StillNeeds(u, l);
    if t.phase == Deleting && HasProcessed(u) {
      assert Crossing(s, x, c);
    }
  }

  /** What a step that brings one about leads to: a batch under way, or somebody the batch has to let go first. */
  lemma UnsafeSteps(s: State, c: int, x: int, b: int)
    requires Orderly(s) && NoBlocking(s) && c in s.sessions && !Waits(s, c) && Blocking(Advance(s, c), x, b)
    ensures Risky(s.sessions[c])
    ensures if s.sessions[c].phase == Listed then GoesFirst(s, x, c) else UnderWay(s, b)
  {
    if c == x {
      TheHolderMoved(s, c, b);
    } else if c == b {
      TheBatchMoved(s, c, x);
    } else {
      NeitherMoved(s, c, x, b);
    }
  }

  // ---------- Finding a safe step ----------

  lemma CalmStepsAreSafe(s: State, c: int)
    requires Orderly(s) && NoBlocking(s) && c in s.sessions && !Waits(s, c) && !Risky(s.sessions[c])
    ensures SafeStep(s, c)
  {
    forall x, b
      ensures !Blocking(Advance(s, c), x, b)
    {
      if Blocking(Advance(s, c), x, b) {
        UnsafeSteps(s, c, x, b);
      }
    }
  }

  lemma ReadyIsSafe(s: State, c: int)
    requires Orderly(s) && NoBlocking(s) && c in s.sessions && s.sessions[c].phase == Ready
    ensures SafeStep(s, c)
  {
    InvIsStaged(s);
    if Waits(s, c) {
      var h := WaitersWaitForSomebody(s, c);
      ReadyWaitsForNobody(s, c, h);
    } else {
      CalmStepsAreSafe(s, c);
    }
  }

  lemma HoldersAreCalm(s: State, c: int)
    requires Orderly(s) && c in s.sessions && s.sessions[c].locks != {} && s.sessions[c].phase != Deleting && s.sessions[c].phase != Listed
    ensures !Risky(s.sessions[c])
  {
    assert Disciplined(s.sessions[c]);
  }

  lemma FollowInsert(s: State, c: int) returns (last: int)
    requires Orderly(s) && NoBlocking(s) && c in s.sessions && Waits(s, c)
    requires s.sessions[c].phase == PassWritten && s.sessions[c].job.RegisterJob?
    ensures SafeStep(s, last)
  {
    InvIsStaged(s);
    last := WaitersWaitForSomebody(s, c);
    InsertMeetsABatch(s, c, last);
    ReadyIsSafe(s, last);
  }

  lemma PassHoldersLoopNot(s: State, c: int, p: int)
    requires Orderly(s) && c in s.sessions && OnPass(p) in s.sessions[c].locks
    ensures s.sessions[c].phase != Deleting && s.sessions[c].phase != Listed
  {
    assert Disciplined(s.sessions[c]);
  }

  lemma FollowPass(s: State, c: int, p: int) returns (last: int)
    requires Orderly(s) && NoBlocking(s) && c in s.sessions && OnPass(p) in s.sessions[c].locks
    ensures SafeStep(s, last)
  {
    PassHoldersLoopNot(s, c, p);
    InvIsStaged(s);
    last := c;
    if Waits(s, c) {
      var h := WaitersWaitForSomebody(s, c);
      PassHoldersWaitAtTheInsert(s, c, p, h);
      last := FollowInsert(s, c);
    } else {
      HoldersAreCalm(s, c);
      CalmStepsAreSafe(s, c);
    }
  }

  /** From anybody who holds something, but for a batch and a cascade. */
  lemma FollowOrdinary(s: State, c: int) returns (last: int)
    requires Orderly(s) && NoBlocking(s) && c in s.sessions && s.sessions[c].locks != {}
    requires s.sessions[c].phase != Deleting && s.sessions[c].phase != Listed
    ensures SafeStep(s, last)
  {
    InvIsStaged(s);
    last := c;
    if !Waits(s, c) {
      HoldersAreCalm(s, c);
      CalmStepsAreSafe(s, c);
    } else if s.sessions[c].phase == PassWritten && s.sessions[c].job.RegisterJob? {
      last := FollowInsert(s, c);
    } else {
      var h := WaitersWaitForSomebody(s, c);
      OtherwiseABatchOrAPass(s, c, h);
      last := FollowPass(s, h, NextLock(s.sessions[c]).value.id);
    }
  }

  /** The reservations somebody holds, from the one on that the batch seeks. */
  ghost function HeldFrom(s: State, b: int): set<int>
    requires b in s.sessions
  {
    var todo := s.sessions[b].todo;
    if todo == [] then {}
    else set c, l | c in s.sessions && l in s.sessions[c].locks && l.OnReservation? && l.id >= todo[0] :: l.id
  }

  /** A batch that waits for a batch waits for one with less above it. */
  lemma LessAbove(s: State, b: int, h: int)
    requires Orderly(s) && WaitsFor(s, b, h) && s.sessions[b].phase == Listed && s.sessions[h].phase == Listed
    ensures HeldFrom(s, h) < HeldFrom(s, b)
  {
    var t, u := s.sessions[b], s.sessions[h];
    assert SessionOk(s, t) && Disciplined(u);
    var l := NextLock(t).value;
    assert l in u.locks && l.OnReservation? && t.todo != [] && l.id == t.todo[0];
    assert l.id in HeldFrom(s, b);
    if u.todo != [] {
      assert u.todo[0] in u.todo && l.id < u.todo[0];
    }
    assert l.id !in HeldFrom(s, h);
  }

  /** From a batch under way. */
  lemma {:induction false} FollowBatch(s: State, b: int) returns (last: int)
    requires Orderly(s) && NoBlocking(s) && UnderWay(s, b)
    ensures SafeStep(s, last)
    decreases HeldFrom(s, b)
  {
    InvIsStaged(s);
    last := b;
    if !Waits(s, b) {
      if x, y :| Blocking(Advance(s, b), x, y) {
        UnsafeSteps(s, b, x, y);
        BookersAreOrdinary(s, x, b);
        last := FollowOrdinary(s, x);
      }
    } else {
      var h := WaitersWaitForSomebody(s, b);
      WaitedForHolds(s, b, h);
      UnderWayHolds(s, b);
      if s.sessions[h].phase == Listed {
        LessAbove(s, b, h);
        last := FollowBatch(s, h);
      } else {
        if s.sessions[h].phase == Deleting {
          OnlyABatchWaitsForADeletion(s, b, h);
        }
        last := FollowOrdinary(s, h);
      }
    }
  }

  lemma UnderWayHolds(s: State, b: int)
    requires Inv(s) && UnderWay(s, b)
    ensures s.sessions[b].locks != {}
  {
    assert SessionOk(s, s.sessions[b]);
    var r :| r in s.sessions[b].work.statuses;
    assert OnReservation(r) in s.sessions[b].locks;
  }

  lemma BookersAreOrdinary(s: State, x: int, b: int)
    requires Orderly(s) && b in s.sessions && GoesFirst(s, x, b)
    ensures s.sessions[x].phase != Deleting ==> s.sessions[x].phase != Listed
  {
    assert SessionOk(s, s.sessions[x]);
  }

  /** From a cascade. */
  lemma FollowDeletion(s: State, d: int) returns (last: int)
    requires Orderly(s) && NoBlocking(s) && d in s.sessions && s.sessions[d].phase == Deleting
    ensures SafeStep(s, last)
  {
    InvIsStaged(s);
    last := d;
    if !Waits(s, d) {
      if x, b :| Blocking(Advance(s, d), x, b) {
        UnsafeSteps(s, d, x, b);
        last := FollowBatch(s, b);
      }
    } else {
      var h := WaitersWaitForSomebody(s, d);
      CascadesDoNotMeet(s, d, h);
      last := FollowHolder(s, d, h);
    }
  }

  lemma CascadesDoNotMeet(s: State, d: int, h: int)
    requires Orderly(s) && WaitsFor(s, d, h) && s.sessions[d].phase == Deleting
    ensures s.sessions[h].phase != Deleting
  {
    if s.sessions[h].phase == Deleting {
      WaitsForACascade(s, d, h);
    }
  }

  /** From whoever somebody waits for, but for a cascade. */
  lemma FollowHolder(s: State, c: int, h: int) returns (last: int)
    requires Orderly(s) && NoBlocking(s) && WaitsFor(s, c, h) && s.sessions[h].phase != Deleting
    ensures SafeStep(s, last)
  {
    WaitedForHolds(s, c, h);
    if s.sessions[h].phase == Listed {
      last := FollowBatch(s, h);
    } else {
      last := FollowOrdinary(s, h);
    }
  }

  /** Without a blocking crossing there is always a client whose next statement goes through and brings none about. */
  lemma SomebodyCanStepSafely(s: State, client: int) returns (c: int)
    requires Orderly(s) && NoBlocking(s) && client in s.sessions
    ensures SafeStep(s, c)
  {
    InvIsStaged(s);
    c := client;
    if Waits(s, client) {
      var h := WaitersWaitForSomebody(s, client);
      WaitedForHolds(s, client, h);
      if s.sessions[h].phase == Deleting {
        c := FollowDeletion(s, h);
      } else {
        c := FollowHolder(s, client, h);
      }
    } else if x, b :| Blocking(Advance(s, client), x, b) {
      UnsafeSteps(s, client, x, b);
      if s.sessions[client].phase != Listed {
        c := FollowBatch(s, b);
      } else if s.sessions[x].phase == Deleting {
        c := FollowDeletion(s, x);
      } else {
        BookersAreOrdinary(s, x, client);
        c := FollowOrdinary(s, x);
      }
    }
  }

  // ---------- Everybody finishes ----------

  /** A party of a blocking crossing is refused. */
  ghost predicate Sacrifices(s: State, event: Event) {
    exists x, b :: Blocking(s, x, b) && Refuses(s, event, x, b)
  }

  /** Statement by statement everybody finishes, and nobody has to be sacrificed. */
  ghost predicate Completes(s: State, schedule: seq<Event>)
    decreases |schedule|
  {
    if schedule == [] then s.sessions == map[]
    else schedule[0].Proceed? && !Sacrifices(s, schedule[0]) && Completes(Step(s, schedule[0]), schedule[1..])
  }

  /**
   * Termination: from every state without a blocking crossing that FOR UPDATE readers can reach, the
   * clients in flight can all be run to completion, in at most WorkLeft statements.
   */
  lemma {:induction false} EverybodyFinishes(s: State, clients: seq<int>) returns (schedule: seq<Event>)
    requires Orderly(s) && NoBlocking(s) && Covers(clients, s)
    ensures |schedule| <= WorkLeft(s, clients)
    ensures Completes(s, schedule) && Run(s, schedule).sessions == map[]
    decreases WorkLeft(s, clients)
  {
    if forall c :: c !in s.sessions {
      schedule := [];
      assert s.sessions.Keys == {};
    } else {
      var client :| client in s.sessions;
      var c := SomebodyCanStepSafely(s, client);
      InvIsStaged(s);
      StepsDecrease(s, c, clients);
      AdvanceKeeps(s, c);
      StepDisciplines(s, Proceed(c));
      var rest := EverybodyFinishes(Step(s, Proceed(c)), clients);
      RunPrepends(s, Proceed(c), rest);
      schedule := [Proceed(c)] + rest;
    }
  }

  lemma {:induction false} BlockingNeedsASacrifice(s: State, x: int, b: int, schedule: seq<Event>)
    requires Inv(s) && Blocking(s, x, b)
    ensures !Completes(s, schedule)
    decreases |schedule|
  {
    if schedule == [] {
    } else {
      var event := schedule[0];
      if event.Proceed? && !Sacrifices(s, event) {
        BlockingCostsOneOfThem(s, event, x, b);
        StepKeeps(s, event);
        BlockingNeedsASacrifice(Step(s, event), x, b, schedule[1..]);
      }
    }
  }

  ghost predicate CanComplete(s: State) {
    exists schedule :: Completes(s, schedule)
  }

  /** Everybody can be run to completion without a sacrifice if and only if there is no blocking crossing. */
  lemma CompletesExactlyWithoutBlocking(s: State)
    requires Orderly(s)
    ensures CanComplete(s) <==> NoBlocking(s)
  {
    if NoBlocking(s) {
      var schedule := EverybodyFinishes(s, InOrder(s.sessions.Keys));
      assert CanComplete(s);
    } else {
      var x, b :| Blocking(s, x, b);
      forall schedule
        ensures !Completes(s, schedule)
      {
        BlockingNeedsASacrifice(s, x, b, schedule);
      }
    }
  }

  /** Where nobody blocks anybody, nobody clashes. */
  lemma ClashesBlock(s: State)
    requires Orderly(s) && NoBlocking(s)
    ensures NoClash(s)
  {
    forall ring
      ensures !Clash(s, ring)
    {
      if Clash(s, ring) {
        ClashHasABlockedBatch(s, ring);
      }
    }
  }
}
