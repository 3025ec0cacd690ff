/**
 * Deadlocks, exactly. Two use cases take what they need the other way round from everybody else: the
 * cascade of an activity's deletion locks reservations while it holds the activity, and the INSERT of a
 * registration waits, while it holds the activity, for whoever is changing the reservation that holds the
 * dog's slot. Clients that read FOR UPDATE get stuck exactly when some of them wait for each other in a
 * ring, and every such ring contains one of those two meeting a batch of the same activity.
 */
module EngineDeadlock {

  import opened Outcomes
  import opened Counting
  import opened Engine
  import opened EngineInvariant
  import opened EngineCommit
  import opened EngineTheorems
  import opened EngineHistory
  import opened EngineProgress

  /** What every state of a run of FOR UPDATE readers satisfies. */
  ghost predicate Orderly(s: State) {
    Inv(s) && AllDisciplined(s)
  }

  lemma RunIsOrderly(s0: State, events: seq<Event>)
    requires Opening(s0) && forall e :: e in events && e.Start? ==> e.forUpdate
    ensures Orderly(Run(s0, events))
  {
    OpeningHolds(s0);
    RunKeeps(s0, events);
    RunDisciplines(s0, events);
  }

  // ---------- Waiting for each other ----------

  /** The next statement of c has to wait for h. */
  ghost predicate WaitsFor(s: State, c: int, h: int) {
    c in s.sessions && h in s.sessions && c != h && Obstructs(s, s.sessions[h], s.sessions[c])
  }

  function Next(ring: seq<int>, i: nat): int
    requires i < |ring|
  {
    if i + 1 < |ring| then ring[i + 1] else ring[0]
  }

  /** Clients that wait for each other in a ring. */
  ghost predicate Clash(s: State, ring: seq<int>) {
    ring != [] && forall i :: 0 <= i < |ring| ==> WaitsFor(s, ring[i], Next(ring, i))
  }

  ghost predicate NoClash(s: State) {
    forall ring :: !Clash(s, ring)
  }

  lemma StandingStillIsNotForward(t: Session, n: nat)
    ensures !Forward(t, t, n, n)
  {
    assert !FewerSteps(t, t, n);
  }

  lemma WaitersWaitForSomebody(s: State, c: int) returns (h: int)
    requires AllStaged(s) && c in s.sessions && Waits(s, c)
    ensures WaitsFor(s, c, h)
  {
    var t := s.sessions[c];
    AdvanceOutcome(s, c);
    StandingStillIsNotForward(t, s.nextId);
    assert Blocked(s, c, t);
    h :| h in s.sessions && h != c && Obstructs(s, s.sessions[h], t);
  }

  lemma LockedOutWaits(s: State, c: int, l: Lock)
    requires c in s.sessions && Staged(s.sessions[c]) && NextLock(s.sessions[c]) == Some(l) && !Free(s, c, l)
    ensures Waits(s, c)
  {}

  /** Whoever waits for somebody does wait. */
  lemma ObstructedWaits(s: State, c: int, h: int)
    requires Inv(s) && WaitsFor(s, c, h)
    ensures Waits(s, c)
  {
    var t, u := s.sessions[c], s.sessions[h];
    SessionsAreStaged(s, t);
    if NextLock(t).Some? && NextLock(t).value in u.locks {
      LockedOutWaits(s, c, NextLock(t).value);
    } else {
      var r :| r in u.work.statuses && InsertMeets(s, t, r);
      assert Contested(s, c, t.job.activityId, t.job.dogId);
    }
  }

  // ---------- Getting stuck ----------

  /** Following who waits for whom, one arrives at a client that can step, or goes round in a ring. */
  lemma {:induction false} FollowWaits(s: State, path: seq<int>) returns (last: int, ring: seq<int>)
    requires AllStaged(s) && path != [] && forall i :: 0 <= i < |path| ==> path[i] in s.sessions
    requires forall i :: 0 <= i < |path| - 1 ==> WaitsFor(s, path[i], path[i + 1])
    ensures (last in s.sessions && !Waits(s, last)) || Clash(s, ring)
    decreases s.sessions.Keys - SetOf(path)
  {
    last, ring := path[|path| - 1], path;
    if Waits(s, last) {
      var h := WaitersWaitForSomebody(s, last);
      if h in path {
        var i :| 0 <= i < |path| && path[i] == h;
        ring := path[i..];
        forall j | 0 <= j < |ring|
          ensures WaitsFor(s, ring[j], Next(ring, j))
        {
          if j + 1 < |ring| {
            assert WaitsFor(s, path[i + j], path[i + j + 1]);
          }
        }
      } else {
        assert h in s.sessions.Keys - SetOf(path) && h in SetOf(path + [h]);
        last, ring := FollowWaits(s, path + [h]);
      }
    }
  }

  /**
   * Deadlock freedom up to clashes: in every reachable state with a client in flight and no clash, some
   * client's next statement goes through.
   */
  lemma SomebodyCanStep(s0: State, events: seq<Event>, client: int)
    requires Opening(s0) && (forall e :: e in events && e.Start? ==> e.forUpdate)
    requires client in Run(s0, events).sessions && NoClash(Run(s0, events))
    ensures exists c :: c in Run(s0, events).sessions && !Waits(Run(s0, events), c)
  {
    var s := Run(s0, events);
    RunIsOrderly(s0, events);
    InvIsStaged(s);
    var last, ring := FollowWaits(s, [client]);
  }

  /** When nobody can step any more, everybody has finished, if and only if there is no clash. */
  lemma StuckExactlyByAClash(s: State)
    requires Orderly(s) && forall c :: c in s.sessions ==> Waits(s, c)
    ensures s.sessions == map[] <==> NoClash(s)
  {
    InvIsStaged(s);
    if exists c :: c in s.sessions {
      var c :| c in s.sessions;
      var last, ring := FollowWaits(s, [c]);
      assert Clash(s, ring);
    } else {
      assert s.sessions.Keys == {};
      forall ring
        ensures !Clash(s, ring)
      {
        if ring != [] {
          assert !WaitsFor(s, ring[0], Next(ring, 0));
        }
      }
    }
  }

  // ---------- A clash lasts ----------

  /** Nobody but its client touches a reservation with an uncommitted status write. */
  lemma WrittenRowsStay(s: State, event: Event, h: int, r: int)
    requires Inv(s) && h in s.sessions && event.client != h && r in s.sessions[h].work.statuses
    ensures var s' := Step(s, event); r in s.rows && r in s'.rows && s'.rows[r] == s.rows[r]
  {
    assert SessionOk(s, s.sessions[h]);
    if event.Proceed? && event.client in s.sessions {
      RowsOutliveSteps(s, event.client, h, r);
    }
  }

  lemma RowsOutliveSteps(s: State, client: int, h: int, r: int)
    requires Inv(s) && client in s.sessions && h in s.sessions && client != h && r in s.sessions[h].work.statuses
    ensures var s' := Advance(s, client); r in s.rows && r in s'.rows && s'.rows[r] == s.rows[r]
  {
    var s' := Advance(s, client);
    assert StatusesOk(s, s.sessions[h]) by {
      assert SessionOk(s, s.sessions[h]);
    }
    if s.sessions[client].phase == Ready {
      CommitRespects(s, client, h);
    } else {
      OnlyCommitWrites(s, client);
      OthersStay(s, client);
      AdvanceKeeps(s, client);
      assert SessionOk(s', s'.sessions[h]);
      assert StatusesOk(s', s'.sessions[h]);
    }
  }

  lemma SessionStays(s: State, event: Event, c: int)
    requires Inv(s) && c in s.sessions && event.client != c
    ensures c in Step(s, event).sessions && Step(s, event).sessions[c] == s.sessions[c]
  {
    if event.Proceed? && event.client in s.sessions {
      OthersStay(s, event.client);
    }
  }

  /** What the two have in common is left alone by everybody else. */
  lemma WaitStays(s: State, event: Event, c: int, h: int)
    requires Inv(s) && WaitsFor(s, c, h) && event.client != c && event.client != h
    ensures WaitsFor(Step(s, event), c, h)
  {
    var s', t, u := Step(s, event), s.sessions[c], s.sessions[h];
    SessionStays(s, event, c);
    SessionStays(s, event, h);
    if r: int :| r in u.work.statuses && InsertMeets(s, t, r) {
      WrittenRowsStay(s, event, h, r);
      assert InsertMeets(s', t, r);
    }
  }

  lemma ClashPersists(s: State, event: Event, ring: seq<int>)
    requires Inv(s) && Clash(s, ring) && forall c :: c in ring ==> event != Abort(c)
    ensures Clash(Step(s, event), ring)
  {
    if event.client in ring {
      var i :| 0 <= i < |ring| && ring[i] == event.client;
      assert WaitsFor(s, ring[i], Next(ring, i));
      ObstructedWaits(s, ring[i], Next(ring, i));
    } else {
      forall i | 0 <= i < |ring|
        ensures WaitsFor(Step(s, event), ring[i], Next(ring, i))
      {
        WaitStays(s, event, ring[i], Next(ring, i));
      }
    }
  }

  /** A clash is a deadlock: until one of the ring is aborted, none of them ever executes a statement again. */
  lemma {:induction false} ClashIsForEver(s: State, events: seq<Event>, ring: seq<int>)
    requires Inv(s) && Clash(s, ring) && forall c :: c in ring ==> Abort(c) !in events
    ensures Inv(Run(s, events)) && Clash(Run(s, events), ring)
    ensures forall c :: c in ring ==> c in Run(s, events).sessions && Waits(Run(s, events), c)
  {
    if events == [] {
    } else {
      var init, last := events[..|events| - 1], events[|events| - 1];
      assert last in events;
      ClashIsForEver(s, init, ring);
      ClashPersists(Run(s, init), last, ring);
      StepKeeps(Run(s, init), last);
    }
    RingsWait(Run(s, events), ring);
  }

  lemma RingsWait(s: State, ring: seq<int>)
    requires Inv(s) && Clash(s, ring)
    ensures forall c :: c in ring ==> c in s.sessions && Waits(s, c)
  {
    forall c | c in ring
      ensures c in s.sessions && Waits(s, c)
    {
      var i :| 0 <= i < |ring| && ring[i] == c;
      ObstructedWaits(s, c, Next(ring, i));
    }
  }

  // ---------- What a clash is made of ----------

  ghost predicate HasProcessed(t: Session) {
    exists r :: r in t.work.statuses
  }

  /** t is deleting an activity and u, a batch, has processed reservations. */
  ghost predicate MeetsDeletion(t: Session, u: Session) {
    t.phase == Deleting && HasProcessed(u)
  }

  /** t books with the activity locked, and u has processed the reservation that holds the dog's slot. */
  ghost predicate MeetsBooking(s: State, t: Session, u: Session) {
    && t.job.RegisterJob? && OnActivity(t.job.activityId) in t.locks
    && exists r :: r in u.work.statuses && HasSlot(s.rows, r, t.job.activityId, t.job.dogId)
  }

  /** A deletion or a registration that holds an activity meets a batch of it. */
  ghost predicate Crossing(s: State, x: int, b: int) {
    && x in s.sessions && b in s.sessions
    && s.sessions[b].phase == Listed && Batch(s.sessions[b].job)
    && ActivityIdOf(s.sessions[x].job) == ActivityIdOf(s.sessions[b].job)
    && (MeetsDeletion(s.sessions[x], s.sessions[b]) || MeetsBooking(s, s.sessions[x], s.sessions[b]))
  }

  /** The batch has still to take this lock: its activity's, unless it saw it closed, or one of a reservation. */
  predicate StillNeeds(u: Session, l: Lock) {
    match l
    case OnActivity(a) => a == ActivityIdOf(u.job) && !u.seenClosed
    case OnReservation(r) => r in u.todo
    case OnPass(_) => false
  }

  /** And the batch has still to take a lock the other holds. */
  ghost predicate Blocking(s: State, x: int, b: int) {
    Crossing(s, x, b) && exists l :: l in s.sessions[x].locks && StillNeeds(s.sessions[b], l)
  }

  /** Of those that hold a pass only a registration at its INSERT ever waits. */
  lemma PassHoldersWaitAtTheInsert(s: State, c: int, p: int, h: int)
    requires Orderly(s) && WaitsFor(s, c, h) && OnPass(p) in s.sessions[c].locks
    ensures s.sessions[c].phase == PassWritten && s.sessions[c].job.RegisterJob?
  {
    var t := s.sessions[c];
    assert SessionOk(s, t) && Disciplined(t) && t.locks !! s.sessions[h].locks;
  }

  /** Who meets a batch in the index holds the activity, which the batch has still to close. */
  lemma BookingBlocks(s: State, x: int, b: int, r: int)
    requires Orderly(s) && x in s.sessions && b in s.sessions && s.sessions[b].phase == Listed
    requires s.sessions[x].job.RegisterJob? && OnActivity(s.sessions[x].job.activityId) in s.sessions[x].locks
    requires r in s.sessions[b].work.statuses && HasSlot(s.rows, r, s.sessions[x].job.activityId, s.sessions[x].job.dogId)
    ensures Blocking(s, x, b) && !s.sessions[b].seenClosed
  {
    var t, u := s.sessions[x], s.sessions[b];
    assert SessionOk(s, t) && SessionOk(s, u) && Disciplined(t);
    assert OnReservation(r) in u.locks;
    assert s.ever[r] == s.rows[r];
    assert ActivityIdOf(u.job) == t.job.activityId;
    assert HasOpenActivity(s, t);
    assert StillNeeds(u, OnActivity(t.job.activityId));
  }

  /** A registration at its INSERT only ever waits for a client that is about to commit, or for a batch. */
  lemma InsertMeetsABatch(s: State, c: int, h: int)
    requires Orderly(s) && WaitsFor(s, c, h) && s.sessions[c].phase == PassWritten && s.sessions[c].job.RegisterJob?
    ensures s.sessions[h].phase == Ready || Blocking(s, c, h)
  {
    var t, u := s.sessions[c], s.sessions[h];
    assert SessionOk(s, t) && SessionOk(s, u);
    var r :| r in u.work.statuses && InsertMeets(s, t, r);
    if u.phase == Listed {
      BookingBlocks(s, c, h, r);
    }
  }

  lemma ReadyWaitsForNobody(s: State, c: int, h: int)
    requires WaitsFor(s, c, h)
    ensures s.sessions[c].phase != Ready
  {}

  /** Somebody waits for c, so c holds something. */
  lemma WaitedForHolds(s: State, p: int, c: int)
    requires Orderly(s) && WaitsFor(s, p, c)
    ensures s.sessions[c].locks != {} && (s.sessions[c].phase == Listed ==> HasProcessed(s.sessions[c]))
  {
    var u := s.sessions[c];
    assert SessionOk(s, u);
    if NextLock(s.sessions[p]).Some? && NextLock(s.sessions[p]).value in u.locks {
      var l := NextLock(s.sessions[p]).value;
      if u.phase == Listed {
        assert Disciplined(u);
        assert l.OnReservation? && l.id in u.work.statuses;
      }
    } else {
      var r :| r in u.work.statuses && InsertMeets(s, s.sessions[p], r);
      assert OnReservation(r) in u.locks;
    }
  }

  /** What a cascade holds. */
  lemma DeletingHolds(s: State, d: int, l: Lock)
    requires Orderly(s) && d in s.sessions && s.sessions[d].phase == Deleting && l in s.sessions[d].locks
    ensures var a := ActivityIdOf(s.sessions[d].job);
      && OnActivity(a) in s.sessions[d].locks
      && (l == OnActivity(a) || (l.OnReservation? && l.id in s.ever && s.ever[l.id].activityId == a))
    ensures s.sessions[d].work.statuses == map[]
  {
    assert SessionOk(s, s.sessions[d]) && Disciplined(s.sessions[d]);
  }

  /** What a cascade has still to lock. */
  lemma CascadeSeeks(s: State, d: int, l: Lock)
    requires Orderly(s) && d in s.sessions
    ensures s.sessions[d].phase == Deleting && NextLock(s.sessions[d]) == Some(l) ==>
      l.OnReservation? && l.id in s.ever && s.ever[l.id].activityId == ActivityIdOf(s.sessions[d].job)
  {
    var t := s.sessions[d];
    assert SessionOk(s, t);
    assert t.todo != [] ==> t.todo[0] in t.todo;
  }

  /** Two cascades never meet, and a registration at its INSERT never waits for one. */
  lemma WaitsForACascade(s: State, c: int, d: int)
    requires Orderly(s) && WaitsFor(s, c, d) && s.sessions[d].phase == Deleting
    ensures s.sessions[c].phase != Deleting
    ensures NextLock(s.sessions[c]).Some? && NextLock(s.sessions[c]).value in s.sessions[d].locks
  {
    var t, u := s.sessions[d], s.sessions[c];
    assert SessionOk(s, t) && t.locks !! u.locks;
    var l := NextLock(u).value;
    DeletingHolds(s, d, l);
    CascadeSeeks(s, c, l);
    assert u.phase == Deleting ==> OnActivity(ActivityIdOf(u.job)) in u.locks by {
      assert Disciplined(u);
    }
  }

  /** Of those that hold anything only a batch of the activity ever waits for its deletion. */
  lemma OnlyABatchWaitsForADeletion(s: State, c: int, d: int)
    requires Orderly(s) && WaitsFor(s, c, d) && s.sessions[d].phase == Deleting && s.sessions[c].locks != {}
    requires s.sessions[c].phase == Listed ==> HasProcessed(s.sessions[c])
    ensures Blocking(s, d, c)
  {
    var t, u := s.sessions[d], s.sessions[c];
    WaitsForACascade(s, c, d);
    var l := NextLock(u).value;
    DeletingHolds(s, d, l);
    OtherwiseABatchOrAPass(s, c, d);
    assert u.phase == Listed;
    BatchSeeks(s, c, l);
    assert StillNeeds(u, l);
  }

  lemma BatchSeeks(s: State, b: int, l: Lock)
    requires Orderly(s) && b in s.sessions && s.sessions[b].phase == Listed && NextLock(s.sessions[b]) == Some(l)
    ensures Batch(s.sessions[b].job) && StillNeeds(s.sessions[b], l)
    ensures l.OnReservation? ==> l.id in s.ever && s.ever[l.id].activityId == ActivityIdOf(s.sessions[b].job)
  {
    var t := s.sessions[b];
    assert SessionOk(s, t);
    assert t.todo != [] ==> t.todo[0] in t.todo;
  }

  /** Everybody else who holds something and waits is a batch, waiting for a reservation, or waits for a pass. */
  lemma OtherwiseABatchOrAPass(s: State, c: int, h: int)
    requires Orderly(s) && WaitsFor(s, c, h) && s.sessions[c].locks != {} && s.sessions[c].phase != Deleting
    requires !(s.sessions[c].phase == PassWritten && s.sessions[c].job.RegisterJob?)
    ensures NextLock(s.sessions[c]).Some? && NextLock(s.sessions[c]).value in s.sessions[h].locks
    ensures s.sessions[c].phase == Listed || NextLock(s.sessions[c]).value.OnPass?
  {
    var t := s.sessions[c];
    assert SessionOk(s, t) && Disciplined(t) && t.locks !! s.sessions[h].locks;
  }

  /** A batch waits for another one only upwards. */
  lemma BatchesClimb(s: State, c: int, h: int, g: int)
    requires Orderly(s) && WaitsFor(s, c, h) && WaitsFor(s, h, g)
    requires s.sessions[c].phase == Listed && s.sessions[h].phase == Listed && s.sessions[g].phase == Listed
    ensures Sought(s.sessions[c]) < Sought(s.sessions[h])
  {
    var t, u := s.sessions[c], s.sessions[h];
    assert SessionOk(s, t) && SessionOk(s, u) && Disciplined(u) && Disciplined(s.sessions[g]);
    assert NextLock(t).value in u.locks && NextLock(u).value.OnReservation?;
    assert u.todo[0] in u.todo;
  }

  /** The reservation a batch has to wait for. */
  function Sought(t: Session): int {
    if NextLock(t).Some? then NextLock(t).value.id else 0
  }

  /** A ring of numbers does not climb all the way round. */
  lemma SomewhereItFalls(numbers: seq<int>)
    requires numbers != []
    ensures exists i :: 0 <= i < |numbers| && Next(numbers, i) <= numbers[i]
  {
    ClimbsOrFalls(numbers, |numbers| - 1);
    assert Next(numbers, |numbers| - 1) == numbers[0];
  }

  lemma {:induction false} ClimbsOrFalls(numbers: seq<int>, i: nat)
    requires i < |numbers|
    ensures numbers[0] <= numbers[i] || exists j :: 0 <= j < i && Next(numbers, j) <= numbers[j]
  {
    if i == 0 {
    } else {
      ClimbsOrFalls(numbers, i - 1);
      assert Next(numbers, i - 1) == numbers[i];
    }
  }

  function Previous(ring: seq<int>, i: nat): int
    requires i < |ring|
  {
    if i == 0 then ring[|ring| - 1] else ring[i - 1]
  }

  lemma RingNeighbours(s: State, ring: seq<int>, i: nat)
    requires Clash(s, ring) && i < |ring|
    ensures WaitsFor(s, ring[i], Next(ring, i)) && Next(ring, i) in ring
    ensures WaitsFor(s, Previous(ring, i), ring[i]) && Previous(ring, i) in ring
  {
    var j := if i == 0 then |ring| - 1 else i - 1;
    assert Next(ring, j) == ring[i] && ring[j] == Previous(ring, i);
    assert WaitsFor(s, ring[j], Next(ring, j));
  }

  /** The two exceptions to the lock order. */
  predicate Exceptional(t: Session) {
    t.phase == Deleting || (t.phase == PassWritten && t.job.RegisterJob?)
  }

  /** In a row of three that wait for each other, none of them exceptional, the first is a batch that waits for a reservation. */
  lemma OrdinaryWaiters(s: State, p: int, c: int, h: int, g: int)
    requires Orderly(s) && WaitsFor(s, p, c) && WaitsFor(s, c, h) && WaitsFor(s, h, g)
    requires !Exceptional(s.sessions[c]) && !Exceptional(s.sessions[h])
    ensures s.sessions[c].phase == Listed && NextLock(s.sessions[c]).Some?
    ensures NextLock(s.sessions[c]).value in s.sessions[h].locks
  {
    WaitedForHolds(s, p, c);
    OtherwiseABatchOrAPass(s, c, h);
    if NextLock(s.sessions[c]).value.OnPass? {
      PassHoldersWaitAtTheInsert(s, h, NextLock(s.sessions[c]).value.id, g);
    }
  }

  /** A ring without an exceptional client would be one of batches, and climb for ever. */
  lemma EveryRingHasAnException(s: State, ring: seq<int>)
    requires Orderly(s) && Clash(s, ring)
    ensures exists c :: c in ring && c in s.sessions && Exceptional(s.sessions[c])
  {
    if forall c :: c in ring && c in s.sessions ==> !Exceptional(s.sessions[c]) {
      forall i | 0 <= i < |ring|
        ensures ring[i] in s.sessions && s.sessions[ring[i]].phase == Listed && WaitsFor(s, ring[i], Next(ring, i))
      {
        RingNeighbours(s, ring, i);
        var j := if i + 1 < |ring| then i + 1 else 0;
        RingNeighbours(s, ring, j);
        OrdinaryWaiters(s, Previous(ring, i), ring[i], Next(ring, i), Next(ring, j));
      }
      var numbers := seq(|ring|, i requires 0 <= i < |ring| => Sought(s.sessions[ring[i]]));
      SomewhereItFalls(numbers);
      var i :| 0 <= i < |numbers| && Next(numbers, i) <= numbers[i];
      var j := if i + 1 < |ring| then i + 1 else 0;
      BatchesClimb(s, ring[i], ring[j], Next(ring, j));
      assert false;
    }
  }

  /** Every clash contains a deletion or a registration that holds an activity, and a batch of it that is held up by it. */
  lemma ClashHasABlockedBatch(s: State, ring: seq<int>)
    requires Orderly(s) && Clash(s, ring)
    ensures exists x, b :: x in ring && b in ring && Blocking(s, x, b)
  {
    EveryRingHasAnException(s, ring);
    var c :| c in ring && c in s.sessions && Exceptional(s.sessions[c]);
    var i :| 0 <= i < |ring| && ring[i] == c;
    RingNeighbours(s, ring, i);
    if s.sessions[c].phase == Deleting {
      var j := if i == 0 then |ring| - 1 else i - 1;
      RingNeighbours(s, ring, j);
      WaitedForHolds(s, Previous(ring, j), ring[j]);
      OnlyABatchWaitsForADeletion(s, ring[j], c);
    } else {
      var j := if i + 1 < |ring| then i + 1 else 0;
      RingNeighbours(s, ring, j);
      ReadyWaitsForNobody(s, ring[j], Next(ring, j));
      InsertMeetsABatch(s, c, ring[j]);
    }
  }
}
