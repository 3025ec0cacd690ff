/** COMMIT and the cascading DELETE keep the invariant. */
module EngineCommit {

  import opened Outcomes
  import opened Reservations
  import opened Passes
  import opened Engine
  import opened EngineInvariant
  import opened EngineLocal

  ghost predicate Committable(s: State, client: int) {
    TablesOk(s) && client in s.sessions && s.sessions[client].phase == Ready && SessionOk(s, s.sessions[client])
  }

  // ---------- Appending movements ----------

  lemma {:induction false} RefundsOfConcatenation(a: seq<Movement>, b: seq<Movement>, r: int)
    ensures RefundsOf(a + b, r) == RefundsOf(a, r) + RefundsOf(b, r)
  {
    if b == [] {
      assert a + b == a;
    } else {
      assert (a + b)[..|a + b| - 1] == a + b[..|b| - 1];
      RefundsOfConcatenation(a, b[..|b| - 1], r);
    }
  }

  lemma {:induction false} BookingsOfConcatenation(a: seq<Movement>, b: seq<Movement>, p: int, x: int, d: int)
    ensures BookingsOf(a + b, p, x, d) == BookingsOf(a, p, x, d) + BookingsOf(b, p, x, d)
  {
    if b == [] {
      assert a + b == a;
    } else {
      assert (a + b)[..|a + b| - 1] == a + b[..|b| - 1];
      BookingsOfConcatenation(a, b[..|b| - 1], p, x, d);
    }
  }

  // ---------- What an edit of a pass amounts to ----------

  /** The row moves by exactly the amount of the movements that go with it. */
  lemma EditBalances(s: State, t: Session, q: int)
    requires TablesOk(s) && WroteOk(s, t)
    ensures var before, after := t.pass.value, t.work.pass.value;
      && after.numOfSessions == before.numOfSessions && after.userId == before.userId
      && 0 <= after.remaining <= after.numOfSessions
      && AmountOn(t.work.movements, q) == (if q == PassIdOf(t) then after.remaining - before.remaining else 0)
  {
    var row := t.pass.value;
    assert 0 <= row.remaining <= row.numOfSessions;
    assert AmountOn([], q) == 0;
  }

  /** Register books, Cancel, Reject and Forgive refund the reservation they name, a patch does neither. */
  lemma EditMovements(s: State, t: Session)
    requires WroteOk(s, t)
    ensures t.job.RegisterJob? ==>
      t.work.movements == [Movement(PassIdOf(t), -1, Booked(t.job.activityId, t.job.dogId))]
    ensures Refunding(t.job) ==>
      && |t.work.movements| == 1 && t.work.movements[0].amount == 1 && t.work.movements[0].passId == PassIdOf(t)
      && RefundIn(t.work.movements[0]) == Some(ReservationIdOf(t.job))
    ensures t.job.PatchPassJob? ==> t.work.movements == []
  {}

  // ---------- Charged reservations ----------

  lemma MergeKeepsCharged(ever: map<int, ReservationRow>, statuses: map<int, Status>, p: int)
    requires forall r :: r in statuses && r in ever ==> Charged(ever[r].status) && Charged(statuses[r])
    ensures ChargedOn(Merge(ever, statuses), p) == ChargedOn(ever, p)
  {
    var after := Merge(ever, statuses);
    forall r
      ensures r in ChargedOn(after, p) <==> r in ChargedOn(ever, p)
    {
      if r in ever && r in statuses {
        assert after[r] == ever[r].(status := statuses[r]);
      }
    }
  }

  lemma MergeReleases(ever: map<int, ReservationRow>, statuses: map<int, Status>, r: int, p: int)
    requires statuses.Keys == {r} && r in ever && Charged(ever[r].status) && !Charged(statuses[r])
    ensures ChargedOn(Merge(ever, statuses), p) ==
      if ever[r].passId == p then ChargedOn(ever, p) - {r} else ChargedOn(ever, p)
    ensures ever[r].passId == p ==> r in ChargedOn(ever, p)
  {}

  lemma InsertCharges(ever: map<int, ReservationRow>, id: int, row: ReservationRow, p: int)
    requires id !in ever && Charged(row.status)
    ensures ChargedOn(ever[id := row], p) == if row.passId == p then ChargedOn(ever, p) + {id} else ChargedOn(ever, p)
    ensures id !in ChargedOn(ever, p)
  {}

  lemma MergeKeepsBooked(ever: map<int, ReservationRow>, statuses: map<int, Status>, p: int, a: int, d: int)
    ensures BookedOn(Merge(ever, statuses), p, a, d) == BookedOn(ever, p, a, d)
  {}

  lemma InsertBooks(ever: map<int, ReservationRow>, id: int, row: ReservationRow, p: int, a: int, d: int)
    requires id !in ever
    ensures BookedOn(ever[id := row], p, a, d) ==
      if row.passId == p && row.activityId == a && row.dogId == d then BookedOn(ever, p, a, d) + {id} else BookedOn(ever, p, a, d)
    ensures id !in BookedOn(ever, p, a, d)
  {}

  // ---------- The tables after COMMIT ----------

  /** The shape of the work of a client that is ready to commit. */
  lemma StatusesAreOfRows(s: State, client: int)
    requires Committable(s, client)
    ensures var t := s.sessions[client];
      && (forall r :: r in t.work.statuses ==>
            r in s.rows && r in s.ever && s.ever[r] == s.rows[r] && Arrow(s.ever[r].status, t.work.statuses[r]))
      && (t.work.inserted.Some? ==> RegisterReady(s, t))
      && (t.work.pass.Some? ==> WroteOk(s, t))
      && (t.work.pass.None? ==> t.work.movements == [])
  {}

  lemma CommitSane(s: State, client: int)
    requires Committable(s, client)
    ensures Sane(Commit(s, client, s.sessions[client]))
  {
    var t := s.sessions[client];
    var s' := Commit(s, client, t);
    StatusesAreOfRows(s, client);
    forall r | r in s'.ever
      ensures 0 <= r < s'.nextId && s'.ever[r].passId in s'.passes && s'.ever[r].dogId in s'.dogs
    {
      if r in s.ever {
        assert s'.ever[r].passId == s.ever[r].passId && s'.ever[r].dogId == s.ever[r].dogId;
      }
    }
    forall r | r in s'.rows
      ensures r in s'.ever && s'.ever[r] == s'.rows[r] && s'.rows[r].activityId in s'.activities
    {
      if r in s.rows {
        assert s'.rows[r].activityId == s.rows[r].activityId;
      }
    }
  }

  lemma CommitLedger(s: State, client: int)
    requires Committable(s, client)
    ensures LedgerAgrees(Commit(s, client, s.sessions[client]))
  {
    var t := s.sessions[client];
    var s' := Commit(s, client, t);
    StatusesAreOfRows(s, client);
    forall q | q in s'.passes
      ensures s'.passes[q].remaining == s'.passes[q].numOfSessions + AmountOn(s'.movements, q)
      ensures 0 <= s'.passes[q].remaining <= s'.passes[q].numOfSessions
    {
      if t.work.pass.Some? {
        AmountOfConcatenation(s.movements, t.work.movements, q);
        EditBalances(s, t, q);
      } else {
        assert s.movements + t.work.movements == s.movements;
      }
    }
  }

  /** One more charged reservation on a pass that has one session less. */
  lemma InsertConserves(s: State, client: int, t: Session, q: int)
    requires q in s.passes && s.passes[q].numOfSessions - s.passes[q].remaining == |ChargedOn(s.ever, q)|
    requires t.work.statuses == map[] && t.work.inserted.Some? && t.work.inserted.value.0 !in s.ever
    requires Charged(t.work.inserted.value.1.status) && t.work.inserted.value.1.passId == PassIdOf(t)
    requires t.work.pass.Some? && PassIdOf(t) in s.passes
    requires var before, after := s.passes[PassIdOf(t)], t.work.pass.value;
      after.numOfSessions == before.numOfSessions && after.remaining == before.remaining - 1
    ensures var s' := Commit(s, client, t);
      q in s'.passes && s'.passes[q].numOfSessions - s'.passes[q].remaining == |ChargedOn(s'.ever, q)|
  {
    var (id, row) := t.work.inserted.value;
    assert Merge(s.ever, t.work.statuses) == s.ever;
    InsertCharges(s.ever, id, row, q);
  }

  lemma RegisterTakesOne(s: State, client: int)
    requires Committable(s, client) && s.sessions[client].job.RegisterJob?
    ensures var t := s.sessions[client]; var p := PassIdOf(t);
      && t.work.statuses == map[] && t.work.inserted.Some? && t.work.inserted.value.0 !in s.ever
      && Charged(t.work.inserted.value.1.status) && t.work.inserted.value.1.passId == p
      && t.work.pass.Some? && p in s.passes
      && t.work.pass.value.numOfSessions == s.passes[p].numOfSessions && t.work.pass.value.remaining == s.passes[p].remaining - 1
  {
    assert RegisterReady(s, s.sessions[client]);
  }

  lemma RegisterConserves(s: State, client: int, q: int)
    requires Committable(s, client) && s.sessions[client].job.RegisterJob?
    requires q in s.passes
    ensures var s' := Commit(s, client, s.sessions[client]);
      q in s'.passes && s'.passes[q].numOfSessions - s'.passes[q].remaining == |ChargedOn(s'.ever, q)|
  {
    RegisterTakesOne(s, client);
    InsertConserves(s, client, s.sessions[client], q);
  }

  lemma ReleaseConserves(s: State, client: int, q: int)
    requires Committable(s, client) && Refunding(s.sessions[client].job) && !Charged(s.sessions[client].target)
    requires q in s.passes
    ensures var s' := Commit(s, client, s.sessions[client]);
      q in s'.passes && s'.passes[q].numOfSessions - s'.passes[q].remaining == |ChargedOn(s'.ever, q)|
  {
    var t := s.sessions[client];
    assert RefundReady(s, t);
    var r := ReservationIdOf(t.job);
    assert r in t.work.statuses && s.ever[r] == s.rows[r];
    assert PassIdOf(t) == s.ever[r].passId;
    MergeReleases(s.ever, t.work.statuses, r, q);
    EditBalances(s, t, q);
    EditMovements(s, t);
    assert AmountOn([], q) == 0;
    assert t.work.movements[..0] == [];
  }

  lemma OtherConserves(s: State, client: int, q: int)
    requires Committable(s, client)
    requires var t := s.sessions[client]; !t.job.RegisterJob? && (Refunding(t.job) ==> Charged(t.target))
    requires q in s.passes
    ensures var s' := Commit(s, client, s.sessions[client]);
      q in s'.passes && s'.passes[q].numOfSessions - s'.passes[q].remaining == |ChargedOn(s'.ever, q)|
  {
    var t := s.sessions[client];
    StatusesAreOfRows(s, client);
    MergeKeepsCharged(s.ever, t.work.statuses, q);
    if t.work.pass.Some? {
      EditBalances(s, t, q);
      EditMovements(s, t);
    }
  }

  lemma CommitConserves(s: State, client: int)
    requires Committable(s, client)
    ensures SessionsConserved(Commit(s, client, s.sessions[client]))
  {
    var t := s.sessions[client];
    var s' := Commit(s, client, t);
    StatusesAreOfRows(s, client);
    assert s'.passes.Keys == s.passes.Keys;
    forall q | q in s'.passes
      ensures s'.passes[q].numOfSessions - s'.passes[q].remaining == |ChargedOn(s'.ever, q)|
    {
      if t.job.RegisterJob? {
        RegisterConserves(s, client, q);
      } else if Refunding(t.job) && !Charged(t.target) {
        ReleaseConserves(s, client, q);
      } else {
        OtherConserves(s, client, q);
      }
    }
  }

  /** The refunds a client brings along are those of the reservations it releases. */
  ghost predicate RefundsMatch(work: Work) {
    forall r :: RefundsOf(work.movements, r) == if r in work.statuses && !Charged(work.statuses[r]) then 1 else 0
  }

  /** What a client changes was charged, and what it adds is. */
  ghost predicate ChangesCharged(s: State, work: Work) {
    && (forall r :: r in work.statuses ==> r in s.ever && Charged(s.ever[r].status))
    && (work.inserted.Some? ==> work.inserted.value.0 !in s.ever && Charged(work.inserted.value.1.status))
  }

  lemma {:induction false} NoRefunds(movements: seq<Movement>, r: int)
    requires forall m :: m in movements ==> RefundIn(m) != Some(r)
    ensures RefundsOf(movements, r) == 0
  {
    if movements == [] {
    } else {
      NoRefunds(movements[..|movements| - 1], r);
    }
  }

  lemma WorkRefunds(s: State, client: int)
    requires Committable(s, client)
    ensures RefundsMatch(s.sessions[client].work)
  {
    var t := s.sessions[client];
    StatusesAreOfRows(s, client);
    if t.work.pass.Some? {
      EditMovements(s, t);
    }
    if Refunding(t.job) && t.work.pass.Some? {
      assert t.work.movements[..0] == [];
      assert t.work.statuses.Keys == {ReservationIdOf(t.job)};
    } else {
      forall r
        ensures RefundsOf(t.work.movements, r) == 0
      {
        NoRefunds(t.work.movements, r);
      }
      assert forall r :: r in t.work.statuses ==> Charged(t.work.statuses[r]);
    }
  }

  lemma RefundsAfterCommit(s: State, client: int, t: Session)
    requires RefundsExact(s) && RefundsMatch(t.work) && ChangesCharged(s, t.work)
    ensures RefundsExact(Commit(s, client, t))
  {
    var s' := Commit(s, client, t);
    forall r
      ensures RefundsOf(s'.movements, r) == if r in s'.ever && !Charged(s'.ever[r].status) then 1 else 0
    {
      RefundsOfConcatenation(s.movements, t.work.movements, r);
    }
  }

  lemma CommitRefunds(s: State, client: int)
    requires Committable(s, client)
    ensures RefundsExact(Commit(s, client, s.sessions[client]))
  {
    StatusesAreOfRows(s, client);
    WorkRefunds(s, client);
    RefundsAfterCommit(s, client, s.sessions[client]);
  }

  lemma RegisterWork(s: State, client: int)
    requires Committable(s, client) && s.sessions[client].job.RegisterJob?
    ensures var t := s.sessions[client];
      && t.work.statuses == map[] && t.work.inserted.Some? && t.work.inserted.value.0 !in s.ever
      && t.work.inserted.value.1 == ReservationRow(t.job.activityId, t.job.dogId, t.job.passId, t.target)
      && t.work.movements == [Movement(t.job.passId, -1, Booked(t.job.activityId, t.job.dogId))]
  {
    assert RegisterReady(s, s.sessions[client]);
    EditMovements(s, s.sessions[client]);
  }

  lemma RegisterBooks(s: State, client: int, t: Session, p: int, a: int, d: int)
    requires BookingsExact(s) && t.job.RegisterJob?
    requires t.work.statuses == map[] && t.work.inserted.Some? && t.work.inserted.value.0 !in s.ever
    requires t.work.inserted.value.1 == ReservationRow(t.job.activityId, t.job.dogId, t.job.passId, t.target)
    requires t.work.movements == [Movement(t.job.passId, -1, Booked(t.job.activityId, t.job.dogId))]
    ensures var s' := Commit(s, client, t); BookingsOf(s'.movements, p, a, d) == |BookedOn(s'.ever, p, a, d)|
  {
    var (id, row) := t.work.inserted.value;
    assert Merge(s.ever, t.work.statuses) == s.ever;
    BookingsOfConcatenation(s.movements, t.work.movements, p, a, d);
    InsertBooks(s.ever, id, row, p, a, d);
    assert t.work.movements[..0] == [];
  }

  lemma {:induction false} NoBookings(movements: seq<Movement>, p: int, a: int, d: int)
    requires forall m :: m in movements ==> !m.reason.Booked?
    ensures BookingsOf(movements, p, a, d) == 0
  {
    if movements == [] {
    } else {
      NoBookings(movements[..|movements| - 1], p, a, d);
    }
  }

  lemma OthersBookNothing(s: State, client: int)
    requires Committable(s, client) && !s.sessions[client].job.RegisterJob?
    ensures s.sessions[client].work.inserted.None?
    ensures forall m :: m in s.sessions[client].work.movements ==> !m.reason.Booked?
  {
    var t := s.sessions[client];
    StatusesAreOfRows(s, client);
    if t.work.pass.Some? {
      EditMovements(s, t);
    }
  }

  lemma OtherBooks(s: State, client: int, p: int, a: int, d: int)
    requires Committable(s, client) && !s.sessions[client].job.RegisterJob?
    ensures var s' := Commit(s, client, s.sessions[client]); BookingsOf(s'.movements, p, a, d) == |BookedOn(s'.ever, p, a, d)|
  {
    var t := s.sessions[client];
    OthersBookNothing(s, client);
    NoBookings(t.work.movements, p, a, d);
    BookingsOfConcatenation(s.movements, t.work.movements, p, a, d);
    MergeKeepsBooked(s.ever, t.work.statuses, p, a, d);
    assert BookingsExact(s);
  }

  lemma CommitBookings(s: State, client: int)
    requires Committable(s, client)
    ensures BookingsExact(Commit(s, client, s.sessions[client]))
  {
    var t := s.sessions[client];
    var s' := Commit(s, client, t);
    forall p, a, d
      ensures BookingsOf(s'.movements, p, a, d) == |BookedOn(s'.ever, p, a, d)|
    {
      if t.job.RegisterJob? {
        RegisterWork(s, client);
        RegisterBooks(s, client, t, p, a, d);
      } else {
        OtherBooks(s, client, p, a, d);
      }
    }
  }

  lemma WorkMovements(s: State, client: int)
    requires Committable(s, client)
    ensures forall m :: m in s.sessions[client].work.movements ==> WellFormed(m, s.ever)
  {
    var t := s.sessions[client];
    StatusesAreOfRows(s, client);
    if t.work.pass.Some? {
      EditMovements(s, t);
    }
  }

  lemma MovementsAfterCommit(s: State, client: int, t: Session)
    requires MovementsWellFormed(s) && forall m :: m in t.work.movements ==> WellFormed(m, s.ever)
    requires t.work.inserted.Some? ==> t.work.inserted.value.0 !in s.ever
    ensures MovementsWellFormed(Commit(s, client, t))
  {
    var s' := Commit(s, client, t);
    forall m | m in s'.movements
      ensures WellFormed(m, s'.ever)
    {
      assert WellFormed(m, s.ever);
    }
  }

  lemma CommitMovements(s: State, client: int)
    requires Committable(s, client)
    ensures MovementsWellFormed(Commit(s, client, s.sessions[client]))
  {
    StatusesAreOfRows(s, client);
    WorkMovements(s, client);
    MovementsAfterCommit(s, client, s.sessions[client]);
  }

  /** Only a registration adds a holder, and only to the activity it has locked. */
  lemma CommitHolders(s: State, client: int, a: int)
    requires Committable(s, client)
    ensures var t := s.sessions[client];
      Holders(Commit(s, client, t).rows, a) <=
        if t.job.RegisterJob? && t.job.activityId == a && t.work.inserted.Some? then Holders(s.rows, a) + {t.work.inserted.value.0}
        else Holders(s.rows, a)
  {
    var t := s.sessions[client];
    var rows' := Commit(s, client, t).rows;
    StatusesAreOfRows(s, client);
    forall r | r in Holders(rows', a) && (t.work.inserted.None? || r != t.work.inserted.value.0)
      ensures r in Holders(s.rows, a)
    {
      assert r in s.rows && rows'[r] == Merge(s.rows, t.work.statuses)[r];
    }
  }

  lemma SubsetIsSmaller<T>(a: set<T>, b: set<T>)
    requires a <= b
    ensures |a| <= |b|
  {
    assert a + (b - a) == b;
  }

  lemma CommitCapacityAt(s: State, client: int, a: int)
    requires Committable(s, client) && a in s.activities
    ensures |Holders(Commit(s, client, s.sessions[client]).rows, a)| <= s.activities[a].maxCapacity
  {
    var t := s.sessions[client];
    var rows' := Commit(s, client, t).rows;
    CommitHolders(s, client, a);
    if t.job.RegisterJob? && t.job.activityId == a && t.work.inserted.Some? {
      StatusesAreOfRows(s, client);
      SubsetIsSmaller(Holders(rows', a), Holders(s.rows, a) + {t.work.inserted.value.0});
    } else {
      SubsetIsSmaller(Holders(rows', a), Holders(s.rows, a));
    }
  }

  lemma CommitCapacity(s: State, client: int)
    requires Committable(s, client)
    ensures CapacityRespected(Commit(s, client, s.sessions[client]))
  {
    var s' := Commit(s, client, s.sessions[client]);
    forall a | a in s'.activities
      ensures |Holders(s'.rows, a)| <= s'.activities[a].maxCapacity
    {
      CommitCapacityAt(s, client, a);
    }
  }

  /** A pair sharing an activity after COMMIT either shared it before or includes the new reservation. */
  lemma CommitShares(s: State, client: int, r1: int, r2: int)
    requires Committable(s, client) && Share(Commit(s, client, s.sessions[client]), r1, r2)
    ensures var t := s.sessions[client];
      || Share(s, r1, r2)
      || (t.job.RegisterJob? && t.work.inserted.Some? && t.work.inserted.value.0 == r1 && r2 in Holders(s.rows, t.job.activityId))
      || (t.job.RegisterJob? && t.work.inserted.Some? && t.work.inserted.value.0 == r2 && r1 in Holders(s.rows, t.job.activityId))
  {
    StatusesAreOfRows(s, client);
  }

  lemma CommitRoster(s: State, client: int)
    requires Committable(s, client)
    ensures OneSlotPerDog(Commit(s, client, s.sessions[client])) && RosterSafe(Commit(s, client, s.sessions[client]))
  {
    var t := s.sessions[client];
    var s' := Commit(s, client, t);
    StatusesAreOfRows(s, client);
    forall r1, r2 | Share(s', r1, r2)
      ensures s'.rows[r1].dogId != s'.rows[r2].dogId
      ensures r1 < r2 && r2 !in s'.byAdmin ==> DogsCompatible(s', r1, r2)
    {
      CommitShares(s, client, r1, r2);
      if Share(s, r1, r2) {
        assert r1 < r2 && r2 !in s.byAdmin ==> DogsCompatible(s, r1, r2);
      }
    }
  }

  lemma CommitPlacement(s: State, client: int)
    requires Committable(s, client)
    ensures EveryoneWellPlaced(Commit(s, client, s.sessions[client]))
  {
    StatusesAreOfRows(s, client);
  }

  lemma CommitOwners(s: State, client: int)
    requires Committable(s, client)
    ensures OwnersAgree(Commit(s, client, s.sessions[client]))
  {
    var t := s.sessions[client];
    StatusesAreOfRows(s, client);
    if t.work.pass.Some? {
      EditBalances(s, t, PassIdOf(t));
    }
  }

  lemma CommitDogs(s: State, client: int)
    requires Committable(s, client)
    ensures DogsActive(Commit(s, client, s.sessions[client]))
  {
    StatusesAreOfRows(s, client);
  }

  lemma CommitTables(s: State, client: int)
    requires Committable(s, client)
    ensures TablesOk(Commit(s, client, s.sessions[client]))
  {
    CommitSane(s, client);
    CommitLedger(s, client);
    CommitConserves(s, client);
    CommitRefunds(s, client);
    CommitBookings(s, client);
    CommitMovements(s, client);
    CommitCapacity(s, client);
    CommitRoster(s, client);
    CommitPlacement(s, client);
    CommitOwners(s, client);
    CommitDogs(s, client);
  }

  // ---------- The other clients ----------

  /**
   * What a commit or a deletion may do to the tables as seen by a client that holds the locks `locks`:
   * rows it has locked stay, the activities it has locked gain no holder, no activity is added or
   * reopened, passes only move to later versions, and no reservation becomes charged again.
   */
  ghost predicate Respects(s: State, s': State, locks: set<Lock>) {
    && s'.dogs == s.dogs && s'.nextId == s.nextId && s'.clock == s.clock
    && RespectsRows(s, s', locks) && RespectsActivities(s, s', locks) && RespectsPasses(s, s', locks)
  }

  ghost predicate RespectsRows(s: State, s': State, locks: set<Lock>) {
    && (forall r :: r in s.rows && OnReservation(r) in locks ==> r in s'.rows && s'.rows[r] == s.rows[r])
    && (forall r :: r in s.ever ==>
          r in s'.ever && SameBooking(s'.ever[r], s.ever[r]) && (Charged(s'.ever[r].status) ==> Charged(s.ever[r].status)))
    && (forall r :: OnReservation(r) in locks && r in s'.ever ==> r in s.ever)
  }

  ghost predicate RespectsActivities(s: State, s': State, locks: set<Lock>) {
    && (forall a :: a in s'.activities ==>
          && a in s.activities && s'.activities[a] == s.activities[a].(closed := s'.activities[a].closed)
          && (s.activities[a].closed ==> s'.activities[a].closed))
    && forall a :: a in s.activities && OnActivity(a) in locks ==>
         && a in s'.activities && s'.activities[a] == s.activities[a]
         && Holders(s'.rows, a) <= Holders(s.rows, a)
         && forall r :: r in s'.rows && s'.rows[r].activityId == a ==> r in s.rows && SameBooking(s'.rows[r], s.rows[r])
  }

  ghost predicate RespectsPasses(s: State, s': State, locks: set<Lock>) {
    forall p :: p in s.passes ==>
      && p in s'.passes && s'.passes[p].userId == s.passes[p].userId && s'.passes[p].numOfSessions == s.passes[p].numOfSessions
      && s.passes[p].version <= s'.passes[p].version
      && (OnPass(p) in locks || s.passes[p].version == s'.passes[p].version ==> s'.passes[p] == s.passes[p])
  }

  lemma FrameAdmission(s: State, s': State, t: Session)
    requires Respects(s, s', t.locks) && t.job.RegisterJob? && AdmissionHolds(s, t)
    ensures AdmissionHolds(s', t)
  {
    var a := t.job.activityId;
    SubsetIsSmaller(Holders(s'.rows, a), Holders(s.rows, a));
    forall r | r in Holders(s'.rows, a)
      ensures r in Holders(s.rows, a) && s'.rows[r].dogId == s.rows[r].dogId
    {}
  }

  lemma FrameWrote(s: State, s': State, t: Session)
    requires Respects(s, s', t.locks) && WroteOk(s, t)
    ensures WroteOk(s', t)
  {}

  lemma FrameInsert(s: State, s': State, t: Session)
    requires Respects(s, s', t.locks) && t.job.RegisterJob? && AdmissionHolds(s, t) && InsertOk(s, t)
    ensures InsertOk(s', t)
  {
    var a := t.job.activityId;
    forall r | r in Holders(s'.rows, a)
      ensures r in Holders(s.rows, a) && s'.rows[r].dogId == s.rows[r].dogId
    {}
  }

  lemma FrameScoped(s: State, s': State, t: Session)
    requires Respects(s, s', t.locks) && Scoped(s, t)
    ensures Scoped(s', t)
  {}

  lemma FrameCascade(s: State, s': State, t: Session)
    requires Respects(s, s', t.locks) && HasActivity(s, t) && CascadeCovers(s, t)
    ensures HasActivity(s', t) && CascadeCovers(s', t)
  {
    forall r | r in RowsOf(s'.rows, ActivityIdOf(t.job))
      ensures r in RowsOf(s.rows, ActivityIdOf(t.job))
    {}
  }

  /** What a registration knows survives as a whole. */
  lemma FrameRegistration(s: State, s': State, t: Session)
    requires Respects(s, s', t.locks) && t.job.RegisterJob?
    ensures HasOpenActivity(s, t) ==> HasOpenActivity(s', t)
    ensures AdmissionHolds(s, t) ==> AdmissionHolds(s', t)
    ensures AdmissionHolds(s, t) && InsertOk(s, t) ==> InsertOk(s', t)
  {
    if AdmissionHolds(s, t) {
      FrameAdmission(s, s', t);
      if InsertOk(s, t) {
        FrameInsert(s, s', t);
      }
    }
  }

  /** What is known of a reservation and a pass that were read survives. */
  lemma FrameSeen(s: State, s': State, t: Session)
    requires Respects(s, s', t.locks)
    ensures SeenOk(s, t) ==> SeenOk(s', t)
    ensures PassSeen(s, t) ==> PassSeen(s', t)
    ensures SkipsOnlyUncharged(s, t) && SeenOk(s, t) ==> SkipsOnlyUncharged(s', t)
    ensures StatusesOk(s, t) ==> StatusesOk(s', t)
  {}

  /** What a batch or a cascade knows survives as a whole. */
  lemma FrameJob(s: State, s': State, t: Session)
    requires Respects(s, s', t.locks)
    ensures WroteOk(s, t) ==> WroteOk(s', t)
    ensures Scoped(s, t) ==> Scoped(s', t)
    ensures Batch(t.job) && SawRight(s, t) ==> SawRight(s', t)
    ensures HasActivity(s, t) ==> HasActivity(s', t)
    ensures HasActivity(s, t) && CascadeCovers(s, t) ==> CascadeCovers(s', t)
  {
    if WroteOk(s, t) {
      FrameWrote(s, s', t);
    }
    if Scoped(s, t) {
      FrameScoped(s, s', t);
    }
    if HasActivity(s, t) && CascadeCovers(s, t) {
      FrameCascade(s, s', t);
    }
  }

  lemma FrameOwner(s: State, s': State, t: Session)
    requires Respects(s, s', t.locks) && t.job.RegisterJob?
    ensures OwnerPays(s, t) ==> OwnerPays(s', t)
  {}

  /** So does what a client knows when it is about to commit. */
  lemma FrameReady(s: State, s': State, t: Session)
    requires Respects(s, s', t.locks)
    ensures CarriesReady(s, s', t)
  {
    if t.job.RegisterJob? {
      FrameRegistration(s, s', t);
      FrameOwner(s, s', t);
    }
    FrameSeen(s, s', t);
    FrameJob(s, s', t);
    assert RefundReady(s, t) || MoveReady(s, t) ==> ReservationIdOf(t.job) in t.work.statuses;
  }

  lemma RespectedCarries(s: State, s': State, t: Session)
    requires Respects(s, s', t.locks)
    ensures Carries(s, s', t)
  {
    FrameReady(s, s', t);
    FrameRest(s, s', t);
  }

  lemma FrameRest(s: State, s': State, t: Session)
    requires Respects(s, s', t.locks)
    ensures CarriesReads(s, s', t) && CarriesJob(s, s', t) && (t.job.RegisterJob? ==> CarriesBooking(s, s', t))
    ensures StatusesOk(s, t) ==> StatusesOk(s', t)
    ensures s.nextId <= s'.nextId
  {
    FrameSeen(s, s', t);
    FrameJob(s, s', t);
    if t.job.RegisterJob? {
      FrameRegistration(s, s', t);
      FrameOwner(s, s', t);
    }
  }

  lemma FrameSession(s: State, s': State, t: Session)
    requires Respects(s, s', t.locks) && SessionOk(s, t)
    ensures SessionOk(s', t)
  {
    RespectedCarries(s, s', t);
    CarriedSession(s, s', t);
  }

  lemma CommitMovesPasses(s: State, client: int, p: int)
    requires Committable(s, client) && p in s.passes
    ensures var t := s.sessions[client]; var passes' := Commit(s, client, t).passes;
      && p in passes' && passes'[p].userId == s.passes[p].userId && passes'[p].numOfSessions == s.passes[p].numOfSessions
      && s.passes[p].version <= passes'[p].version
      && (OnPass(p) !in t.locks || s.passes[p].version == passes'[p].version ==> passes'[p] == s.passes[p])
  {
    var t := s.sessions[client];
    StatusesAreOfRows(s, client);
    if t.work.pass.Some? {
      EditBalances(s, t, PassIdOf(t));
    }
  }

  lemma CommitRespectsRows(s: State, client: int, locks: set<Lock>)
    requires Committable(s, client) && s.sessions[client].locks !! locks
    ensures RespectsRows(s, Commit(s, client, s.sessions[client]), locks)
  {
    StatusesAreOfRows(s, client);
  }

  lemma CommitRespectsActivities(s: State, client: int, locks: set<Lock>)
    requires Committable(s, client) && s.sessions[client].locks !! locks
    ensures RespectsActivities(s, Commit(s, client, s.sessions[client]), locks)
  {
    var s' := Commit(s, client, s.sessions[client]);
    StatusesAreOfRows(s, client);
    forall a | a in s.activities && OnActivity(a) in locks
      ensures Holders(s'.rows, a) <= Holders(s.rows, a)
    {
      CommitHolders(s, client, a);
    }
  }

  lemma CommitRespects(s: State, client: int, other: int)
    requires Inv(s) && Committable(s, client) && other in s.sessions && other != client
    ensures Respects(s, Commit(s, client, s.sessions[client]), s.sessions[other].locks)
  {
    var t := s.sessions[client];
    var s' := Commit(s, client, t);
    var locks := s.sessions[other].locks;
    assert t.locks !! locks;
    CommitRespectsRows(s, client, locks);
    CommitRespectsActivities(s, client, locks);
    forall p | p in s.passes
      ensures p in s'.passes && s'.passes[p].userId == s.passes[p].userId && s'.passes[p].numOfSessions == s.passes[p].numOfSessions
      ensures s.passes[p].version <= s'.passes[p].version
      ensures OnPass(p) in locks || s.passes[p].version == s'.passes[p].version ==> s'.passes[p] == s.passes[p]
    {
      CommitMovesPasses(s, client, p);
    }
  }

  lemma CommitKeeps(s: State, client: int)
    requires Inv(s) && client in s.sessions && s.sessions[client].phase == Ready
    ensures Inv(Commit(s, client, s.sessions[client]))
  {
    var s' := Commit(s, client, s.sessions[client]);
    CommitTables(s, client);
    forall c | c in s'.sessions
      ensures SessionOk(s', s'.sessions[c])
    {
      CommitRespects(s, client, c);
      FrameSession(s, s', s.sessions[c]);
    }
  }

  // ---------- DELETE ----------

  lemma DeleteRoster(s: State, client: int)
    requires TablesOk(s) && client in s.sessions && s.sessions[client].job.DeleteActivityJob?
    ensures var s' := DeleteRow(s, client, s.sessions[client]);
      CapacityRespected(s') && OneSlotPerDog(s') && RosterSafe(s')
  {
    var s' := DeleteRow(s, client, s.sessions[client]);
    forall a | a in s'.activities
      ensures |Holders(s'.rows, a)| <= s'.activities[a].maxCapacity
    {
      SubsetIsSmaller(Holders(s'.rows, a), Holders(s.rows, a));
    }
    forall r1, r2 | Share(s', r1, r2)
      ensures s'.rows[r1].dogId != s'.rows[r2].dogId
      ensures r1 < r2 && r2 !in s'.byAdmin ==> DogsCompatible(s', r1, r2)
    {
      assert Share(s, r1, r2);
      assert r1 < r2 && r2 !in s.byAdmin ==> DogsCompatible(s, r1, r2);
    }
  }

  lemma DeleteBooks(s: State, client: int)
    requires TablesOk(s) && client in s.sessions && s.sessions[client].job.DeleteActivityJob?
    ensures var s' := DeleteRow(s, client, s.sessions[client]);
      DogsActive(s') && LedgerAgrees(s') && SessionsConserved(s') && RefundsExact(s') && BookingsExact(s') && MovementsWellFormed(s')
  {
    var s' := DeleteRow(s, client, s.sessions[client]);
    assert s'.passes == s.passes && s'.movements == s.movements && s'.ever == s.ever;
    assert LedgerAgrees(s) && SessionsConserved(s) && RefundsExact(s) && BookingsExact(s) && MovementsWellFormed(s);
  }

  lemma DeleteTables(s: State, client: int)
    requires TablesOk(s) && client in s.sessions && s.sessions[client].job.DeleteActivityJob?
    ensures TablesOk(DeleteRow(s, client, s.sessions[client]))
  {
    DeleteRoster(s, client);
    DeleteBooks(s, client);
  }

  lemma DeleteRespects(s: State, client: int, t: Session, locks: set<Lock>)
    requires t.job.DeleteActivityJob? && OnActivity(t.job.activityId) !in locks
    requires forall r :: r in RowsOf(s.rows, t.job.activityId) ==> OnReservation(r) !in locks
    ensures Respects(s, DeleteRow(s, client, t), locks)
  {
    var s' := DeleteRow(s, client, t);
    assert forall a :: a != t.job.activityId ==> Holders(s'.rows, a) <= Holders(s.rows, a);
  }

  lemma DeleteKeeps(s: State, client: int)
    requires Inv(s) && client in s.sessions && s.sessions[client].job.DeleteActivityJob?
    requires s.sessions[client].phase == Deleting && s.sessions[client].todo == []
    ensures Inv(DeleteRow(s, client, s.sessions[client]))
  {
    var t := s.sessions[client];
    var s' := DeleteRow(s, client, t);
    DeleteTables(s, client);
    assert CascadeCovers(s, t) && HasActivity(s, t) by {
      assert SessionOk(s, t);
    }
    forall c | c in s'.sessions
      ensures SessionOk(s', s'.sessions[c])
    {
      var locks := s.sessions[c].locks;
      assert t.locks !! locks;
      DeleteRespects(s, client, t, locks);
      FrameSession(s, s', s.sessions[c]);
    }
  }
}
