/** What holds in every state that any interleaving of any number of clients can reach. */
module EngineTheorems {

  import opened Outcomes
  import opened Reservations
  import opened Passes
  import opened Activities
  import opened Compatibility
  import opened Engine
  import opened EngineInvariant
  import opened EngineLocal
  import opened EngineCommit

  /** Dogs, activities and full passes are in place; nothing has been booked and nobody is in flight. */
  ghost predicate Opening(s: State) {
    && s.sessions == map[] && s.rows == map[] && s.ever == map[] && s.movements == [] && s.reasons == map[]
    && (forall d :: d in s.dogs ==> s.dogs[d].id == d)
    && (forall a :: a in s.activities ==> s.activities[a].maxCapacity > 0)
    && (forall p :: p in s.passes ==> s.passes[p].remaining == s.passes[p].numOfSessions > 0 && s.passes[p].version < s.clock)
  }

  lemma OpeningHolds(s: State)
    requires Opening(s)
    ensures Inv(s)
  {
    assert forall a :: Holders(s.rows, a) == {};
    assert forall p :: ChargedOn(s.ever, p) == {};
    assert forall p, a, d :: BookedOn(s.ever, p, a, d) == {};
    assert forall p :: AmountOn(s.movements, p) == 0;
  }

  lemma StartKeeps(s: State, client: int, job: Job, forUpdate: bool)
    requires Inv(s) && client !in s.sessions
    ensures Inv(Put(s, client, NewSession(job, forUpdate)))
  {
    LocalStep(s, Put(s, client, NewSession(job, forUpdate)), client, NewSession(job, forUpdate));
  }

  lemma AdvanceKeeps(s: State, client: int)
    requires Inv(s) && client in s.sessions
    ensures Inv(Advance(s, client))
  {
    var t := s.sessions[client];
    DropKeeps(s, client);
    match t.phase
    case Begin =>
      if t.job.RegisterJob? {
        LockActivityKeeps(s, client);
      } else if Batch(t.job) {
        ReadActivityKeeps(s, client);
      } else if t.job.PatchPassJob? {
        LoadPassKeeps(s, client);
      } else if t.job.DeleteActivityJob? {
        GuardDeleteKeeps(s, client);
      } else {
        LoadReservationKeeps(s, client);
      }
    case ActivityLocked => AdmitDogKeeps(s, client);
    case Admitted => LoadPassKeeps(s, client);
    case ReservationRead =>
      if Refunding(t.job) {
        LoadPassKeeps(s, client);
      } else {
        WriteReservationKeeps(s, client);
      }
    case PassRead => WritePassKeeps(s, client);
    case PassWritten =>
      if t.job.RegisterJob? {
        InsertReservationKeeps(s, client);
      } else {
        WriteReservationKeeps(s, client);
      }
    case ActivityRead => ListReservationsKeeps(s, client);
    case Listed =>
      if t.todo == [] {
        CloseActivityKeeps(s, client);
      } else {
        ProcessNextKeeps(s, client);
      }
    case Ready => CommitKeeps(s, client);
    case Guarded => BeginDeleteKeeps(s, client);
    case Deleting =>
      if t.todo == [] {
        DeleteKeeps(s, client);
      } else {
        CascadeNextKeeps(s, client);
      }
  }

  lemma StepKeeps(s: State, event: Event)
    requires Inv(s)
    ensures Inv(Step(s, event))
  {
    match event
    case Start(client, job, forUpdate) =>
      if client !in s.sessions {
        StartKeeps(s, client, job, forUpdate);
      }
    case Proceed(client) =>
      if client in s.sessions {
        AdvanceKeeps(s, client);
      }
    case Abort(client) => DropKeeps(s, client);
  }

  lemma {:induction false} RunKeeps(s: State, events: seq<Event>)
    requires Inv(s)
    ensures Inv(Run(s, events))
  {
    if events == [] {
    } else {
      RunKeeps(s, events[..|events| - 1]);
      StepKeeps(Run(s, events[..|events| - 1]), events[|events| - 1]);
    }
  }

  // ---------- Money ----------

  /**
   * Ledger agreement: in every reachable state, whatever was retried, refused, lost or rolled back,
   * the counter of each pass is its size plus the sum of its movement rows, and stays in range.
   */
  lemma LedgerAgreement(s0: State, events: seq<Event>, p: int)
    requires Opening(s0) && p in Run(s0, events).passes
    ensures var s := Run(s0, events);
      && s.passes[p].remaining == s.passes[p].numOfSessions + AmountOn(s.movements, p)
      && 0 <= s.passes[p].remaining <= s.passes[p].numOfSessions
  {
    OpeningHolds(s0);
    RunKeeps(s0, events);
  }

  /**
   * Exactly-once money: each reservation ever committed accounts for exactly one booking of -1 on its
   * own pass, and for one refund of +1 on that pass if it ended CANCELLED_IN_TIME or FORGIVEN and
   * none otherwise; nothing else is ever recorded.
   */
  lemma ExactlyOnceMoney(s0: State, events: seq<Event>)
    requires Opening(s0)
    ensures var s := Run(s0, events);
      && (forall p, a, d :: BookingsOf(s.movements, p, a, d)
            == |set r | r in s.ever && s.ever[r].passId == p && s.ever[r].activityId == a && s.ever[r].dogId == d|)
      && (forall r :: r in s.ever ==>
            RefundsOf(s.movements, r) == if s.ever[r].status == CancelledInTime || s.ever[r].status == Forgiven then 1 else 0)
      && (forall r :: r !in s.ever ==> RefundsOf(s.movements, r) == 0)
      && (forall m :: m in s.movements ==>
            || (m.amount == -1 && m.reason.Booked?)
            || (m.amount == 1 && RefundIn(m).Some? && RefundIn(m).value in s.ever && m.passId == s.ever[RefundIn(m).value].passId))
  {
    OpeningHolds(s0);
    RunKeeps(s0, events);
    var s := Run(s0, events);
    forall p, a, d
      ensures BookingsOf(s.movements, p, a, d)
        == |set r | r in s.ever && s.ever[r].passId == p && s.ever[r].activityId == a && s.ever[r].dogId == d|
    {
      assert BookedOn(s.ever, p, a, d) == set r | r in s.ever && s.ever[r].passId == p && s.ever[r].activityId == a && s.ever[r].dogId == d;
    }
  }

  lemma ChargedSplits(ever: map<int, ReservationRow>, rows: map<int, ReservationRow>, p: int)
    requires forall r :: r in rows ==> r in ever && ever[r] == rows[r]
    ensures |ChargedOn(ever, p)|
      == |ChargedOn(rows, p)| + |set r | r in ever && r !in rows && ever[r].passId == p && Charged(ever[r].status)|
  {
    var gone := set r | r in ever && r !in rows && ever[r].passId == p && Charged(ever[r].status);
    forall r
      ensures r in ChargedOn(ever, p) <==> r in ChargedOn(rows, p) + gone
    {}
    assert ChargedOn(ever, p) == ChargedOn(rows, p) + gone;
    assert ChargedOn(rows, p) !! gone;
  }

  /**
   * Conservation: the sessions consumed on a pass are its reservations still charged (neither
   * CANCELLED_IN_TIME nor FORGIVEN), counting those in the table and those a deleted activity took
   * with it. So a pass with a charged reservation always has something to refund.
   */
  lemma ConsumedIsCharged(s0: State, events: seq<Event>, p: int)
    requires Opening(s0) && p in Run(s0, events).passes
    ensures var s := Run(s0, events);
      && s.passes[p].numOfSessions - s.passes[p].remaining
         == |ChargedOn(s.rows, p)| + |set r | r in s.ever && r !in s.rows && s.ever[r].passId == p && Charged(s.ever[r].status)|
      && (forall r :: r in s.ever && s.ever[r].passId == p && Charged(s.ever[r].status) ==> CanRefund(s.passes[p]))
  {
    OpeningHolds(s0);
    RunKeeps(s0, events);
    var s := Run(s0, events);
    ChargedSplits(s.ever, s.rows, p);
    assert SessionsConserved(s);
    forall r | r in s.ever && s.ever[r].passId == p && Charged(s.ever[r].status)
      ensures CanRefund(s.passes[p])
    {
      assert r in ChargedOn(s.ever, p);
    }
  }

  /**
   * The "nothing to refund" branch of Cancel, Reject and Forgive is never committed: a client about to
   * commit CANCELLED_IN_TIME or FORGIVEN carries exactly one refund, of that reservation and to its pass.
   */
  lemma RefundsAreNeverSkipped(s0: State, events: seq<Event>, client: int)
    requires Opening(s0) && client in Run(s0, events).sessions
    requires var t := Run(s0, events).sessions[client]; t.phase == Ready && Refunding(t.job)
    ensures var t := Run(s0, events).sessions[client];
      && t.seen.Some?
      && if t.target == CancelledLate then t.work.movements == [] && t.work.pass.None?
         else
           && |t.work.movements| == 1 && t.work.movements[0].amount == 1
           && RefundIn(t.work.movements[0]) == Some(ReservationIdOf(t.job))
           && t.work.movements[0].passId == t.seen.value.passId
  {
    OpeningHolds(s0);
    RunKeeps(s0, events);
    var s := Run(s0, events);
    assert SessionOk(s, s.sessions[client]);
    if s.sessions[client].work.pass.Some? {
      EditMovements(s, s.sessions[client]);
    }
  }

  // ---------- Places ----------

  lemma HoldersSpelledOut(rows: map<int, ReservationRow>, a: int)
    ensures Holders(rows, a)
      == set r | r in rows && rows[r].activityId == a && (rows[r].status == Confirmed || rows[r].status == PendingToConfirm)
  {
    var spelled := set r | r in rows && rows[r].activityId == a && (rows[r].status == Confirmed || rows[r].status == PendingToConfirm);
    forall r
      ensures r in Holders(rows, a) <==> r in spelled
    {}
    assert Holders(rows, a) == spelled;
  }

  /** Capacity: slots held never exceed an activity's capacity, and no dog holds two of them. */
  lemma CapacityNeverExceeded(s0: State, events: seq<Event>, a: int)
    requires Opening(s0) && a in Run(s0, events).activities
    ensures var s := Run(s0, events);
      && |set r | r in s.rows && s.rows[r].activityId == a && (s.rows[r].status == Confirmed || s.rows[r].status == PendingToConfirm)|
         == |Holders(s.rows, a)| <= s.activities[a].maxCapacity
      && (forall r1, r2 :: r1 in Holders(s.rows, a) && r2 in Holders(s.rows, a) && r1 != r2 ==> s.rows[r1].dogId != s.rows[r2].dogId)
  {
    OpeningHolds(s0);
    RunKeeps(s0, events);
    var s := Run(s0, events);
    HoldersSpelledOut(s.rows, a);
    forall r1, r2 | r1 in Holders(s.rows, a) && r2 in Holders(s.rows, a) && r1 != r2
      ensures s.rows[r1].dogId != s.rows[r2].dogId
    {
      assert Share(s, r1, r2);
    }
  }

  /**
   * Roster safety: checking a newcomer against the current holders only is enough. A holder that was not
   * booked by override fits all holders booked before it, by override or not: of the two at most one is
   * an intact male, and no ABSOLUTA trigger of one fires on the other, in either direction. Everybody not
   * booked by override fits the activity's size, and an individual class never has two holders.
   */
  lemma RosterIsSafe(s0: State, events: seq<Event>, a: int, r1: int, r2: int)
    requires Opening(s0)
    requires var s := Run(s0, events);
      a in s.activities && r1 in Holders(s.rows, a) && r2 in Holders(s.rows, a) && r1 < r2 && r2 !in s.byAdmin
    ensures var s := Run(s0, events);
      && s.rows[r1].dogId in s.dogs && s.rows[r2].dogId in s.dogs
      && var d1, d2 := s.dogs[s.rows[r1].dogId], s.dogs[s.rows[r2].dogId];
        && !(d1.sex == Male && !d1.neutered && d2.sex == Male && !d2.neutered)
        && !TriggersAt({Absoluta}, d1, d2) && !TriggersAt({Absoluta}, d2, d1)
        && IsTargetedAtSize(s.activities[a], SizeOf(d2)) && (r1 !in s.byAdmin ==> IsTargetedAtSize(s.activities[a], SizeOf(d1)))
        && s.activities[a].kind != Individual
  {
    OpeningHolds(s0);
    RunKeeps(s0, events);
    var s := Run(s0, events);
    var d1, d2 := s.dogs[s.rows[r1].dogId], s.dogs[s.rows[r2].dogId];
    assert Share(s, r1, r2);
    assert d1.id != d2.id;
    assert DogsCompatible(s, r1, r2);
    CompatibleIsSymmetric(d1, d2);
    SexRule(d1, d2);
  }

  /** Nobody pays for somebody else's dog, with or without an administrator's override. */
  lemma DogAndPassShareTheirOwner(s0: State, events: seq<Event>, r: int)
    requires Opening(s0) && r in Run(s0, events).ever
    ensures var s := Run(s0, events);
      && s.ever[r].dogId in s.dogs && s.ever[r].passId in s.passes
      && s.dogs[s.ever[r].dogId].userId == s.passes[s.ever[r].passId].userId
  {
    OpeningHolds(s0);
    RunKeeps(s0, events);
  }
}
