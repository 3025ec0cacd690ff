/** What closing and bulk completion amount to, and how they relate to each other and to deletion. */
module BatchLaws {

  import opened Outcomes
  import opened Counting
  import opened Durations
  import opened Reservations
  import opened Activities
  import opened Compatibility
  import opened Store
  import opened BatchClose

  ghost predicate IdsInRange(t: Tables, nextId: nat) {
    forall r :: r in t.rows ==> 0 < r < nextId
  }

  /** Data a batch can work with: the dogs are there, with owners, and a no-show has at least started. */
  ghost predicate Workable(t: Tables, dogs: map<int, Dog>, a: int, noShows: set<int>, now: int)
    requires a in t.activities
  {
    && (forall r :: r in ConfirmedOf(t.rows, a) ==> t.rows[r].dogId in dogs && dogs[t.rows[r].dogId].userId > 0)
    && (forall r :: r in ConfirmedOf(t.rows, a) && r in noShows ==> IsInThePast(t.activities[a], now))
  }

  /** Every CONFIRMED reservation of the activity became NO_SHOW if listed and COMPLETED if not; no other row changed. */
  ghost predicate SettledAs(before: map<int, ReservationRow>, after: map<int, ReservationRow>, a: int, noShows: set<int>) {
    && after.Keys == before.Keys
    && (forall r :: r in before ==>
          var settled := before[r].activityId == a && before[r].status == Confirmed;
          after[r] == if settled then before[r].(status := if r in noShows then NoShow else Completed) else before[r])
  }

  lemma {:induction false} NoShowRefusalMeaning(rows: map<int, ReservationRow>, a: int, noShows: seq<int>)
    ensures NoShowRefusal(rows, a, noShows) == None <==> SetOf(noShows) <= ConfirmedOf(rows, a)
  {
    if noShows == [] {
    } else {
      NoShowRefusalMeaning(rows, a, noShows[1..]);
      assert noShows == [noShows[0]] + noShows[1..];
      assert SetOf(noShows) == {noShows[0]} + SetOf(noShows[1..]);
    }
  }

  ghost predicate FirstBad(rows: map<int, ReservationRow>, a: int, noShows: seq<int>, i: nat) {
    i < |noShows| && noShows[i] !in ConfirmedOf(rows, a) && forall j :: 0 <= j < i ==> noShows[j] in ConfirmedOf(rows, a)
  }

  /** The first id of the list that is not a CONFIRMED reservation of the activity decides the refusal. */
  lemma {:induction false} RefusedByTheFirst(rows: map<int, ReservationRow>, a: int, noShows: seq<int>, i: nat)
    requires FirstBad(rows, a, noShows, i)
    ensures NoShowRefusal(rows, a, noShows)
      == Some(if noShows[i] in rows && rows[noShows[i]].activityId == a then ReservationNotConfirmed else ReservationNotFound)
  {
    if i == 0 {
    } else {
      RefusedByTheFirst(rows, a, noShows[1..], i - 1);
    }
  }

  lemma SettleAscendingSucceeds(t: Tables, dogs: map<int, Dog>, nextId: nat, a: int, noShows: set<int>, now: int)
    requires IdsInRange(t, nextId) && a in t.activities && IsFinished(t.activities[a], now)
    ensures SettleAscending(t, dogs, nextId, a, noShows, now).Success? <==> Workable(t, dogs, a, noShows, now)
  {
    var world, confirmed := World(dogs, t.activities), ConfirmedOf(t.rows, a);
    var ids := Below(confirmed, nextId);
    LoopIsPointwise(world, t.rows, ids, noShows, now);
    assert Distinct(ids);
    forall r | r in confirmed
      ensures CanSettle(world, t.rows, r, noShows, now) <==>
        && t.rows[r].dogId in dogs && dogs[t.rows[r].dogId].userId > 0
        && (r in noShows ==> IsInThePast(t.activities[a], now))
    {}
    assert forall r :: r in ids <==> r in confirmed;
  }

  /**
   * The whole of CloseActivity. It succeeds exactly on a finished, open activity whose no-show list
   * names CONFIRMED reservations of it only, over workable data; then every reservation that was
   * CONFIRMED is NO_SHOW if listed and COMPLETED if not, the activity is closed, and nothing else changes.
   */
  lemma CloseMeaning(t: Tables, dogs: map<int, Dog>, nextId: nat, input: CloseActivityInput)
    requires IdsInRange(t, nextId)
    ensures var a, noShows := input.activityId, SetOf(input.noShows);
      var outcome := CloseOutcome(t, dogs, nextId, input);
      && (outcome.Success? <==>
            && a in t.activities && IsFinished(t.activities[a], input.now) && !t.activities[a].closed
            && noShows <= ConfirmedOf(t.rows, a) && Workable(t, dogs, a, noShows, input.now))
      && (outcome.Success? ==>
            && SettledAs(t.rows, outcome.value.rows, a, noShows)
            && outcome.value == t.(rows := outcome.value.rows, activities := outcome.value.activities)
            && outcome.value.activities == t.activities[a := t.activities[a].(closed := true)])
  {
    var a, noShows := input.activityId, SetOf(input.noShows);
    if a in t.activities && IsFinished(t.activities[a], input.now) {
      NoShowRefusalMeaning(t.rows, a, input.noShows);
      SettleAscendingSucceeds(t, dogs, nextId, a, noShows, input.now);
      if SettleAscending(t, dogs, nextId, a, noShows, input.now).Success? {
        OutcomeKeepsListing(t, dogs, nextId, a, noShows, input.now);
      }
    }
  }

  /** The same for BulkComplete: no pending reservation, everybody COMPLETED, closed before or not. */
  lemma BulkMeaning(t: Tables, dogs: map<int, Dog>, nextId: nat, a: int, now: int)
    requires IdsInRange(t, nextId)
    ensures var outcome := BulkOutcome(t, dogs, nextId, a, now);
      && (outcome.Success? <==>
            a in t.activities && IsFinished(t.activities[a], now) && !AnyPending(t.rows, a) && Workable(t, dogs, a, {}, now))
      && (outcome.Success? ==>
            && SettledAs(t.rows, outcome.value.rows, a, {})
            && outcome.value == t.(rows := outcome.value.rows, activities := outcome.value.activities)
            && outcome.value.activities == t.activities[a := t.activities[a].(closed := true)])
  {
    if a in t.activities && IsFinished(t.activities[a], now) {
      SettleAscendingSucceeds(t, dogs, nextId, a, {}, now);
      if SettleAscending(t, dogs, nextId, a, {}, now).Success? {
        OutcomeKeepsListing(t, dogs, nextId, a, {}, now);
      }
    }
  }

  /** Why closing is refused: the first of these that applies, in this order. */
  lemma CloseRefusals(t: Tables, dogs: map<int, Dog>, nextId: nat, input: CloseActivityInput)
    ensures var a, outcome := input.activityId, CloseOutcome(t, dogs, nextId, input);
      && (outcome == Failure(NotFound) <==> a !in t.activities)
      && (a in t.activities ==>
        && (outcome == Failure(NotFinished) <==> !IsFinished(t.activities[a], input.now))
        && (outcome == Failure(AlreadyClosed) <==> IsFinished(t.activities[a], input.now) && t.activities[a].closed)
        && (IsFinished(t.activities[a], input.now) && !t.activities[a].closed ==>
              forall i: nat :: FirstBad(t.rows, a, input.noShows, i) ==>
                outcome == Failure(if input.noShows[i] in t.rows && t.rows[input.noShows[i]].activityId == a then ReservationNotConfirmed else ReservationNotFound)))
  {
    var a := input.activityId;
    forall i: nat | FirstBad(t.rows, a, input.noShows, i)
      ensures NoShowRefusal(t.rows, a, input.noShows)
        == Some(if input.noShows[i] in t.rows && t.rows[input.noShows[i]].activityId == a then ReservationNotConfirmed else ReservationNotFound)
    {
      RefusedByTheFirst(t.rows, a, input.noShows, i);
    }
    NoShowRefusalKinds(t.rows, a, input.noShows);
  }

  lemma {:induction false} NoShowRefusalKinds(rows: map<int, ReservationRow>, a: int, noShows: seq<int>)
    ensures NoShowRefusal(rows, a, noShows) in {None, Some(ReservationNotConfirmed), Some(ReservationNotFound)}
  {
    if noShows == [] {
    } else {
      NoShowRefusalKinds(rows, a, noShows[1..]);
    }
  }

  /** Why bulk completion is refused, likewise. */
  lemma BulkRefusals(t: Tables, dogs: map<int, Dog>, nextId: nat, a: int, now: int)
    ensures var outcome := BulkOutcome(t, dogs, nextId, a, now);
      && (outcome == Failure(NotFound) <==> a !in t.activities)
      && (a in t.activities ==>
        && (outcome == Failure(NotFinished) <==> !IsFinished(t.activities[a], now))
        && (outcome == Failure(PendingToConfirmExists) <==>
              IsFinished(t.activities[a], now) && exists r :: r in t.rows && t.rows[r].activityId == a && t.rows[r].status == PendingToConfirm))
  {}

  /**
   * No activity is closed, or completed in bulk, while it is running: as long as no more than its
   * duration has passed since it began both jobs answer that it is not finished, and later neither does.
   */
  lemma WhileItRunsNothingCloses(t: Tables, dogs: map<int, Dog>, nextId: nat, input: CloseActivityInput)
    requires input.activityId in t.activities && 0 < t.activities[input.activityId].durationInHours <= MAX_EXACT_HOURS
    ensures var activity := t.activities[input.activityId]; var end := activity.date + activity.durationInHours * HOUR;
      && (CloseOutcome(t, dogs, nextId, input) == Failure(NotFinished) <==> input.now <= end)
      && (BulkOutcome(t, dogs, nextId, input.activityId, input.now) == Failure(NotFinished) <==> input.now <= end)
  {
    FinishedAfterItsDuration(t.activities[input.activityId], input.now);
    CloseRefusals(t, dogs, nextId, input);
    BulkRefusals(t, dogs, nextId, input.activityId, input.now);
  }

  /** When the loop stops it is at the reservation with the least id that could not be settled by itself. */
  lemma StoppedAtTheLeast(t: Tables, dogs: map<int, Dog>, nextId: nat, a: int, noShows: set<int>, now: int)
    requires IdsInRange(t, nextId)
    requires SettleAscending(t, dogs, nextId, a, noShows, now).Failure?
    ensures var world, result := World(dogs, t.activities), SettleAscending(t, dogs, nextId, a, noShows, now);
      && result.error.Stopped?
      && var id := result.error.obstacle.id;
        && id in ConfirmedOf(t.rows, a) && !CanSettle(world, t.rows, id, noShows, now)
        && result.error.obstacle.error == Settle(world, t.rows, id, t.rows[id].dogId, noShows, now).error
        && (forall r :: r in ConfirmedOf(t.rows, a) && r < id ==> CanSettle(world, t.rows, r, noShows, now))
  {
    var world, ids := World(dogs, t.activities), Below(ConfirmedOf(t.rows, a), nextId);
    assert Distinct(ids);
    var i := LoopStopsAtTheFirstObstacle(world, t.rows, ids, noShows, now);
    assert ids[i] in ids;
    forall r | r in ConfirmedOf(t.rows, a) && r < ids[i]
      ensures CanSettle(world, t.rows, r, noShows, now)
    {
      assert r in ids;
      var j :| 0 <= j < |ids| && ids[j] == r;
      assert j < i;
    }
  }

  /** Bulk completion is closing without no-shows, exactly unless a finished activity is closed or has pending reservations. */
  lemma BulkIsCloseWithoutNoShows(t: Tables, dogs: map<int, Dog>, nextId: nat, a: int, now: int)
    ensures BulkOutcome(t, dogs, nextId, a, now) == CloseOutcome(t, dogs, nextId, CloseActivityInput(a, [], now)) <==>
      !(a in t.activities && IsFinished(t.activities[a], now) && (t.activities[a].closed || AnyPending(t.rows, a)))
  {
    assert SetOf<int>([]) == {};
  }

  /** Settling leaves nothing CONFIRMED and the pending reservations as they were. */
  lemma SettledLeaves(before: map<int, ReservationRow>, after: map<int, ReservationRow>, a: int, noShows: set<int>)
    requires SettledAs(before, after, a, noShows)
    ensures ConfirmedOf(after, a) == {}
    ensures AnyPending(after, a) ==> AnyPending(before, a)
  {
    forall r
      ensures r !in ConfirmedOf(after, a)
    {
      assert r in after ==> r in before;
    }
    assert ConfirmedOf(after, a) == {};
    if AnyPending(after, a) {
      var r :| r in RowsOf(after, a) && after[r].status == PendingToConfirm;
      assert r in RowsOf(before, a) && before[r].status == PendingToConfirm;
    }
  }

  lemma {:induction false} BelowNothing(bound: nat)
    ensures Below({}, bound) == []
  {
    if bound == 0 {
    } else {
      BelowNothing(bound - 1);
    }
  }

  lemma NothingToSettle(t: Tables, dogs: map<int, Dog>, nextId: nat, a: int, now: int)
    requires ConfirmedOf(t.rows, a) == {}
    ensures SettleAscending(t, dogs, nextId, a, {}, now) == Success(MarkClosed(t, a))
  {
    BelowNothing(nextId);
  }

  /** A second bulk completion, at the same time or later, finds nothing CONFIRMED and changes nothing. */
  lemma BulkTwice(t: Tables, dogs: map<int, Dog>, nextId: nat, a: int, now: int, later: int)
    requires IdsInRange(t, nextId) && now <= later && BulkOutcome(t, dogs, nextId, a, now).Success?
    ensures var once := BulkOutcome(t, dogs, nextId, a, now).value;
      BulkOutcome(once, dogs, nextId, a, later) == Success(once) && ConfirmedOf(once.rows, a) == {}
  {
    BulkMeaning(t, dogs, nextId, a, now);
    var once := BulkOutcome(t, dogs, nextId, a, now).value;
    SettledLeaves(t.rows, once.rows, a, {});
    NothingToSettle(once, dogs, nextId, a, later);
    assert once.activities[a := once.activities[a].(closed := true)] == once.activities;
  }

  /** After bulk completion nobody holds a slot, so the activity may be deleted. */
  lemma BulkReleasesEverySlot(t: Tables, dogs: map<int, Dog>, nextId: nat, a: int, now: int)
    requires IdsInRange(t, nextId) && BulkOutcome(t, dogs, nextId, a, now).Success?
    ensures Holders(BulkOutcome(t, dogs, nextId, a, now).value.rows, a) == {}
  {
    BulkMeaning(t, dogs, nextId, a, now);
    var rows := BulkOutcome(t, dogs, nextId, a, now).value.rows;
    SettledLeaves(t.rows, rows, a, {});
    forall r
      ensures r !in Holders(rows, a)
    {
      assert r in RowsOf(rows, a) && r !in ConfirmedOf(rows, a) ==> !HoldsSlot(rows[r].status);
    }
    assert Holders(rows, a) == {};
  }

  /** After closing, exactly the pending reservations still hold their slots, and block deletion. */
  lemma CloseLeavesThePending(t: Tables, dogs: map<int, Dog>, nextId: nat, input: CloseActivityInput)
    requires IdsInRange(t, nextId) && CloseOutcome(t, dogs, nextId, input).Success?
    ensures var rows, a := CloseOutcome(t, dogs, nextId, input).value.rows, input.activityId;
      && Holders(rows, a) == (set r | r in RowsOf(t.rows, a) && t.rows[r].status == PendingToConfirm)
      && (Holders(rows, a) == {} <==> !AnyPending(t.rows, a))
  {
    CloseMeaning(t, dogs, nextId, input);
    var rows, a := CloseOutcome(t, dogs, nextId, input).value.rows, input.activityId;
    var pending := set r | r in RowsOf(t.rows, a) && t.rows[r].status == PendingToConfirm;
    forall r
      ensures r in Holders(rows, a) <==> r in pending
    {}
    assert Holders(rows, a) == pending;
    if AnyPending(t.rows, a) {
      var r :| r in RowsOf(t.rows, a) && t.rows[r].status == PendingToConfirm;
      assert r in pending;
    } else {
      forall r
        ensures r !in pending
      {}
      assert pending == {};
    }
  }

  /** Batches are not made of money: closing moves no session, and what was charged stays charged. */
  lemma ClosingIsFree(t: Tables, dogs: map<int, Dog>, nextId: nat, input: CloseActivityInput)
    requires IdsInRange(t, nextId) && CloseOutcome(t, dogs, nextId, input).Success?
    ensures var after := CloseOutcome(t, dogs, nextId, input).value;
      && after.rows.Keys == t.rows.Keys && after.passes == t.passes && after.movements == t.movements
      && (forall r :: r in t.rows ==> (Charged(after.rows[r].status) <==> Charged(t.rows[r].status)))
      && (forall r :: r in t.rows && after.rows[r] != t.rows[r] ==> Arrow(t.rows[r].status, after.rows[r].status))
  {
    CloseMeaning(t, dogs, nextId, input);
  }
}
