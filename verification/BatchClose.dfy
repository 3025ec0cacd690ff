/**
 * Closing an activity and completing its reservations in one transaction
 * (internal/usecase/activity/close_activity.go and bulk_complete_reservations.go).
 */
module BatchClose {

  import opened Outcomes
  import opened Counting
  import opened Reservations
  import opened Activities
  import opened Compatibility
  import opened Store

  // ---------- The validated input ----------

  datatype CloseActivityInput = CloseActivityInput(activityId: int, noShows: seq<int>, now: int)

  datatype ValidationError = BadActivityId | BadReservationId(index: nat)

  /** Where x occurs first. */
  ghost function Position(ids: seq<int>, x: int): (p: nat)
    requires x in ids
    ensures p < |ids| && ids[p] == x
    ensures x !in ids[..p]
  {
    if ids[0] == x then 0 else
      var p := 1 + Position(ids[1..], x);
      assert ids[..p] == [ids[0]] + ids[1..][..p - 1];
      p
  }

  /** The members of ids, each once, in the order of their first occurrences. */
  ghost predicate FirstOccurrences(ids: seq<int>, list: seq<int>) {
    && (forall x :: x in list <==> x in ids)
    && (forall i, j :: 0 <= i < j < |list| ==> Position(ids, list[i]) < Position(ids, list[j]))
  }

  /** FirstOccurrences leaves no choice. */
  lemma FirstOccurrencesAreUnique(ids: seq<int>, a: seq<int>, b: seq<int>)
    requires FirstOccurrences(ids, a) && FirstOccurrences(ids, b)
    ensures a == b
  {
    assert forall i :: 0 <= i < |a| ==> a[i] in a;
    assert forall i :: 0 <= i < |b| ==> b[i] in b;
    var pa := seq(|a|, i requires 0 <= i < |a| => Position(ids, a[i]));
    var pb := seq(|b|, i requires 0 <= i < |b| => Position(ids, b[i]));
    assert forall i :: 0 <= i < |a| ==> pa[i] == Position(ids, a[i]);
    assert forall i :: 0 <= i < |b| ==> pb[i] == Position(ids, b[i]);
    forall p
      ensures p in pa <==> p in pb
    {
      if p in pa {
        var i :| 0 <= i < |pa| && pa[i] == p;
        assert a[i] in b;
        var j :| 0 <= j < |b| && b[j] == a[i];
        assert pb[j] == p;
      }
      if p in pb {
        var i :| 0 <= i < |pb| && pb[i] == p;
        assert b[i] in a;
        var j :| 0 <= j < |a| && a[j] == b[i];
        assert pa[j] == p;
      }
    }
    AscendingIsUnique(pa, pb);
    forall i | 0 <= i < |a|
      ensures a[i] == b[i]
    {
      assert ids[pa[i]] == a[i] && ids[pb[i]] == b[i];
    }
  }

  /** Refuses the first bad id, and otherwise keeps each id once, in order of first occurrence. */
  method NewCloseActivityInput(activityId: int, ids: seq<int>, now: int) returns (result: Result<CloseActivityInput, ValidationError>)
    ensures result == Failure(BadActivityId) <==> activityId <= 0
    ensures forall i: nat :: result == Failure(BadReservationId(i)) <==>
      activityId > 0 && i < |ids| && ids[i] <= 0 && (forall j :: 0 <= j < i ==> ids[j] > 0)
    ensures result.Success? <==> activityId > 0 && (forall i :: 0 <= i < |ids| ==> ids[i] > 0)
    ensures result.Success? ==>
      && result.value == CloseActivityInput(activityId, result.value.noShows, now)
      && FirstOccurrences(ids, result.value.noShows)
  {
    if activityId <= 0 {
      return Failure(BadActivityId);
    }
    for i := 0 to |ids|
      invariant forall j :: 0 <= j < i ==> ids[j] > 0
    {
      if ids[i] <= 0 {
        return Failure(BadReservationId(i));
      }
    }
    var seen: set<int> := {};
    var deduped: seq<int> := [];
    for i := 0 to |ids|
      invariant forall x :: x in seen <==> x in ids[..i]
      invariant forall x :: x in deduped <==> x in ids[..i]
      invariant forall x :: x in deduped ==> x in ids && Position(ids, x) < i
      invariant forall j, k :: 0 <= j < k < |deduped| ==> deduped[j] in ids && deduped[k] in ids && Position(ids, deduped[j]) < Position(ids, deduped[k])
    {
      assert ids[..i + 1] == ids[..i] + [ids[i]];
      assert forall j :: 0 <= j < |deduped| ==> deduped[j] in deduped;
      if ids[i] !in seen {
        assert Position(ids, ids[i]) == i;
        seen := seen + {ids[i]};
        deduped := deduped + [ids[i]];
      }
    }
    assert ids[..|ids|] == ids;
    return Success(CloseActivityInput(activityId, deduped, now));
  }

  ghost predicate Distinct(ids: seq<int>) {
    forall i, j :: 0 <= i < j < |ids| ==> ids[i] != ids[j]
  }

  lemma AscendingConcat(low: seq<int>, high: seq<int>)
    requires Ascending(low) && Ascending(high)
    requires |low| > 0 && |high| > 0 ==> low[|low| - 1] < high[0]
    ensures Ascending(low + high)
  {
    forall i, j | 0 <= i < j < |low + high|
      ensures (low + high)[i] < (low + high)[j]
    {
      if i < |low| <= j {
        assert low[i] <= low[|low| - 1] && high[0] <= high[j - |low|];
      }
    }
  }

  /** One step of an insertion sort. */
  method InsertAscending(sorted: seq<int>, id: int) returns (extended: seq<int>)
    requires Ascending(sorted) && id !in sorted
    ensures Ascending(extended) && |extended| == |sorted| + 1
    ensures forall x :: x in extended <==> x in sorted || x == id
  {
    var k := |sorted|;
    while k > 0 && sorted[k - 1] > id
      invariant 0 <= k <= |sorted|
      invariant k < |sorted| ==> id < sorted[k]
    {
      k := k - 1;
    }
    assert k > 0 ==> sorted[k - 1] in sorted;
    var low, high := sorted[..k], sorted[k..];
    AscendingConcat(low, [id]);
    AscendingConcat(low + [id], high);
    assert sorted == low + high;
    extended := low + [id] + high;
  }

  /** Ids in ascending order, as sort.Slice leaves them. */
  method SortById(ids: seq<int>) returns (sorted: seq<int>)
    requires Distinct(ids)
    ensures Ascending(sorted) && |sorted| == |ids|
    ensures forall x :: x in sorted <==> x in ids
  {
    sorted := [];
    for i := 0 to |ids|
      invariant Ascending(sorted) && |sorted| == i
      invariant forall x :: x in sorted <==> x in ids[..i]
    {
      assert ids[i] !in ids[..i];
      assert ids[..i + 1] == ids[..i] + [ids[i]];
      sorted := InsertAscending(sorted, ids[i]);
    }
    assert ids[..|ids|] == ids;
  }

  // ---------- One reservation ----------

  datatype ItemError =
    | DogMissing
    | InvalidInput
    | InvalidReservation
    | InvalidActivity
    | ActivityNotFinished
    | ActivityNotStarted
    | InvalidDog
    | NotCompletable
    | NotCancellable

  datatype Obstacle = Obstacle(id: int, error: ItemError)

  datatype World = World(dogs: map<int, Dog>, activities: map<int, ActivityRow>)

  /** The status CompleteReservation or MarkReservationNoShow gives a row on behalf of a user, or its refusal. */
  function Verdict(world: World, row: ReservationRow, userId: int, noShow: bool, now: int): Result<Status, ItemError> {
    if row.activityId !in world.activities then Failure(InvalidActivity)
    else if noShow && !IsInThePast(world.activities[row.activityId], now) then Failure(ActivityNotStarted)
    else if !noShow && !IsFinished(world.activities[row.activityId], now) then Failure(ActivityNotFinished)
    else if row.dogId !in world.dogs || world.dogs[row.dogId].userId != userId then Failure(InvalidDog)
    else
      var next := Apply(row.status, if noShow then MarkingNoShow else Completing);
      if next.Success? then Success(next.value)
      else Failure(if noShow then NotCancellable else NotCompletable)
  }

  function UseCase(world: World, rows: map<int, ReservationRow>, userId: int, id: int, noShow: bool, now: int)
    : Result<map<int, ReservationRow>, ItemError>
  {
    if userId <= 0 || id <= 0 then Failure(InvalidInput)
    else if id !in rows then Failure(InvalidReservation)
    else
      var verdict := Verdict(world, rows[id], userId, noShow, now);
      if verdict.Failure? then Failure(verdict.error)
      else Success(rows[id := rows[id].(status := verdict.value)])
  }

  /** What the batch makes of one reservation, acting as the dog's owner. */
  function Settle(world: World, rows: map<int, ReservationRow>, id: int, dogId: int, noShows: set<int>, now: int)
    : Result<map<int, ReservationRow>, ItemError>
  {
    if dogId !in world.dogs then Failure(DogMissing)
    else UseCase(world, rows, world.dogs[dogId].userId, id, id in noShows, now)
  }

  /** One after the other; `listed` is what the rows were when they were listed. */
  function SettleAll(world: World, rows: map<int, ReservationRow>, listed: map<int, ReservationRow>, ids: seq<int>,
                     noShows: set<int>, now: int)
    : Result<map<int, ReservationRow>, Obstacle>
    requires forall id :: id in ids ==> id in listed
  {
    if ids == [] then Success(rows)
    else
      var id := ids[|ids| - 1];
      var before := SettleAll(world, rows, listed, ids[..|ids| - 1], noShows, now);
      if before.Failure? then before
      else
        var result := Settle(world, before.value, id, listed[id].dogId, noShows, now);
        if result.Success? then Success(result.value) else Failure(Obstacle(id, result.error))
  }

  /** The rows with every given reservation settled at once. */
  function Settled(rows: map<int, ReservationRow>, ids: set<int>, noShows: set<int>): map<int, ReservationRow> {
    map r | r in rows :: if r in ids then rows[r].(status := if r in noShows then NoShow else Completed) else rows[r]
  }

  /** Whether a reservation can be settled, whatever happens to the others. */
  predicate CanSettle(world: World, rows: map<int, ReservationRow>, id: int, noShows: set<int>, now: int)
    requires id in rows
  {
    Settle(world, rows, id, rows[id].dogId, noShows, now).Success?
  }

  /** Settling one reservation looks at its own row only, and writes its own row only. */
  lemma SettleIsLocal(world: World, rows: map<int, ReservationRow>, other: map<int, ReservationRow>, id: int, noShows: set<int>, now: int)
    requires id in rows && id in other && other[id] == rows[id]
    ensures var result := Settle(world, other, id, rows[id].dogId, noShows, now);
      && (result.Success? <==> CanSettle(world, rows, id, noShows, now))
      && (result.Success? ==> result.value == Settled(other, {id}, noShows))
  {}

  lemma SettledStaysSettled(world: World, rows: map<int, ReservationRow>, id: int, dogId: int, noShows: set<int>, now: int)
    requires id in rows && rows[id].status != Confirmed
    ensures Settle(world, rows, id, dogId, noShows, now).Failure?
  {}

  lemma SettledTwice(rows: map<int, ReservationRow>, ids: set<int>, more: set<int>, noShows: set<int>)
    ensures Settled(Settled(rows, ids, noShows), more, noShows) == Settled(rows, ids + more, noShows)
    ensures Settled(rows, {}, noShows) == rows
  {}

  lemma DistinctGrows(ids: seq<int>, id: int)
    ensures Distinct(ids + [id]) <==> Distinct(ids) && id !in ids
    ensures SetOf(ids + [id]) == SetOf(ids) + {id}
  {
    var all := ids + [id];
    if Distinct(all) {
      forall i, j | 0 <= i < j < |ids|
        ensures ids[i] != ids[j]
      {
        assert all[i] == ids[i] && all[j] == ids[j];
      }
      forall i | 0 <= i < |ids|
        ensures ids[i] != id
      {
        assert all[i] != all[|ids|];
      }
    }
    if Distinct(ids) && id !in ids {
      forall i, j | 0 <= i < j < |all|
        ensures all[i] != all[j]
      {
        assert all[i] == ids[i] && (j < |ids| ==> all[j] == ids[j]);
      }
    }
  }

  /**
   * The loop is pointwise: it succeeds exactly when no id repeats and every reservation could be
   * settled by itself, and then settles all of them.
   */
  lemma {:induction false} LoopIsPointwise(world: World, rows: map<int, ReservationRow>, ids: seq<int>, noShows: set<int>, now: int)
    requires forall id :: id in ids ==> id in rows
    ensures var result := SettleAll(world, rows, rows, ids, noShows, now);
      && (result.Success? <==> Distinct(ids) && forall id :: id in ids ==> CanSettle(world, rows, id, noShows, now))
      && (result.Success? ==> result.value == Settled(rows, SetOf(ids), noShows))
  {
    if ids == [] {
      SettledTwice(rows, {}, {}, noShows);
    } else {
      var init, id := ids[..|ids| - 1], ids[|ids| - 1];
      assert ids == init + [id];
      LoopIsPointwise(world, rows, init, noShows, now);
      DistinctGrows(init, id);
      var before := SettleAll(world, rows, rows, init, noShows, now);
      if before.Success? {
        if id in init {
          SettledStaysSettled(world, before.value, id, rows[id].dogId, noShows, now);
        } else {
          SettleIsLocal(world, rows, before.value, id, noShows, now);
          SettledTwice(rows, SetOf(init), {id}, noShows);
        }
      }
    }
  }

  /** Processing order matters neither for success nor for the outcome; sorting only fixes the order of locks. */
  lemma OrderDoesNotMatter(world: World, rows: map<int, ReservationRow>, ids: seq<int>, permuted: seq<int>, noShows: set<int>, now: int)
    requires forall id :: id in ids ==> id in rows
    requires multiset(ids) == multiset(permuted)
    ensures forall id :: id in permuted ==> id in rows
    ensures var a, b := SettleAll(world, rows, rows, ids, noShows, now), SettleAll(world, rows, rows, permuted, noShows, now);
      && (a.Success? <==> b.Success?)
      && (a.Success? ==> a.value == b.value)
  {
    forall id
      ensures id in ids <==> id in permuted
    {
      assert id in ids <==> id in multiset(ids);
      assert id in permuted <==> id in multiset(permuted);
    }
    LoopIsPointwise(world, rows, ids, noShows, now);
    LoopIsPointwise(world, rows, permuted, noShows, now);
    DistinctIsMultiplicityOne(ids);
    DistinctIsMultiplicityOne(permuted);
    assert SetOf(ids) == SetOf(permuted);
  }

  lemma {:induction false} DistinctIsMultiplicityOne(ids: seq<int>)
    ensures Distinct(ids) <==> forall id :: multiset(ids)[id] <= 1
  {
    if ids == [] {
    } else {
      var init, id := ids[..|ids| - 1], ids[|ids| - 1];
      DistinctIsMultiplicityOne(init);
      assert ids == init + [id];
      assert multiset(ids) == multiset(init) + multiset{id};
      assert id in init <==> multiset(init)[id] > 0;
      if id in init {
        var i :| 0 <= i < |init| && init[i] == id;
        assert ids[i] == ids[|ids| - 1];
        assert multiset(ids)[id] > 1;
      } else {
        assert Distinct(ids) <==> Distinct(init);
        if forall x :: multiset(ids)[x] <= 1 {
          forall x
            ensures multiset(init)[x] <= 1
          {
            assert multiset(ids)[x] <= 1;
          }
        }
      }
    }
  }

  /** A loop over distinct ids stops at the first that cannot be settled by itself, and says why. */
  lemma {:induction false} LoopStopsAtTheFirstObstacle(world: World, rows: map<int, ReservationRow>, ids: seq<int>, noShows: set<int>, now: int)
    returns (i: nat)
    requires (forall id :: id in ids ==> id in rows) && Distinct(ids)
    requires SettleAll(world, rows, rows, ids, noShows, now).Failure?
    ensures i < |ids| && !CanSettle(world, rows, ids[i], noShows, now)
    ensures forall j :: 0 <= j < i ==> CanSettle(world, rows, ids[j], noShows, now)
    ensures SettleAll(world, rows, rows, ids, noShows, now).error
      == Obstacle(ids[i], Settle(world, rows, ids[i], rows[ids[i]].dogId, noShows, now).error)
  {
    var init, id := ids[..|ids| - 1], ids[|ids| - 1];
    assert ids == init + [id];
    DistinctGrows(init, id);
    var before := SettleAll(world, rows, rows, init, noShows, now);
    if before.Failure? {
      i := LoopStopsAtTheFirstObstacle(world, rows, init, noShows, now);
    } else {
      LoopIsPointwise(world, rows, init, noShows, now);
      SettleIsLocal(world, rows, before.value, id, noShows, now);
      i := |init|;
    }
  }

  // ---------- The two jobs, as functions of the tables ----------

  datatype CloseError =
    | NotFound
    | NotFinished
    | AlreadyClosed
    | ReservationNotConfirmed
    | ReservationNotFound
    | PendingToConfirmExists
    | Stopped(obstacle: Obstacle)
    | DatabaseFailed

  /** The first id of the no-show list that is not a CONFIRMED reservation of the activity decides. */
  function NoShowRefusal(rows: map<int, ReservationRow>, activityId: int, noShows: seq<int>): Option<CloseError> {
    if noShows == [] then None
    else if noShows[0] in ConfirmedOf(rows, activityId) then NoShowRefusal(rows, activityId, noShows[1..])
    else Some(if noShows[0] in RowsOf(rows, activityId) then ReservationNotConfirmed else ReservationNotFound)
  }

  function ClosePolicy(t: Tables, input: CloseActivityInput): Option<CloseError> {
    var a := input.activityId;
    if a !in t.activities then Some(NotFound)
    else if !IsFinished(t.activities[a], input.now) then Some(NotFinished)
    else if t.activities[a].closed then Some(AlreadyClosed)
    else NoShowRefusal(t.rows, a, input.noShows)
  }

  ghost predicate AnyPending(rows: map<int, ReservationRow>, activityId: int) {
    exists r :: r in RowsOf(rows, activityId) && rows[r].status == PendingToConfirm
  }

  ghost function BulkPolicy(t: Tables, a: int, now: int): Option<CloseError> {
    if a !in t.activities then Some(NotFound)
    else if !IsFinished(t.activities[a], now) then Some(NotFinished)
    else if AnyPending(t.rows, a) then Some(PendingToConfirmExists)
    else None
  }

  function MarkClosed(t: Tables, a: int): Tables {
    if a in t.activities then t.(activities := t.activities[a := t.activities[a].(closed := true)]) else t
  }

  ghost function SettleAscending(t: Tables, dogs: map<int, Dog>, nextId: nat, a: int, noShows: set<int>, now: int): Result<Tables, CloseError> {
    var result := SettleAll(World(dogs, t.activities), t.rows, t.rows, Below(ConfirmedOf(t.rows, a), nextId), noShows, now);
    if result.Failure? then Failure(Stopped(result.error)) else Success(MarkClosed(t.(rows := result.value), a))
  }

  ghost function CloseOutcome(t: Tables, dogs: map<int, Dog>, nextId: nat, input: CloseActivityInput): Result<Tables, CloseError> {
    var refusal := ClosePolicy(t, input);
    if refusal.Some? then Failure(refusal.value)
    else SettleAscending(t, dogs, nextId, input.activityId, SetOf(input.noShows), input.now)
  }

  ghost function BulkOutcome(t: Tables, dogs: map<int, Dog>, nextId: nat, a: int, now: int): Result<Tables, CloseError> {
    var refusal := BulkPolicy(t, a, now);
    if refusal.Some? then Failure(refusal.value) else SettleAscending(t, dogs, nextId, a, {}, now)
  }

  // ---------- The two jobs, statement by statement ----------

  /** The database statement that fails, if any: one for a reservation, the activity's UPDATE, or COMMIT. */
  datatype Fault = NoFault | AtReservation(index: nat) | AtActivity | AtCommit

  method CompleteReservation(db: Database, userId: int, id: int, now: int) returns (result: Result<(), ItemError>)
    modifies db`reservations
    ensures var spec := UseCase(World(db.dogs, db.activities), old(db.reservations), userId, id, false, now);
      if spec.Success? then result == Success(()) && db.reservations == spec.value
      else result == Failure(spec.error) && db.reservations == old(db.reservations)
    ensures result == Failure(InvalidInput) <==> userId <= 0 || id <= 0
    ensures result == Failure(InvalidReservation) <==> userId > 0 && id > 0 && id !in old(db.reservations)
    ensures userId > 0 && id > 0 && id in old(db.reservations) ==>
      var row := old(db.reservations)[id];
      && (result == Failure(InvalidActivity) <==> row.activityId !in db.activities)
      && (row.activityId in db.activities ==>
        && (result == Failure(ActivityNotFinished) <==> !(IsFinished(db.activities[row.activityId], now)))
        && (IsFinished(db.activities[row.activityId], now) ==>
          && (result == Failure(InvalidDog) <==> row.dogId !in db.dogs || db.dogs[row.dogId].userId != userId)
          && (row.dogId in db.dogs && db.dogs[row.dogId].userId == userId ==>
            && (result == Failure(NotCompletable) <==> row.status != Confirmed)
            && (result == Success(()) <==> row.status == Confirmed))))
    ensures result.Success? ==> id in old(db.reservations) && db.reservations == old(db.reservations)[id := old(db.reservations)[id].(status := Completed)]
    ensures result.Failure? ==> db.reservations == old(db.reservations)
  {
    if userId <= 0 || id <= 0 {
      return Failure(InvalidInput);
    }
    if id !in db.reservations {
      return Failure(InvalidReservation);
    }
    var reservation := new Reservation(id, db.reservations[id]);
    if reservation.activityId !in db.activities {
      return Failure(InvalidActivity);
    }
    if !IsFinished(db.activities[reservation.activityId], now) {
      return Failure(ActivityNotFinished);
    }
    if reservation.dogId !in db.dogs || db.dogs[reservation.dogId].userId != userId {
      return Failure(InvalidDog);
    }
    var original := reservation.status;
    var completed := reservation.Complete();
    if completed.Failure? {
      return Failure(NotCompletable);
    }
    var updated := db.UpdateReservation(reservation, original);
    assert updated.Success?;
    return Success(());
  }

  method MarkReservationNoShow(db: Database, userId: int, id: int, now: int) returns (result: Result<(), ItemError>)
    modifies db`reservations
    ensures var spec := UseCase(World(db.dogs, db.activities), old(db.reservations), userId, id, true, now);
      if spec.Success? then result == Success(()) && db.reservations == spec.value
      else result == Failure(spec.error) && db.reservations == old(db.reservations)
    ensures result == Failure(InvalidInput) <==> userId <= 0 || id <= 0
    ensures result == Failure(InvalidReservation) <==> userId > 0 && id > 0 && id !in old(db.reservations)
    ensures userId > 0 && id > 0 && id in old(db.reservations) ==>
      var row := old(db.reservations)[id];
      && (result == Failure(InvalidActivity) <==> row.activityId !in db.activities)
      && (row.activityId in db.activities ==>
        && (result == Failure(ActivityNotStarted) <==> !(now > db.activities[row.activityId].date))
        && (now > db.activities[row.activityId].date ==>
          && (result == Failure(InvalidDog) <==> row.dogId !in db.dogs || db.dogs[row.dogId].userId != userId)
          && (row.dogId in db.dogs && db.dogs[row.dogId].userId == userId ==>
            && (result == Failure(NotCancellable) <==> row.status != Confirmed)
            && (result == Success(()) <==> row.status == Confirmed))))
    ensures result.Success? ==> id in old(db.reservations) && db.reservations == old(db.reservations)[id := old(db.reservations)[id].(status := NoShow)]
    ensures result.Failure? ==> db.reservations == old(db.reservations)
  {
    if userId <= 0 || id <= 0 {
      return Failure(InvalidInput);
    }
    if id !in db.reservations {
      return Failure(InvalidReservation);
    }
    var reservation := new Reservation(id, db.reservations[id]);
    if reservation.activityId !in db.activities {
      return Failure(InvalidActivity);
    }
    if !IsInThePast(db.activities[reservation.activityId], now) {
      return Failure(ActivityNotStarted);
    }
    if reservation.dogId !in db.dogs || db.dogs[reservation.dogId].userId != userId {
      return Failure(InvalidDog);
    }
    var original := reservation.status;
    var marked := reservation.MarkNoShow();
    if marked.Failure? {
      return Failure(NotCancellable);
    }
    var updated := db.UpdateReservation(reservation, original);
    assert updated.Success?;
    return Success(());
  }

  /** The shared loop; it neither commits nor rolls back. */
  method ProcessConfirmed(db: Database, listed: map<int, ReservationRow>, confirmed: seq<int>, noShows: set<int>, now: int, failing: Option<nat>)
    returns (result: Result<(), CloseError>)
    requires forall id :: id in confirmed ==> id in listed
    modifies db`reservations
    ensures var spec := SettleAll(World(db.dogs, db.activities), old(db.reservations), listed, confirmed, noShows, now);
      && (result.Success? ==> spec.Success? && db.reservations == spec.value)
      && (failing.None? ==> result == if spec.Success? then Success(()) else Failure(Stopped(spec.error)))
      && (failing.Some? && failing.value < |confirmed| ==> result.Failure?)
  {
    ghost var world := World(db.dogs, db.activities);
    for i := 0 to |confirmed|
      invariant SettleAll(world, old(db.reservations), listed, confirmed[..i], noShows, now) == Success(db.reservations)
      invariant failing.Some? ==> i <= failing.value
    {
      var id := confirmed[i];
      assert id in confirmed;
      assert confirmed[..i + 1][..i] == confirmed[..i];
      ghost var step := SettleAll(world, old(db.reservations), listed, confirmed[..i + 1], noShows, now);
      if step.Failure? {
        FailureSticks(world, old(db.reservations), listed, confirmed, i + 1, noShows, now);
      }
      if failing == Some(i) {
        return Failure(DatabaseFailed);
      }
      var dogId := listed[id].dogId;
      if dogId !in db.dogs {
        return Failure(Stopped(Obstacle(id, DogMissing)));
      }
      var outcome;
      if id in noShows {
        outcome := MarkReservationNoShow(db, db.dogs[dogId].userId, id, now);
      } else {
        outcome := CompleteReservation(db, db.dogs[dogId].userId, id, now);
      }
      if outcome.Failure? {
        return Failure(Stopped(Obstacle(id, outcome.error)));
      }
    }
    assert confirmed[..|confirmed|] == confirmed;
    return Success(());
  }

  lemma {:induction false} FailureSticks(world: World, rows: map<int, ReservationRow>, listed: map<int, ReservationRow>, ids: seq<int>, n: nat, noShows: set<int>, now: int)
    requires (forall id :: id in ids ==> id in listed) && n <= |ids|
    requires SettleAll(world, rows, listed, ids[..n], noShows, now).Failure?
    ensures SettleAll(world, rows, listed, ids, noShows, now) == SettleAll(world, rows, listed, ids[..n], noShows, now)
  {
    if n == |ids| {
      assert ids[..n] == ids;
    } else {
      var init := ids[..|ids| - 1];
      assert init[..n] == ids[..n];
      FailureSticks(world, rows, listed, init, n, noShows, now);
    }
  }

  /** The CONFIRMED reservations among those listed, and how many are PENDING_TO_CONFIRM. */
  method Partition(rows: map<int, ReservationRow>, all: seq<int>, activityId: int) returns (confirmed: seq<int>, pendingCount: nat)
    requires Distinct(all) && forall r :: r in all <==> r in RowsOf(rows, activityId)
    ensures Distinct(confirmed) && forall r :: r in confirmed <==> r in ConfirmedOf(rows, activityId)
    ensures pendingCount > 0 <==> AnyPending(rows, activityId)
    ensures |confirmed| == |ConfirmedOf(rows, activityId)|
  {
    confirmed, pendingCount := [], 0;
    for i := 0 to |all|
      invariant Distinct(confirmed)
      invariant forall r :: r in confirmed <==> r in all[..i] && r in ConfirmedOf(rows, activityId)
      invariant pendingCount > 0 <==> exists r :: r in all[..i] && r in rows && rows[r].status == PendingToConfirm
    {
      var id := all[i];
      assert id in all && id !in all[..i];
      assert all[..i + 1] == all[..i] + [id];
      DistinctGrows(confirmed, id);
      match rows[id].status
      case Confirmed => confirmed := confirmed + [id];
      case PendingToConfirm => pendingCount := pendingCount + 1;
      case _ =>
    }
    assert all[..|all|] == all;
    assert forall r :: r in all <==> r in RowsOf(rows, activityId);
    DistinctCount(confirmed, ConfirmedOf(rows, activityId));
  }

  lemma {:induction false} DistinctCount(list: seq<int>, members: set<int>)
    requires Distinct(list) && forall x :: x in list <==> x in members
    ensures |list| == |members|
  {
    if list == [] {
      forall x
        ensures x !in members
      {
        assert x !in list;
      }
      assert members == {};
    } else {
      var init, last := list[..|list| - 1], list[|list| - 1];
      assert list == init + [last];
      DistinctGrows(init, last);
      DistinctCount(init, members - {last});
    }
  }

  /** The set of no-shows, or the refusal its first bad member causes. */
  method CollectNoShows(rows: map<int, ReservationRow>, activityId: int, all: seq<int>, confirmed: seq<int>, ids: seq<int>)
    returns (result: Result<set<int>, CloseError>)
    requires forall r :: r in all <==> r in RowsOf(rows, activityId)
    requires forall r :: r in confirmed <==> r in ConfirmedOf(rows, activityId)
    ensures var refusal := NoShowRefusal(rows, activityId, ids);
      result == if refusal.Some? then Failure(refusal.value) else Success(SetOf(ids))
  {
    var noShows: set<int> := {};
    for i := 0 to |ids|
      invariant noShows == SetOf(ids[..i])
      invariant NoShowRefusal(rows, activityId, ids) == NoShowRefusal(rows, activityId, ids[i..])
    {
      assert ids[i..][0] == ids[i] && ids[i..] != [];
      assert ids[i] in confirmed <==> ids[i] in ConfirmedOf(rows, activityId);
      assert ids[i] in all <==> ids[i] in RowsOf(rows, activityId);
      if ids[i] !in confirmed {
        return Failure(if ids[i] in all then ReservationNotConfirmed else ReservationNotFound);
      }
      assert ids[..i + 1] == ids[..i] + [ids[i]] && ids[i..][1..] == ids[i + 1..];
      noShows := noShows + {ids[i]};
    }
    assert ids[..|ids|] == ids;
    return Success(noShows);
  }

  lemma OutcomeKeepsListing(t: Tables, dogs: map<int, Dog>, nextId: nat, a: int, noShows: set<int>, now: int)
    requires forall r :: r in ConfirmedOf(t.rows, a) ==> 0 < r < nextId
    requires SettleAscending(t, dogs, nextId, a, noShows, now).Success?
    ensures SettleAscending(t, dogs, nextId, a, noShows, now).value
      == MarkClosed(t.(rows := Settled(t.rows, ConfirmedOf(t.rows, a), noShows)), a)
    ensures SettleAscending(t, dogs, nextId, a, noShows, now).value.rows.Keys == t.rows.Keys
  {
    var ids := Below(ConfirmedOf(t.rows, a), nextId);
    LoopIsPointwise(World(dogs, t.activities), t.rows, ids, noShows, now);
    assert SetOf(ids) == ConfirmedOf(t.rows, a);
  }

  /** Everything CloseActivity decides before it writes: the ids to process, in order, and the no-shows among them. */
  method PrepareClose(db: Database, activity: Activity, input: CloseActivityInput) returns (result: Result<(seq<int>, set<int>), CloseError>)
    requires db.Valid()
    requires input.activityId in db.activities && activity.id == input.activityId && activity.Row() == db.activities[input.activityId]
    ensures var refusal := ClosePolicy(db.Now(), input);
      result == if refusal.Some? then Failure(refusal.value)
                else Success((Below(ConfirmedOf(db.reservations, input.activityId), db.nextId), SetOf(input.noShows)))
  {
    var a := input.activityId;
    if !IsFinished(activity.Row(), input.now) {
      return Failure(NotFinished);
    }
    if activity.closed {
      return Failure(AlreadyClosed);
    }
    var all := db.ListByActivity(a);
    var confirmed, _ := Partition(db.reservations, all, a);
    var sorted := SortById(confirmed);
    AscendingIsUnique(sorted, Below(ConfirmedOf(db.reservations, a), db.nextId));
    var noShows := CollectNoShows(db.reservations, a, all, confirmed, input.noShows);
    if noShows.Failure? {
      return Failure(noShows.error);
    }
    return Success((sorted, noShows.value));
  }

  /** CloseActivityUseCase.runInTx. */
  method CloseInTx(db: Database, input: CloseActivityInput, fault: Fault) returns (result: Result<(), CloseError>)
    requires db.Valid()
    modifies db`reservations, db`activities
    ensures var spec := CloseOutcome(old(db.Now()), db.dogs, db.nextId, input);
      && (result.Success? ==> spec.Success? && db.Now() == spec.value)
      && (fault.NoFault? || fault.AtCommit? ==> result == if spec.Success? then Success(()) else Failure(spec.error))
    ensures fault.AtActivity? ==> result.Failure?
  {
    if input.activityId !in db.activities {
      return Failure(NotFound);
    }
    var activity := new Activity(input.activityId, db.activities[input.activityId]);
    var prepared := PrepareClose(db, activity, input);
    if prepared.Failure? {
      return Failure(prepared.error);
    }
    var (sorted, noShows) := prepared.value;
    var processed := ProcessConfirmed(db, db.reservations, sorted, noShows, input.now, if fault.AtReservation? then Some(fault.index) else None);
    if processed.Failure? {
      return Failure(processed.error);
    }
    var closed := activity.Close();
    if !closed {
      return Failure(AlreadyClosed);
    }
    if fault.AtActivity? {
      return Failure(DatabaseFailed);
    }
    var updated := db.UpdateActivity(activity);
    return Success(());
  }

  /** CloseActivityUseCase.Execute: one transaction around it all. */
  method CloseActivity(db: Database, input: CloseActivityInput, fault: Fault) returns (result: Result<(), CloseError>)
    requires db.Valid()
    modifies db
    ensures db.Valid() && db.nextId == old(db.nextId) && db.clock == old(db.clock)
    ensures result.Failure? ==> db.Now() == old(db.Now())
    ensures var spec := CloseOutcome(old(db.Now()), db.dogs, db.nextId, input);
      && (result.Success? ==> spec.Success? && db.Now() == spec.value)
      && (fault.NoFault? ==> result == if spec.Success? then Success(()) else Failure(spec.error))
    ensures fault.AtActivity? || fault.AtCommit? ==> result.Failure?
  {
    var begun := db.Now();
    result := CloseInTx(db, input, fault);
    if result.Success? && fault.AtCommit? {
      result := Failure(DatabaseFailed);
    }
    if result.Failure? {
      db.Restore(begun);
    } else {
      OutcomeKeepsListing(begun, db.dogs, db.nextId, input.activityId, SetOf(input.noShows), input.now);
    }
  }

  /** Everything bulk completion decides before it writes: the ids to process, in order. */
  method PrepareBulk(db: Database, a: int, now: int) returns (result: Result<seq<int>, CloseError>)
    requires db.Valid()
    ensures var refusal := BulkPolicy(db.Now(), a, now);
      result == if refusal.Some? then Failure(refusal.value) else Success(Below(ConfirmedOf(db.reservations, a), db.nextId))
    ensures result.Success? ==> |result.value| == |ConfirmedOf(db.reservations, a)|
  {
    if a !in db.activities {
      return Failure(NotFound);
    }
    if !IsFinished(db.activities[a], now) {
      return Failure(NotFinished);
    }
    var all := db.ListByActivity(a);
    var confirmed, pendingCount := Partition(db.reservations, all, a);
    if pendingCount > 0 {
      return Failure(PendingToConfirmExists);
    }
    var sorted := SortById(confirmed);
    AscendingIsUnique(sorted, Below(ConfirmedOf(db.reservations, a), db.nextId));
    return Success(sorted);
  }

  /** BulkCompleteReservationsUseCase.runInTx. */
  method BulkCompleteInTx(db: Database, a: int, now: int, fault: Fault) returns (result: Result<nat, CloseError>)
    requires db.Valid()
    modifies db`reservations, db`activities
    ensures var spec := BulkOutcome(old(db.Now()), db.dogs, db.nextId, a, now);
      && (result.Success? ==> spec.Success? && db.Now() == spec.value)
      && (fault.NoFault? || fault.AtCommit? ==> (result.Success? <==> spec.Success?) && (result.Failure? ==> result.error == spec.error))
    ensures result.Success? ==> result.value == |ConfirmedOf(old(db.reservations), a)|
  {
    var prepared := PrepareBulk(db, a, now);
    if prepared.Failure? {
      return Failure(prepared.error);
    }
    var sorted := prepared.value;
    var activity := new Activity(a, db.activities[a]);
    var processed := ProcessConfirmed(db, db.reservations, sorted, {}, now, if fault.AtReservation? then Some(fault.index) else None);
    if processed.Failure? {
      return Failure(processed.error);
    }
    if !activity.closed {
      var closed := activity.Close();
      if fault.AtActivity? {
        return Failure(DatabaseFailed);
      }
      var updated := db.UpdateActivity(activity);
    }
    return Success(|sorted|);
  }

  /** BulkCompleteReservationsUseCase.Execute. */
  method BulkComplete(db: Database, a: int, now: int, fault: Fault) returns (result: Result<nat, CloseError>)
    requires db.Valid()
    modifies db
    ensures db.Valid() && db.nextId == old(db.nextId) && db.clock == old(db.clock)
    ensures result.Failure? ==> db.Now() == old(db.Now())
    ensures var spec := BulkOutcome(old(db.Now()), db.dogs, db.nextId, a, now);
      && (result.Success? ==> spec.Success? && db.Now() == spec.value && result.value == |ConfirmedOf(old(db.reservations), a)|)
      && (fault.NoFault? ==> (result.Success? <==> spec.Success?) && (result.Failure? ==> result.error == spec.error))
    ensures fault.AtCommit? ==> result.Failure?
  {
    var begun := db.Now();
    result := BulkCompleteInTx(db, a, now, fault);
    if result.Success? && fault.AtCommit? {
      result := Failure(DatabaseFailed);
    }
    if result.Failure? {
      db.Restore(begun);
    } else {
      OutcomeKeepsListing(begun, db.dogs, db.nextId, a, {}, now);
    }
  }
}
