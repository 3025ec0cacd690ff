/**
 * The repositories over one database (internal/repository/postgres), seen by one client: each method
 * is one or more SQL statements executed in place. Interleavings are the subject of Engine.
 */
module Store {

  import opened Outcomes
  import opened Reservations
  import opened Passes
  import opened Activities
  import opened Compatibility

  datatype RepositoryError =
    | RowNotFound
    | ReservationStateChanged
    | PassStateChanged
    | ActivityHasReservations
    | DuplicateReservation
    | ForeignKeyViolated
    | StatementFailed

  /** A consistent picture of all tables; `created` lists the reservations by created_at. */
  datatype Tables = Tables(
    activities: map<int, ActivityRow>, passes: map<int, PassRow>, rows: map<int, ReservationRow>,
    created: seq<int>, movements: seq<Movement>)

  ghost predicate Listing(rows: map<int, ReservationRow>, created: seq<int>) {
    && (forall i, j :: 0 <= i < j < |created| ==> created[i] != created[j])
    && (forall r :: r in created <==> r in rows)
  }

  /** The list is a part of the other one, in the same order. */
  ghost predicate Subsequence(list: seq<int>, all: seq<int>) {
    if all == [] then list == []
    else
      var rest, last := all[..|all| - 1], all[|all| - 1];
      Subsequence(list, rest) || (list != [] && list[|list| - 1] == last && Subsequence(list[..|list| - 1], rest))
  }

  lemma {:induction false} ListingsKeepTheOrder(rows: map<int, ReservationRow>, created: seq<int>, activityId: int)
    ensures Subsequence(ListOf(rows, created, activityId), created) && Subsequence(OthersOf(rows, created, activityId), created)
  {
    if created == [] {
    } else {
      var init, last := created[..|created| - 1], created[|created| - 1];
      ListingsKeepTheOrder(rows, init, activityId);
      var list, others := ListOf(rows, init, activityId), OthersOf(rows, init, activityId);
      assert (list + [last])[..|list|] == list && (others + [last])[..|others|] == others;
      assert list + [] == list && others + [] == others;
    }
  }

  lemma HoldersExist(rows: map<int, ReservationRow>, activityId: int)
    ensures Holders(rows, activityId) != {} <==>
      exists r :: r in rows && rows[r].activityId == activityId && (rows[r].status == Confirmed || rows[r].status == PendingToConfirm)
  {
    if exists r :: r in Holders(rows, activityId) {
      var r :| r in Holders(rows, activityId);
    } else {
      forall r | r in rows && rows[r].activityId == activityId && (rows[r].status == Confirmed || rows[r].status == PendingToConfirm)
        ensures r in Holders(rows, activityId)
      {}
    }
  }

  /** The reservations of one activity among the first n created, oldest first. */
  function ListOf(rows: map<int, ReservationRow>, created: seq<int>, activityId: int): seq<int> {
    if created == [] then []
    else
      var last := created[|created| - 1];
      ListOf(rows, created[..|created| - 1], activityId)
      + if last in rows && rows[last].activityId == activityId then [last] else []
  }

  /** The reservations of all other activities, oldest first. */
  function OthersOf(rows: map<int, ReservationRow>, created: seq<int>, activityId: int): seq<int> {
    if created == [] then []
    else
      var last := created[|created| - 1];
      OthersOf(rows, created[..|created| - 1], activityId)
      + if last in rows && rows[last].activityId == activityId then [] else [last]
  }

  lemma {:induction false} OthersAreExact(rows: map<int, ReservationRow>, created: seq<int>, activityId: int)
    requires forall i, j :: 0 <= i < j < |created| ==> created[i] != created[j]
    ensures var list := OthersOf(rows, created, activityId);
      && (forall r :: r in list <==> r in created && !(r in rows && rows[r].activityId == activityId))
      && (forall i, j :: 0 <= i < j < |list| ==> list[i] != list[j])
  {
    if created == [] {
    } else {
      var init, last := created[..|created| - 1], created[|created| - 1];
      OthersAreExact(rows, init, activityId);
      assert created == init + [last] && last !in init;
    }
  }

  function CountHolding(rows: map<int, ReservationRow>, list: seq<int>): nat {
    if list == [] then 0
    else
      var last := list[|list| - 1];
      CountHolding(rows, list[..|list| - 1]) + if last in rows && HoldsSlot(rows[last].status) then 1 else 0
  }

  lemma {:induction false} ListIsExact(rows: map<int, ReservationRow>, created: seq<int>, activityId: int)
    requires forall i, j :: 0 <= i < j < |created| ==> created[i] != created[j]
    ensures var list := ListOf(rows, created, activityId);
      && (forall r :: r in list <==> r in created && r in rows && rows[r].activityId == activityId)
      && (forall i, j :: 0 <= i < j < |list| ==> list[i] != list[j])
  {
    if created == [] {
    } else {
      var init, last := created[..|created| - 1], created[|created| - 1];
      ListIsExact(rows, init, activityId);
      assert created == init + [last] && last !in init;
    }
  }

  lemma {:induction false} HoldersAreCounted(rows: map<int, ReservationRow>, list: seq<int>)
    requires forall i, j :: 0 <= i < j < |list| ==> list[i] != list[j]
    ensures CountHolding(rows, list) == |HoldingAmong(rows, list)|
  {
    if list == [] {
    } else {
      var init, last := list[..|list| - 1], list[|list| - 1];
      HoldersAreCounted(rows, init);
      assert list == init + [last] && last !in init;
      OneMoreHolding(rows, init, last);
    }
  }

  function HoldingAmong(rows: map<int, ReservationRow>, list: seq<int>): set<int> {
    set r | r in list && r in rows && HoldsSlot(rows[r].status)
  }

  lemma OneMoreHolding(rows: map<int, ReservationRow>, init: seq<int>, last: int)
    ensures HoldingAmong(rows, init + [last]) == HoldingAmong(rows, init) + if last in rows && HoldsSlot(rows[last].status) then {last} else {}
  {}

  /** The capacity check's count over the listing is the number of slot holders. */
  lemma CapacityCountIsExact(rows: map<int, ReservationRow>, created: seq<int>, activityId: int)
    requires Listing(rows, created)
    ensures CountHolding(rows, ListOf(rows, created, activityId)) == |Holders(rows, activityId)|
  {
    var list := ListOf(rows, created, activityId);
    ListIsExact(rows, created, activityId);
    HoldersAreCounted(rows, list);
    HoldersAreListed(rows, created, list, activityId);
  }

  lemma HoldersAreListed(rows: map<int, ReservationRow>, created: seq<int>, list: seq<int>, activityId: int)
    requires forall r :: r in rows ==> r in created
    requires forall r :: r in list <==> r in created && r in rows && rows[r].activityId == activityId
    ensures HoldingAmong(rows, list) == Holders(rows, activityId)
  {
    forall r | r in Holders(rows, activityId)
      ensures r in HoldingAmong(rows, list)
    {
      assert r in created;
    }
    forall r | r in HoldingAmong(rows, list)
      ensures r in Holders(rows, activityId)
    {
      assert r in list;
    }
  }

  /** One more created reservation adds one to its own activity's count if it holds a slot. */
  lemma CountGrows(rows: map<int, ReservationRow>, created: seq<int>, i: nat, activityId: int)
    requires i < |created| && created[i] in rows
    ensures CountHolding(rows, ListOf(rows, created[..i + 1], activityId))
      == CountHolding(rows, ListOf(rows, created[..i], activityId))
         + if rows[created[i]].activityId == activityId && HoldsSlot(rows[created[i]].status) then 1 else 0
  {
    var list := ListOf(rows, created[..i], activityId);
    assert created[..i + 1][..i] == created[..i];
    assert (list + [created[i]])[..|list|] == list;
    assert list + [] == list;
  }

  // ---------- The guarded writes, as functions of the tables ----------

  function CasStatus(rows: map<int, ReservationRow>, id: int, status: Status, expected: Status)
    : Result<map<int, ReservationRow>, RepositoryError>
  {
    if id !in rows then Failure(RowNotFound)
    else if rows[id].status != expected then Failure(ReservationStateChanged)
    else Success(rows[id := rows[id].(status := status)])
  }

  /** The owner column is not among those an UPDATE writes. */
  function CasPass(passes: map<int, PassRow>, id: int, row: PassRow, expectedVersion: int)
    : Result<map<int, PassRow>, RepositoryError>
  {
    if id !in passes || passes[id].version != expectedVersion then
      Failure(if id in passes && expectedVersion != ZERO_VERSION then PassStateChanged else RowNotFound)
    else Success(passes[id := row.(userId := passes[id].userId)])
  }

  /**
   * Of two writers that expect the same status at most one wins: once one has moved the reservation away
   * from it the other is refused, and told that the reservation has changed.
   */
  lemma SecondWriterIsRefused(rows: map<int, ReservationRow>, id: int, first: Status, second: Status, expected: Status)
    requires first != expected
    ensures var written := CasStatus(rows, id, first, expected);
      && (written.Success? <==> id in rows && rows[id].status == expected)
      && (written.Success? ==> written.value[id].status == first && CasStatus(written.value, id, second, expected) == Failure(ReservationStateChanged))
  {}

  /** And of two writers that loaded the same version of a pass: the write of the first makes the other's stale. */
  lemma StalePassIsRefused(passes: map<int, PassRow>, id: int, first: PassRow, second: PassRow, version: int)
    requires version != ZERO_VERSION && first.version != version
    ensures var written := CasPass(passes, id, first, version);
      && (written.Success? <==> id in passes && passes[id].version == version)
      && (written.Success? ==> written.value[id].version == first.version && CasPass(written.value, id, second, version) == Failure(PassStateChanged))
  {}

  class Database {
    const dogs: map<int, Dog>
    var activities: map<int, ActivityRow>
    var passes: map<int, PassRow>
    var reservations: map<int, ReservationRow>
    var created: seq<int>
    var movements: seq<Movement>
    var clock: int
    var nextId: nat

    constructor (dogs: map<int, Dog>, tables: Tables, clock: int, nextId: nat)
      ensures Now() == tables && this.dogs == dogs && this.clock == clock && this.nextId == nextId
    {
      this.dogs := dogs;
      activities, passes, reservations := tables.activities, tables.passes, tables.rows;
      created, movements := tables.created, tables.movements;
      this.clock, this.nextId := clock, nextId;
    }

    function Now(): Tables
      reads this
    {
      Tables(activities, passes, reservations, created, movements)
    }

    ghost predicate Valid()
      reads this
    {
      && Listing(reservations, created)
      && 0 < nextId && (forall r :: r in reservations ==> 0 < r < nextId)
      && (forall p :: p in passes ==> ZERO_VERSION < passes[p].version < clock)
      && (forall d :: d in dogs ==> dogs[d].id == d)
    }

    /** ROLLBACK to the tables as they were at BEGIN. */
    method Restore(tables: Tables)
      modifies this`activities, this`passes, this`reservations, this`created, this`movements
      ensures Now() == tables
    {
      activities, passes, reservations := tables.activities, tables.passes, tables.rows;
      created, movements := tables.created, tables.movements;
    }

    // ---------- ReservationRepository ----------

    /** INSERT: foreign keys, and at most one slot-holding reservation per activity and dog. */
    method CreateReservation(row: ReservationRow) returns (result: Result<int, RepositoryError>)
      requires Valid()
      modifies this`reservations, this`created, this`nextId
      ensures Valid()
      ensures result.Success? <==>
        && row.activityId in activities && row.dogId in dogs && row.passId in passes
        && !(HoldsSlot(row.status) && exists r :: r in Holders(old(reservations), row.activityId) && old(reservations)[r].dogId == row.dogId)
      ensures if result.Success?
        then result.value !in old(reservations) && reservations == old(reservations)[result.value := row]
          && created == old(created) + [result.value]
        else reservations == old(reservations) && created == old(created)
      ensures result == Failure(DuplicateReservation) <==>
        HoldsSlot(row.status) && exists r :: r in Holders(old(reservations), row.activityId) && old(reservations)[r].dogId == row.dogId
      ensures result == Failure(DuplicateReservation) <==>
        && (row.status == Confirmed || row.status == PendingToConfirm)
        && exists r :: r in old(reservations) && old(reservations)[r].activityId == row.activityId && old(reservations)[r].dogId == row.dogId
             && (old(reservations)[r].status == Confirmed || old(reservations)[r].status == PendingToConfirm)
    {
      var id := nextId;
      nextId := nextId + 1;
      if HoldsSlot(row.status) && exists r :: r in Holders(reservations, row.activityId) && reservations[r].dogId == row.dogId {
        return Failure(DuplicateReservation);
      }
      if row.activityId !in activities || row.dogId !in dogs || row.passId !in passes {
        return Failure(ForeignKeyViolated);
      }
      assert id !in created;
      reservations := reservations[id := row];
      created := created + [id];
      return Success(id);
    }

    method UpdateReservation(reservation: Reservation, expected: Status) returns (result: Result<(), RepositoryError>)
      modifies this`reservations
      ensures var spec := CasStatus(old(reservations), reservation.id, reservation.status, expected);
        if spec.Success? then result == Success(()) && reservations == spec.value
        else result == Failure(spec.error) && reservations == old(reservations)
      ensures result.Success? <==> reservation.id in old(reservations) && old(reservations)[reservation.id].status == expected
      ensures result == Failure(ReservationStateChanged) <==>
        reservation.id in old(reservations) && old(reservations)[reservation.id].status != expected
      ensures result == Failure(RowNotFound) <==> reservation.id !in old(reservations)
      ensures result.Success? ==>
        reservations == old(reservations)[reservation.id := old(reservations)[reservation.id].(status := reservation.status)]
      ensures result.Failure? ==> reservations == old(reservations)
    {
      if reservation.id in reservations && reservations[reservation.id].status == expected {
        reservations := reservations[reservation.id := reservations[reservation.id].(status := reservation.status)];
        return Success(());
      }
      // No row was affected: tell a missing row from one that has moved on.
      if reservation.id !in reservations {
        return Failure(RowNotFound);
      }
      return Failure(ReservationStateChanged);
    }

    method ListByActivity(activityId: int) returns (list: seq<int>)
      requires Valid()
      ensures list == ListOf(reservations, created, activityId)
      ensures forall r :: r in list <==> r in RowsOf(reservations, activityId)
      ensures forall i, j :: 0 <= i < j < |list| ==> list[i] != list[j]
      ensures Subsequence(list, created)
    {
      list := [];
      for i := 0 to |created|
        invariant list == ListOf(reservations, created[..i], activityId)
      {
        var id := created[i];
        assert created[..i + 1][..i] == created[..i];
        assert Listing(reservations, created) && id in created;
        if reservations[id].activityId == activityId {
          list := list + [id];
        }
      }
      assert created[..|created|] == created;
      ListIsExact(reservations, created, activityId);
      ListingsKeepTheOrder(reservations, created, activityId);
    }

    /**
     * The batch count agrees, for every requested activity, with counting HoldsSlot over its own
     * listing; activities without holders, and only they, are missing.
     */
    method CountHeldSlotsBatch(activityIds: seq<int>) returns (counts: map<int, nat>)
      requires Valid()
      ensures forall a :: a in activityIds ==>
        (if a in counts then counts[a] else 0) == |Holders(reservations, a)|
          == CountHolding(reservations, ListOf(reservations, created, a))
      ensures forall a :: a in counts <==> a in activityIds && Holders(reservations, a) != {}
    {
      counts := map[];
      if activityIds == [] {
        return;
      }
      for i := 0 to |created|
        invariant forall a :: a in activityIds ==>
          (if a in counts then counts[a] else 0) == CountHolding(reservations, ListOf(reservations, created[..i], a))
        invariant forall a :: a in counts ==> a in activityIds && counts[a] > 0
      {
        var id := created[i];
        assert Listing(reservations, created) && id in created;
        var row := reservations[id];
        forall a {
          CountGrows(reservations, created, i, a);
        }
        if row.activityId in activityIds && HoldsSlot(row.status) {
          counts := counts[row.activityId := (if row.activityId in counts then counts[row.activityId] else 0) + 1];
        }
      }
      assert created[..|created|] == created;
      forall a | a in activityIds
        ensures CountHolding(reservations, ListOf(reservations, created, a)) == |Holders(reservations, a)|
      {
        CapacityCountIsExact(reservations, created, a);
      }
    }

    // ---------- PassRepository ----------

    /**
     * Writes the row and flushes the pending movements, or changes nothing. `failing` is the position
     * of the movement whose INSERT fails, if any; inside a caller's transaction the caller rolls back
     * what was written before it, otherwise Update does so itself.
     */
    method UpdatePass(pass: Pass, expectedVersion: int, failing: Option<nat>, inTransaction: bool)
      returns (result: Result<(), RepositoryError>)
      modifies this`passes, this`movements, this`clock, pass`pendingMovements
      ensures
        var spec := CasPass(old(passes), pass.id, old(pass.State()).row.(version := old(clock)), expectedVersion);
        var flushed := failing.None? || failing.value >= |old(pass.pendingMovements)|;
        if spec.Success? && flushed then
          && result == Success(())
          && passes == spec.value && movements == old(movements) + old(pass.pendingMovements)
          && pass.pendingMovements == [] && clock == old(clock) + 1
        else
          && result == Failure(if spec.Failure? then spec.error else StatementFailed)
          && pass.pendingMovements == old(pass.pendingMovements)
          && (if spec.Failure? || !inTransaction then passes == old(passes) && movements == old(movements)
              else passes == spec.value && movements == old(movements) + old(pass.pendingMovements)[..failing.value])
      ensures result == Failure(PassStateChanged) <==>
        pass.id in old(passes) && old(passes)[pass.id].version != expectedVersion && expectedVersion != ZERO_VERSION
      ensures result == Failure(RowNotFound) <==>
        pass.id !in old(passes) || (old(passes)[pass.id].version != expectedVersion && expectedVersion == ZERO_VERSION)
      ensures result.Success? <==>
        && pass.id in old(passes) && old(passes)[pass.id].version == expectedVersion
        && (failing.None? || failing.value >= |old(pass.pendingMovements)|)
      ensures result.Success? ==>
        && passes == old(passes)[pass.id := PassRow(
             old(passes)[pass.id].userId, pass.numOfSessions, pass.remainingSessions, pass.price, pass.passType,
             pass.expiresAt, pass.isPaid, old(clock))]
        && movements == old(movements) + old(pass.pendingMovements)
      ensures result == Failure(PassStateChanged) || result == Failure(RowNotFound) ==> passes == old(passes) && movements == old(movements)
      ensures old(Valid()) && expectedVersion == ZERO_VERSION ==> result == Failure(RowNotFound)
      ensures old(Valid()) ==> Valid()
    {
      var saved := Now();
      if pass.id !in passes {
        return Failure(RowNotFound);
      }
      if passes[pass.id].version != expectedVersion {
        return Failure(if expectedVersion == ZERO_VERSION then RowNotFound else PassStateChanged);
      }
      passes := passes[pass.id := pass.State().row.(version := clock, userId := passes[pass.id].userId)];
      clock := clock + 1;
      var pending := pass.pendingMovements;
      for i := 0 to |pending|
        invariant passes == CasPass(old(passes), pass.id, old(pass.State()).row.(version := old(clock)), expectedVersion).value
        invariant movements == old(movements) + pending[..i] && clock == old(clock) + 1
        invariant pass.pendingMovements == pending
        invariant failing.Some? ==> failing.value >= i
      {
        if failing == Some(i) {
          if !inTransaction {
            passes, movements := saved.passes, saved.movements;
          }
          return Failure(StatementFailed);
        }
        movements := movements + [pending[i]];
      }
      assert pending[..|pending|] == pending;
      pass.ClearPendingMovements();
      return Success(());
    }

    // ---------- ActivityRepository ----------

    method UpdateActivity(activity: Activity) returns (result: Result<(), RepositoryError>)
      modifies this`activities
      ensures if activity.id in old(activities)
        then result == Success(()) && activities == old(activities)[activity.id := activity.Row()]
        else result == Failure(RowNotFound) && activities == old(activities)
    {
      if activity.id !in activities {
        return Failure(RowNotFound);
      }
      activities := activities[activity.id := activity.Row()];
      return Success(());
    }

    /** The guard's SELECT COUNT(*). */
    method CountActive(id: int) returns (active: nat)
      requires Valid()
      ensures active == |Holders(reservations, id)|
    {
      var list := ListByActivity(id);
      active := 0;
      for i := 0 to |list|
        invariant active == CountHolding(reservations, list[..i])
      {
        assert list[..i + 1][..i] == list[..i] && list[i] in list;
        if HoldsSlot(reservations[list[i]].status) {
          active := active + 1;
        }
      }
      assert list[..|list|] == list;
      CapacityCountIsExact(reservations, created, id);
    }

    /** What ON DELETE CASCADE leaves of the listing. */
    method ListOthers(id: int) returns (kept: seq<int>)
      requires Valid()
      ensures kept == OthersOf(reservations, created, id)
    {
      kept := [];
      for i := 0 to |created|
        invariant kept == OthersOf(reservations, created[..i], id)
      {
        var r := created[i];
        assert created[..i + 1][..i] == created[..i];
        assert Listing(reservations, created) && r in created;
        if reservations[r].activityId != id {
          kept := kept + [r];
        }
      }
      assert created[..|created|] == created;
    }

    /** Refused exactly while somebody holds a slot; otherwise the activity and its reservations go, and nothing else. */
    method DeleteActivity(id: int) returns (result: Result<(), RepositoryError>)
      requires Valid()
      modifies this`activities, this`reservations, this`created
      ensures Valid()
      ensures result == if Holders(old(reservations), id) != {} then Failure(ActivityHasReservations)
                        else if id !in old(activities) then Failure(RowNotFound) else Success(())
      ensures if result.Success?
        then activities == old(activities) - {id} && reservations == old(reservations) - RowsOf(old(reservations), id)
          && created == OthersOf(old(reservations), old(created), id) && Subsequence(created, old(created))
        else activities == old(activities) && reservations == old(reservations) && created == old(created)
      ensures result == Failure(ActivityHasReservations) <==>
        exists r :: r in old(reservations) && old(reservations)[r].activityId == id
          && (old(reservations)[r].status == Confirmed || old(reservations)[r].status == PendingToConfirm)
    {
      var active := CountActive(id);
      HoldersExist(reservations, id);
      if active > 0 {
        return Failure(ActivityHasReservations);
      }
      if id !in activities {
        return Failure(RowNotFound);
      }
      var kept := ListOthers(id);
      OthersAreExact(reservations, created, id);
      ListingsKeepTheOrder(reservations, created, id);
      activities := activities - {id};
      reservations := reservations - RowsOf(reservations, id);
      created := kept;
      return Success(());
    }
  }
}
