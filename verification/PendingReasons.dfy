/** Why a reservation waits for confirmation (internal/repository/postgres/reservation_repository.go). */
module PendingReasons {

  import opened Outcomes

  /** `dogIds` is a Go slice: None is nil, which is not the empty slice Some([]). */
  datatype PendingReason = PendingReason(code: string, dogIds: Option<seq<int>>)

  /** A row of reservation_pending_reasons, keyed by (reservation_id, ordinal). */
  datatype Stored = Stored(code: string, dogIds: seq<int>)

  type Table = map<(int, int), Stored>

  datatype SaveError = NotPositive | EmptyCode(ordinal: nat) | InsertFailed(ordinal: nat) | CommitFailed

  /** The ordinal column is a SMALLINT. */
  const MAX_ORDINAL: int := 32_767

  function ToRow(reason: PendingReason): Stored {
    Stored(reason.code, if reason.dogIds.None? then [] else reason.dogIds.value)
  }

  function FromRow(row: Stored): PendingReason {
    PendingReason(row.code, if row.dogIds == [] then None else Some(row.dogIds))
  }

  function FromRows(rows: seq<Stored>): (reasons: seq<PendingReason>)
    ensures |reasons| == |rows|
  {
    if rows == [] then [] else FromRows(rows[..|rows| - 1]) + [FromRow(rows[|rows| - 1])]
  }

  lemma FromRowsAppend(rows: seq<Stored>, row: Stored)
    ensures FromRows(rows + [row]) == FromRows(rows) + [FromRow(row)]
  {
    assert (rows + [row])[..|rows|] == rows;
  }

  function Without(table: Table, id: int): Table {
    map k | k in table && k.0 != id :: table[k]
  }

  /** The table after replacing the reasons of one reservation. */
  function Saved(table: Table, id: int, reasons: seq<PendingReason>): Table {
    if reasons == [] then Without(table, id)
    else
      var n := |reasons| - 1;
      Saved(table, id, reasons[..n])[(id, n) := ToRow(reasons[n])]
  }

  /** SELECT ... WHERE reservation_id = id AND ordinal < bound ORDER BY ordinal. */
  function RowsBelow(table: Table, id: int, bound: nat): seq<Stored> {
    if bound == 0 then []
    else RowsBelow(table, id, bound - 1) + if (id, bound - 1) in table then [table[(id, bound - 1)]] else []
  }

  function RowsOf(table: Table, id: int): seq<Stored> {
    RowsBelow(table, id, MAX_ORDINAL + 1)
  }

  /** What can be stored for a reservation: non-empty codes, no more than the ordinals allow, and a reservation to refer to. */
  predicate Storable(reservations: set<int>, id: int, reasons: seq<PendingReason>, ordinal: int)
    requires 0 <= ordinal < |reasons|
  {
    reasons[ordinal].code != "" && ordinal <= MAX_ORDINAL && id in reservations
  }

  class Repository {
    const reservations: set<int>
    var table: Table

    constructor (reservations: set<int>)
      ensures this.reservations == reservations && table == map[]
    {
      this.reservations := reservations;
      table := map[];
    }

    /** Primary keys are positive reservations with ordinals in range. */
    ghost predicate Valid()
      reads this
    {
      forall k :: k in table ==> k.0 > 0 && 0 <= k.1 <= MAX_ORDINAL
    }

    /**
     * Saves every reason or, on its own (`joined` false), none; a failure inside the caller's transaction
     * is rolled back by the caller. No other reservation is ever affected.
     */
    method SavePendingReasons(id: int, reasons: seq<PendingReason>, joined: bool, commitFails: bool)
      returns (result: Result<(), SaveError>)
      requires Valid()
      modifies this
      ensures Valid()
      ensures result.Success? <==>
        && id > 0 && (forall i :: 0 <= i < |reasons| ==> Storable(reservations, id, reasons, i))
        && (joined || !commitFails)
      ensures result == Failure(NotPositive) <==> id <= 0
      ensures result.Success? ==> forall i :: 0 <= i < |reasons| ==> reasons[i].code != "" && i <= 32_767 && id in reservations
      ensures result.Success? ==> table == Saved(old(table), id, reasons)
      ensures result.Failure? && !joined ==> table == old(table)
      ensures Without(table, id) == Without(old(table), id)
      ensures forall i: nat :: result == Failure(EmptyCode(i)) ==>
        i < |reasons| && reasons[i].code == "" && forall j :: 0 <= j < i ==> Storable(reservations, id, reasons, j)
    {
      if id <= 0 {
        return Failure(NotPositive);
      }
      var begun := table;
      table := Without(table, id);
      for i := 0 to |reasons|
        invariant Valid()
        invariant table == Saved(old(table), id, reasons[..i])
        invariant Without(table, id) == Without(old(table), id)
        invariant forall j :: 0 <= j < i ==> Storable(reservations, id, reasons, j)
      {
        var inserted := InsertPendingReason(id, i, reasons[i]);
        if inserted.Failure? {
          SavedRows(old(table), id, reasons[..i]);
          assert !Storable(reservations, id, reasons, i);
          if !joined {
            table := begun;
          }
          return inserted;
        }
        assert reasons[..i + 1][..i] == reasons[..i];
      }
      assert reasons[..|reasons|] == reasons;
      forall i | 0 <= i < |reasons|
        ensures reasons[i].code != "" && i <= 32_767 && id in reservations
      {
        assert Storable(reservations, id, reasons, i);
      }
      if !joined && commitFails {
        table := begun;
        return Failure(CommitFailed);
      }
      return Success(());
    }

    method InsertPendingReason(id: int, ordinal: nat, reason: PendingReason) returns (result: Result<(), SaveError>)
      modifies this
      ensures result.Success? <==> reason.code != "" && ordinal <= MAX_ORDINAL && id in reservations && (id, ordinal) !in old(table)
      ensures table == if result.Success? then old(table)[(id, ordinal) := ToRow(reason)] else old(table)
      ensures result.Failure? ==> result.error == if reason.code == "" then EmptyCode(ordinal) else InsertFailed(ordinal)
    {
      if reason.code == "" {
        return Failure(EmptyCode(ordinal));
      }
      var dogIds := if reason.dogIds.None? then [] else reason.dogIds.value;
      if ordinal > MAX_ORDINAL || id !in reservations || (id, ordinal) in table {
        return Failure(InsertFailed(ordinal));
      }
      table := table[(id, ordinal) := Stored(reason.code, dogIds)];
      return Success(());
    }

    method ListPendingReasonsByReservation(id: int) returns (out: seq<PendingReason>)
      ensures out == FromRows(RowsOf(table, id))
    {
      out := [];
      for ordinal := 0 to MAX_ORDINAL + 1
        invariant out == FromRows(RowsBelow(table, id, ordinal))
      {
        ghost var rows := RowsBelow(table, id, ordinal);
        assert rows + [] == rows;
        if (id, ordinal) in table {
          FromRowsAppend(rows, table[(id, ordinal)]);
          out := out + [FromRow(table[(id, ordinal)])];
        }
      }
    }

    method AppendRows(before: seq<(int, Stored)>, id: int) returns (rows: seq<(int, Stored)>)
      ensures Extends(before, rows, id, RowsOf(table, id))
    {
      rows := before;
      for ordinal := 0 to MAX_ORDINAL + 1
        invariant Extends(before, rows, id, RowsBelow(table, id, ordinal))
      {
        if (id, ordinal) in table {
          ExtendsByOne(before, rows, id, RowsBelow(table, id, ordinal), table[(id, ordinal)]);
          rows := rows + [(id, table[(id, ordinal)])];
        }
      }
    }

    /** SELECT ... WHERE reservation_id = ANY(ids) ORDER BY reservation_id, ordinal. */
    method QueryBatch(ids: seq<int>) returns (rows: seq<(int, Stored)>)
      requires Valid()
      ensures forall id :: OfReservation(rows, id) == if id in ids then RowsOf(table, id) else []
    {
      var last := 0;
      for i := 0 to |ids|
        invariant 0 <= last
        invariant forall j :: 0 <= j < i ==> ids[j] <= last
      {
        if ids[i] > last {
          last := ids[i];
        }
      }
      rows := [];
      for id := 1 to last + 1
        invariant Queried(table, ids, rows, id)
      {
        if id in ids {
          var more := AppendRows(rows, id);
          QueriedNext(table, ids, rows, more, id);
          rows := more;
        }
      }
      QueriedAll(table, ids, rows, last + 1);
    }

    /** The batched list agrees with the single list for every requested id; a missing key is an empty list. */
    method ListPendingReasonsByReservations(ids: seq<int>) returns (out: map<int, seq<PendingReason>>)
      requires Valid()
      ensures forall id :: id in ids ==> At(out, id) == FromRows(RowsOf(table, id))
      ensures forall id :: id in out <==> id in ids && RowsOf(table, id) != []
    {
      out := map[];
      if ids == [] {
        return;
      }
      var rows := QueryBatch(ids);
      for i := 0 to |rows|
        invariant AllCollected(out, rows[..i])
      {
        AllCollectedGrows(out, rows, i);
        var (id, row) := rows[i];
        out := out[id := At(out, id) + [FromRow(row)]];
      }
      assert rows[..|rows|] == rows;
      forall id
        ensures id in ids ==> At(out, id) == FromRows(RowsOf(table, id))
        ensures id in out <==> id in ids && RowsOf(table, id) != []
      {
        assert Collected(out, rows, id);
      }
    }
  }

  ghost predicate AllCollected(out: map<int, seq<PendingReason>>, rows: seq<(int, Stored)>) {
    forall id :: Collected(out, rows, id)
  }

  lemma AllCollectedGrows(out: map<int, seq<PendingReason>>, rows: seq<(int, Stored)>, i: nat)
    requires i < |rows| && AllCollected(out, rows[..i])
    ensures AllCollected(Gathered(out, rows[i]), rows[..i + 1])
  {
    var before, after, more := rows[..i], rows[..i + 1], Gathered(out, rows[i]);
    forall id
      ensures Collected(more, after, id)
    {
      assert Collected(out, before, id);
      CollectedGrows(out, rows, i, id);
    }
  }

  /** What the batched list has gathered for one reservation after some of the rows. */
  ghost predicate Collected(out: map<int, seq<PendingReason>>, rows: seq<(int, Stored)>, id: int) {
    && At(out, id) == FromRows(OfReservation(rows, id))
    && (id in out <==> OfReservation(rows, id) != [])
  }

  function At(out: map<int, seq<PendingReason>>, id: int): seq<PendingReason> {
    if id in out then out[id] else []
  }

  function Gathered(out: map<int, seq<PendingReason>>, row: (int, Stored)): map<int, seq<PendingReason>> {
    out[row.0 := At(out, row.0) + [FromRow(row.1)]]
  }

  lemma CollectedGrows(out: map<int, seq<PendingReason>>, rows: seq<(int, Stored)>, i: nat, id: int)
    requires i < |rows| && Collected(out, rows[..i], id)
    ensures Collected(Gathered(out, rows[i]), rows[..i + 1], id)
  {
    OfReservationAppend(rows, i, id);
    var before := OfReservation(rows[..i], id);
    if id == rows[i].0 {
      FromRowsAppend(before, rows[i].1);
    } else {
      assert before + [] == before;
    }
  }

  /** The query's rows for the requested reservations before `bound`. */
  ghost predicate Queried(table: Table, ids: seq<int>, rows: seq<(int, Stored)>, bound: int) {
    forall id :: OfReservation(rows, id) == if id in ids && 0 < id < bound then RowsOf(table, id) else []
  }

  /** `rows` adds to `before` just the given rows of one reservation. */
  ghost predicate Extends(before: seq<(int, Stored)>, rows: seq<(int, Stored)>, id: int, added: seq<Stored>) {
    forall other :: OfReservation(rows, other) == OfReservation(before, other) + if other == id then added else []
  }

  lemma ExtendsByOne(before: seq<(int, Stored)>, rows: seq<(int, Stored)>, id: int, added: seq<Stored>, row: Stored)
    requires Extends(before, rows, id, added)
    ensures Extends(before, rows + [(id, row)], id, added + [row])
  {
    assert (rows + [(id, row)])[..|rows|] == rows;
  }

  lemma QueriedNext(table: Table, ids: seq<int>, before: seq<(int, Stored)>, rows: seq<(int, Stored)>, id: int)
    requires Queried(table, ids, before, id) && Extends(before, rows, id, RowsOf(table, id)) && id in ids && id > 0
    ensures Queried(table, ids, rows, id + 1)
  {}

  lemma QueriedAll(table: Table, ids: seq<int>, rows: seq<(int, Stored)>, bound: int)
    requires Queried(table, ids, rows, bound) && (forall id :: id in ids ==> id < bound)
    requires forall k :: k in table ==> k.0 > 0
    ensures forall id :: OfReservation(rows, id) == if id in ids then RowsOf(table, id) else []
  {
    forall id | id <= 0
      ensures RowsOf(table, id) == []
    {
      NothingToList(table, id, MAX_ORDINAL + 1);
    }
  }

  function OfReservation(rows: seq<(int, Stored)>, id: int): seq<Stored> {
    if rows == [] then []
    else
      var last := rows[|rows| - 1];
      OfReservation(rows[..|rows| - 1], id) + if last.0 == id then [last.1] else []
  }

  lemma OfReservationAppend(rows: seq<(int, Stored)>, i: nat, id: int)
    requires i < |rows|
    ensures OfReservation(rows[..i + 1], id) == OfReservation(rows[..i], id) + if rows[i].0 == id then [rows[i].1] else []
  {
    assert rows[..i + 1][..i] == rows[..i];
  }

  lemma {:induction false} NothingToList(table: Table, id: int, bound: nat)
    requires forall k :: k in table ==> k.0 != id
    ensures RowsBelow(table, id, bound) == []
  {
    if bound == 0 {
    } else {
      NothingToList(table, id, bound - 1);
    }
  }

  lemma {:induction false} SavedRows(table: Table, id: int, reasons: seq<PendingReason>)
    ensures var saved := Saved(table, id, reasons);
      && (forall i :: (id, i) in saved <==> 0 <= i < |reasons|)
      && (forall i :: 0 <= i < |reasons| ==> saved[(id, i)] == ToRow(reasons[i]))
      && Without(saved, id) == Without(table, id)
  {
    if reasons == [] {
    } else {
      SavedRows(table, id, reasons[..|reasons| - 1]);
    }
  }

  lemma {:induction false} RowsOfSaved(table: Table, id: int, reasons: seq<PendingReason>, bound: nat)
    ensures var rows := RowsBelow(Saved(table, id, reasons), id, bound);
      && |rows| == (if bound <= |reasons| then bound else |reasons|)
      && (forall i :: 0 <= i < |rows| ==> rows[i] == ToRow(reasons[i]))
  {
    if bound == 0 {
    } else {
      SavedRows(table, id, reasons);
      RowsOfSaved(table, id, reasons, bound - 1);
    }
  }

  lemma {:induction false} FromRowsAt(rows: seq<Stored>, i: nat)
    requires i < |rows|
    ensures FromRows(rows)[i] == FromRow(rows[i])
  {
    if i == |rows| - 1 {
    } else {
      FromRowsAt(rows[..|rows| - 1], i);
    }
  }

  /** Round trip: what was saved is listed in order, whatever was stored before, an empty list of dogs coming back nil. */
  lemma RoundTrip(table: Table, id: int, reasons: seq<PendingReason>)
    requires |reasons| <= MAX_ORDINAL + 1
    ensures var back := FromRows(RowsOf(Saved(table, id, reasons), id));
      && |back| == |reasons|
      && forall i :: 0 <= i < |back| ==>
           && back[i].code == reasons[i].code
           && back[i].dogIds == if reasons[i].dogIds == Some([]) then None else reasons[i].dogIds
  {
    RowsOfSaved(table, id, reasons, MAX_ORDINAL + 1);
    var rows := RowsOf(Saved(table, id, reasons), id);
    forall i | 0 <= i < |rows|
      ensures FromRows(rows)[i] == FromRow(ToRow(reasons[i]))
    {
      FromRowsAt(rows, i);
    }
  }

  lemma {:induction false} OthersBelow(a: Table, b: Table, id: int, other: int, bound: nat)
    requires other != id && Without(a, id) == Without(b, id)
    ensures RowsBelow(a, other, bound) == RowsBelow(b, other, bound)
  {
    if bound == 0 {
    } else {
      OthersBelow(a, b, id, other, bound - 1);
      assert (other, bound - 1) in a <==> (other, bound - 1) in Without(a, id);
      assert (other, bound - 1) in b <==> (other, bound - 1) in Without(b, id);
      assert (other, bound - 1) in a ==> a[(other, bound - 1)] == Without(a, id)[(other, bound - 1)];
      assert (other, bound - 1) in b ==> b[(other, bound - 1)] == Without(b, id)[(other, bound - 1)];
    }
  }

  /** A save for one reservation, complete or broken off, never shows in the list of another. */
  lemma OthersAreUntouched(before: Table, after: Table, id: int, other: int)
    requires other != id && Without(before, id) == Without(after, id)
    ensures RowsOf(before, other) == RowsOf(after, other)
  {
    OthersBelow(before, after, id, other, MAX_ORDINAL + 1);
  }

  /** The last save wins completely; in particular saving twice is saving once. */
  lemma {:induction false} LastSaveWins(table: Table, id: int, first: seq<PendingReason>, second: seq<PendingReason>)
    ensures Saved(Saved(table, id, first), id, second) == Saved(table, id, second)
  {
    if second == [] {
      SavedRows(table, id, first);
    } else {
      LastSaveWins(table, id, first, second[..|second| - 1]);
    }
  }
}
