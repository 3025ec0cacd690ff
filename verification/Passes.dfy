/** Prepaid passes and their append-only movement log (internal/domain/pass.go). */
module Passes {

  import opened Outcomes

  datatype PassType = Generic | Special

  /**
   * One row of the passes table, without its id. `version` stands for updated_at: the number of the
   * write that last touched the row.
   */
  datatype PassRow = PassRow(
    userId: int, numOfSessions: int, remaining: int, price: int, passType: PassType,
    expiresAt: Option<int>, isPaid: bool, version: int)

  /** The zero time.Time, which no stored row carries. */
  const ZERO_VERSION: int := 0

  /** What NewPass accepts, for a new pass and for one loaded from the database. */
  predicate Acceptable(id: int, row: PassRow) {
    && id >= 0 && 0 < row.numOfSessions && 0 <= row.remaining <= row.numOfSessions
    && row.price >= 0 && row.userId > 0 && row.version != ZERO_VERSION
  }

  /** The texts the use cases write in the reason column; Blank is the empty string. */
  datatype Reason =
    | Blank
    | Booked(activityId: int, dogId: int)
    | RefundedInTime(reservationId: int)
    | RefundedRejection(reservationId: int)
    | RefundedForgiveness(reservationId: int)

  datatype Movement = Movement(passId: int, amount: int, reason: Reason)

  datatype PassError = EmptyReason | Exhausted | Expired | NothingToRefund

  /** A pass in memory: its row and the movements of the current unit of work. */
  datatype Ledger = Ledger(row: PassRow, pending: seq<Movement>)

  predicate IsExpired(row: PassRow, now: int) {
    row.expiresAt.Some? && now > row.expiresAt.value
  }

  predicate IsExhausted(row: PassRow) {
    row.remaining <= 0
  }

  predicate CanRefund(row: PassRow) {
    row.remaining < row.numOfSessions
  }

  function Consume(ledger: Ledger, passId: int, reason: Reason, now: int): Result<Ledger, PassError> {
    var row := ledger.row;
    if reason == Blank then Failure(EmptyReason)
    else if IsExhausted(row) then Failure(Exhausted)
    else if IsExpired(row, now) then Failure(Expired)
    else Success(Ledger(row.(remaining := row.remaining - 1),
                        ledger.pending + [Movement(passId, -1, reason)]))
  }

  function Refund(ledger: Ledger, passId: int, reason: Reason): Result<Ledger, PassError> {
    var row := ledger.row;
    if reason == Blank then Failure(EmptyReason)
    else if !CanRefund(row) then Failure(NothingToRefund)
    else Success(Ledger(row.(remaining := row.remaining + 1),
                        ledger.pending + [Movement(passId, 1, reason)]))
  }

  /** Sum of the movements recorded against one pass. */
  function AmountOn(movements: seq<Movement>, passId: int): int {
    if movements == [] then 0
    else
      var last := movements[|movements| - 1];
      AmountOn(movements[..|movements| - 1], passId) + if last.passId == passId then last.amount else 0
  }

  lemma {:induction false} AmountOfConcatenation(a: seq<Movement>, b: seq<Movement>, passId: int)
    ensures AmountOn(a + b, passId) == AmountOn(a, passId) + AmountOn(b, passId)
  {
    if b == [] {
      assert a + b == a;
    } else {
      var init := b[..|b| - 1];
      assert (a + b)[..|a + b| - 1] == a + init;
      AmountOfConcatenation(a, init, passId);
    }
  }

  /** One call on the aggregate; a refused call leaves it as it was. */
  datatype Call = ConsumeCall(reason: Reason, now: int) | RefundCall(reason: Reason)

  function Perform(ledger: Ledger, passId: int, call: Call): Ledger {
    var result := match call
      case ConsumeCall(reason, now) => Consume(ledger, passId, reason, now)
      case RefundCall(reason) => Refund(ledger, passId, reason);
    if result.Success? then result.value else ledger
  }

  function PerformAll(ledger: Ledger, passId: int, calls: seq<Call>): Ledger {
    if calls == [] then ledger
    else Perform(PerformAll(ledger, passId, calls[..|calls| - 1]), passId, calls[|calls| - 1])
  }

  /**
   * Counter and pending movements describe the same fact after any sequence of calls, accepted or
   * refused, and the counter stays between 0 and the size of the pass.
   */
  lemma {:induction false} UnitOfWorkNeverDrifts(ledger: Ledger, passId: int, calls: seq<Call>)
    requires 0 <= ledger.row.remaining <= ledger.row.numOfSessions
    ensures var after := PerformAll(ledger, passId, calls);
      && after.row == ledger.row.(remaining := after.row.remaining)
      && 0 <= after.row.remaining <= after.row.numOfSessions
      && after.row.remaining - AmountOn(after.pending, passId)
         == ledger.row.remaining - AmountOn(ledger.pending, passId)
      && ledger.pending <= after.pending
  {
    if calls == [] {
    } else {
      var init, last := calls[..|calls| - 1], calls[|calls| - 1];
      UnitOfWorkNeverDrifts(ledger, passId, init);
      var before := PerformAll(ledger, passId, init);
      var after := Perform(before, passId, last);
      if after != before {
        assert after.pending[..|after.pending| - 1] == before.pending;
      }
    }
  }

  /** A pass that could be loaded can be loaded again after any unit of work. */
  lemma SavedPassesLoad(ledger: Ledger, passId: int, calls: seq<Call>)
    requires Acceptable(passId, ledger.row)
    ensures Acceptable(passId, PerformAll(ledger, passId, calls).row)
  {
    UnitOfWorkNeverDrifts(ledger, passId, calls);
  }

  datatype PassField =
    | IdField | NumOfSessionsField | RemainingSessionsField | PriceField | PassTypeField | UserIdField
    | CreatedAtField | UpdatedAtField

  /** The two recognised values of the pass_type column. */
  function ParseType(text: string): Option<PassType> {
    if text == "GENERICO" then Some(Generic) else if text == "ESPECIFICO" then Some(Special) else None
  }

  /** Refuses a pass by its first bad field; an accepted one starts with no pending movement. */
  method NewPass(id: int, numOfSessions: int, remaining: int, price: int, passType: string, userId: int,
                 createdAt: int, updatedAt: int, expiresAt: Option<int>, isPaid: bool) returns (result: Result<Pass, PassField>)
    ensures result.Success? <==>
      && id >= 0 && 0 < numOfSessions && 0 <= remaining <= numOfSessions && price >= 0
      && (passType == "GENERICO" || passType == "ESPECIFICO") && userId > 0 && createdAt != 0 && updatedAt != 0
    ensures result.Success? ==>
      && var row := PassRow(userId, numOfSessions, remaining, price, if passType == "GENERICO" then Generic else Special, expiresAt, isPaid, updatedAt);
        && fresh(result.value) && result.value.id == id && result.value.State() == Ledger(row, []) && Acceptable(id, row)
    ensures result == Failure(IdField) <==> id < 0
    ensures result == Failure(NumOfSessionsField) <==> id >= 0 && numOfSessions <= 0
    ensures result == Failure(RemainingSessionsField) <==> id >= 0 && numOfSessions > 0 && !(0 <= remaining <= numOfSessions)
    ensures result == Failure(PriceField) <==> id >= 0 && numOfSessions > 0 && 0 <= remaining <= numOfSessions && price < 0
    ensures result == Failure(PassTypeField) ==> passType != "GENERICO" && passType != "ESPECIFICO"
    ensures result == Failure(UserIdField) ==> userId <= 0
    ensures result == Failure(CreatedAtField) ==> createdAt == 0
    ensures result == Failure(UpdatedAtField) ==> createdAt != 0 && updatedAt == 0
  {
    if id < 0 {
      return Failure(IdField);
    }
    if numOfSessions <= 0 {
      return Failure(NumOfSessionsField);
    }
    if remaining < 0 || remaining > numOfSessions {
      return Failure(RemainingSessionsField);
    }
    if price < 0 {
      return Failure(PriceField);
    }
    var parsed := ParseType(passType);
    if parsed.None? {
      return Failure(PassTypeField);
    }
    if userId <= 0 {
      return Failure(UserIdField);
    }
    if createdAt == ZERO_VERSION {
      return Failure(CreatedAtField);
    }
    if updatedAt == ZERO_VERSION {
      return Failure(UpdatedAtField);
    }
    var pass := new Pass(id, PassRow(userId, numOfSessions, remaining, price, parsed.value, expiresAt, isPaid, updatedAt));
    return Success(pass);
  }

  /** The aggregate. */
  class Pass {
    const id: int
    const userId: int
    const numOfSessions: int
    var remainingSessions: int
    var price: int
    var passType: PassType
    var expiresAt: Option<int>
    var isPaid: bool
    const updatedAt: int
    var pendingMovements: seq<Movement>

    constructor (id: int, row: PassRow)
      ensures this.id == id && State() == Ledger(row, [])
    {
      this.id := id;
      userId, numOfSessions, updatedAt := row.userId, row.numOfSessions, row.version;
      remainingSessions, price, passType := row.remaining, row.price, row.passType;
      expiresAt, isPaid := row.expiresAt, row.isPaid;
      pendingMovements := [];
    }

    function State(): Ledger
      reads this
    {
      Ledger(PassRow(userId, numOfSessions, remainingSessions, price, passType, expiresAt, isPaid, updatedAt),
             pendingMovements)
    }

    method ConsumeSession(reason: Reason, now: int) returns (result: Result<Movement, PassError>)
      modifies this
      ensures var spec := Consume(old(State()), id, reason, now);
        && State() == (if spec.Success? then spec.value else old(State()))
        && result == (if spec.Success? then Success(Movement(id, -1, reason)) else Failure(spec.error))
      ensures result.Success? <==>
        reason != Blank && old(remainingSessions) > 0 && (expiresAt.None? || now <= expiresAt.value)
      ensures result == Failure(EmptyReason) <==> reason == Blank
      ensures result == Failure(Exhausted) <==> reason != Blank && old(remainingSessions) <= 0
      ensures result.Success? ==>
        && remainingSessions == old(remainingSessions) - 1
        && pendingMovements == old(pendingMovements) + [Movement(id, -1, reason)]
      ensures State() == old(State()).(row := old(State()).row.(remaining := remainingSessions), pending := pendingMovements)
      ensures result.Failure? ==> State() == old(State())
    {
      if reason == Blank {
        return Failure(EmptyReason);
      }
      if remainingSessions <= 0 {
        return Failure(Exhausted);
      }
      if expiresAt.Some? && now > expiresAt.value {
        return Failure(Expired);
      }
      var movement := Movement(id, -1, reason);
      pendingMovements := pendingMovements + [movement];
      remainingSessions := remainingSessions - 1;
      return Success(movement);
    }

    method RefundSession(reason: Reason) returns (result: Result<Movement, PassError>)
      modifies this
      ensures var spec := Refund(old(State()), id, reason);
        && State() == (if spec.Success? then spec.value else old(State()))
        && result == (if spec.Success? then Success(Movement(id, 1, reason)) else Failure(spec.error))
      ensures result.Success? <==> reason != Blank && old(remainingSessions) < numOfSessions
      ensures result == Failure(EmptyReason) <==> reason == Blank
      ensures result == Failure(NothingToRefund) <==> reason != Blank && old(remainingSessions) >= numOfSessions
      ensures result.Success? ==>
        && remainingSessions == old(remainingSessions) + 1
        && pendingMovements == old(pendingMovements) + [Movement(id, 1, reason)]
      ensures State() == old(State()).(row := old(State()).row.(remaining := remainingSessions), pending := pendingMovements)
      ensures result.Failure? ==> State() == old(State())
    {
      if reason == Blank {
        return Failure(EmptyReason);
      }
      if remainingSessions >= numOfSessions {
        return Failure(NothingToRefund);
      }
      var movement := Movement(id, 1, reason);
      pendingMovements := pendingMovements + [movement];
      remainingSessions := remainingSessions + 1;
      return Success(movement);
    }

    method ClearPendingMovements()
      modifies this`pendingMovements
      ensures State() == Ledger(old(State()).row, [])
    {
      pendingMovements := [];
    }
  }
}
