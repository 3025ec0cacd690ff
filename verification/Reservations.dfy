/** The reservation life cycle (internal/domain/reservation.go). */
module Reservations {

  import opened Outcomes
  import opened Durations

  datatype Status =
    | Confirmed
    | Completed
    | CancelledInTime
    | CancelledLate
    | Forgiven
    | NoShow
    | PendingToConfirm

  /** One row of the reservations table, without its id (the table's key). */
  datatype ReservationRow = ReservationRow(activityId: int, dogId: int, passId: int, status: Status)

  datatype LifecycleError = WrongStatus(current: Status)

  /** The transitions the aggregate offers. Times are nanoseconds. */
  datatype Transition =
    | Cancelling(activityDate: int, now: int)
    | Completing
    | MarkingNoShow
    | Forgiving
    | ConfirmingPending
    | RejectingPending

  const CANCELLATION_LATE_WINDOW: int := 2 * HOUR

  /** What each transition makes of a status; the six methods below are proved against it. */
  function Apply(status: Status, transition: Transition): Result<Status, LifecycleError> {
    match transition
    case Cancelling(activityDate, now) =>
      if status != Confirmed then Failure(WrongStatus(status))
      else if now > activityDate - CANCELLATION_LATE_WINDOW then Success(CancelledLate)
      else Success(CancelledInTime)
    case Completing => if status == Confirmed then Success(Completed) else Failure(WrongStatus(status))
    case MarkingNoShow => if status == Confirmed then Success(NoShow) else Failure(WrongStatus(status))
    case Forgiving => if status == CancelledLate then Success(Forgiven) else Failure(WrongStatus(status))
    case ConfirmingPending => if status == PendingToConfirm then Success(Confirmed) else Failure(WrongStatus(status))
    case RejectingPending => if status == PendingToConfirm then Success(CancelledInTime) else Failure(WrongStatus(status))
  }

  /** CONFIRMED and PENDING_TO_CONFIRM bookings occupy a place. */
  predicate HoldsSlot(status: Status) {
    status == Confirmed || status == PendingToConfirm
  }

  /** A session stays paid for unless the reservation ended CANCELLED_IN_TIME or FORGIVEN. */
  predicate Charged(status: Status) {
    status != CancelledInTime && status != Forgiven
  }

  /** Reservations of an activity that hold a slot. */
  function Holders(rows: map<int, ReservationRow>, activityId: int): set<int> {
    set r | r in rows && rows[r].activityId == activityId && HoldsSlot(rows[r].status)
  }

  function RowsOf(rows: map<int, ReservationRow>, activityId: int): set<int> {
    set r | r in rows && rows[r].activityId == activityId
  }

  function ConfirmedOf(rows: map<int, ReservationRow>, activityId: int): set<int> {
    set r | r in RowsOf(rows, activityId) && rows[r].status == Confirmed
  }

  /** The arrows of the documented state machine, drawn independently of Apply. */
  predicate Arrow(before: Status, after: Status) {
    match before
    case PendingToConfirm => after == Confirmed || after == CancelledInTime
    case Confirmed => after == CancelledInTime || after == CancelledLate || after == Completed || after == NoShow
    case CancelledLate => after == Forgiven
    case _ => false
  }

  /** Strictly falls along every arrow. */
  function Rank(status: Status): nat {
    match status
    case PendingToConfirm => 3
    case Confirmed => 2
    case CancelledLate => 1
    case _ => 0
  }

  /** The code offers exactly the documented arrows: none missing, none extra. */
  lemma ArrowsAreExactlyTheTransitions(before: Status, after: Status)
    ensures Arrow(before, after) <==> exists transition :: Apply(before, transition) == Success(after)
  {
    if Arrow(before, after) {
      var witnesses := [Cancelling(CANCELLATION_LATE_WINDOW, 0), Cancelling(CANCELLATION_LATE_WINDOW, 1),
                        Completing, MarkingNoShow, Forgiving, ConfirmingPending, RejectingPending];
      assert Apply(Confirmed, witnesses[0]) == Success(CancelledInTime);
      assert Apply(Confirmed, witnesses[1]) == Success(CancelledLate);
      assert Apply(Confirmed, witnesses[2]) == Success(Completed);
      assert Apply(Confirmed, witnesses[3]) == Success(NoShow);
      assert Apply(CancelledLate, witnesses[4]) == Success(Forgiven);
      assert Apply(PendingToConfirm, witnesses[5]) == Success(Confirmed);
      assert Apply(PendingToConfirm, witnesses[6]) == Success(CancelledInTime);
    }
  }

  /** A history is a path in the state machine. */
  ghost predicate IsPath(history: seq<Status>) {
    forall i :: 0 < i < |history| ==> Arrow(history[i - 1], history[i])
  }

  /**
   * Along a path the rank falls at every step, so a row changes status at most three times, never
   * returns to a status it left (the absence of ABA a compare-and-set on status relies on), and once
   * it has stopped holding a slot or stopped being charged it never starts again.
   */
  lemma {:induction false} PathsNeverReturn(history: seq<Status>, i: nat, j: nat)
    requires IsPath(history) && i < j < |history|
    ensures Rank(history[j]) + (j - i) <= Rank(history[i])
    ensures history[j] != history[i]
    ensures j - i <= 3
    ensures HoldsSlot(history[j]) ==> HoldsSlot(history[i])
    ensures Charged(history[j]) ==> Charged(history[i])
    decreases j
  {
    assert Arrow(history[j - 1], history[j]);
    if i == j - 1 {
    } else {
      PathsNeverReturn(history, i, j - 1);
    }
  }

  /** The bound of three is attained. */
  lemma LongestPath()
    ensures IsPath([PendingToConfirm, Confirmed, CancelledLate, Forgiven])
  {}

  /** The aggregate the use cases load, transition in memory and write back. */
  class Reservation {
    const id: int
    const activityId: int
    const dogId: int
    const passId: int
    var status: Status

    constructor (id: int, row: ReservationRow)
      ensures this.id == id && Row() == row
    {
      this.id := id;
      activityId, dogId, passId := row.activityId, row.dogId, row.passId;
      status := row.status;
    }

    function Row(): ReservationRow
      reads this
    {
      ReservationRow(activityId, dogId, passId, status)
    }

    method Cancel(activityDate: int, now: int) returns (result: Result<Status, LifecycleError>)
      modifies this
      ensures result == Apply(old(status), Cancelling(activityDate, now))
      ensures result.Failure? <==> old(status) != Confirmed
      ensures result == Success(CancelledLate) <==> old(status) == Confirmed && activityDate - now < 2 * HOUR
      ensures result == Success(CancelledInTime) <==> old(status) == Confirmed && activityDate - now >= 2 * HOUR
      ensures status == if result.Success? then result.value else old(status)
    {
      if status != Confirmed {
        return Failure(WrongStatus(status));
      }
      if now > activityDate - CANCELLATION_LATE_WINDOW {
        status := CancelledLate;
      } else {
        status := CancelledInTime;
      }
      return Success(status);
    }

    method Complete() returns (result: Result<Status, LifecycleError>)
      modifies this
      ensures result == Apply(old(status), Completing)
      ensures result == if old(status) == Confirmed then Success(Completed) else Failure(WrongStatus(old(status)))
      ensures status == if result.Success? then result.value else old(status)
    {
      if status != Confirmed {
        return Failure(WrongStatus(status));
      }
      status := Completed;
      return Success(status);
    }

    method MarkNoShow() returns (result: Result<Status, LifecycleError>)
      modifies this
      ensures result == Apply(old(status), MarkingNoShow)
      ensures result == if old(status) == Confirmed then Success(NoShow) else Failure(WrongStatus(old(status)))
      ensures status == if result.Success? then result.value else old(status)
    {
      if status != Confirmed {
        return Failure(WrongStatus(status));
      }
      status := NoShow;
      return Success(status);
    }

    method Forgive() returns (result: Result<Status, LifecycleError>)
      modifies this
      ensures result == Apply(old(status), Forgiving)
      ensures result == if old(status) == CancelledLate then Success(Forgiven) else Failure(WrongStatus(old(status)))
      ensures status == if result.Success? then result.value else old(status)
    {
      if status != CancelledLate {
        return Failure(WrongStatus(status));
      }
      status := Forgiven;
      return Success(status);
    }

    method ConfirmPending() returns (result: Result<Status, LifecycleError>)
      modifies this
      ensures result == Apply(old(status), ConfirmingPending)
      ensures result == if old(status) == PendingToConfirm then Success(Confirmed) else Failure(WrongStatus(old(status)))
      ensures status == if result.Success? then result.value else old(status)
    {
      if status != PendingToConfirm {
        return Failure(WrongStatus(status));
      }
      status := Confirmed;
      return Success(status);
    }

    method RejectPending() returns (result: Result<Status, LifecycleError>)
      modifies this
      ensures result == Apply(old(status), RejectingPending)
      ensures result == if old(status) == PendingToConfirm then Success(CancelledInTime) else Failure(WrongStatus(old(status)))
      ensures status == if result.Success? then result.value else old(status)
    {
      if status != PendingToConfirm {
        return Failure(WrongStatus(status));
      }
      status := CancelledInTime;
      return Success(status);
    }
  }
}
