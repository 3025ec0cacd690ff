/** School activities (internal/domain/activity.go). Times and durations are nanoseconds. */
module Activities {

  import opened Durations
  import opened Outcomes

  datatype Kind = Socialization | Route | Individual | Extra

  datatype SizeBracket = Mini | Medium | Large | Unknown

  /** One row of the activities table, without its id and its descriptive text columns. */
  datatype ActivityRow = ActivityRow(
    kind: Kind, maxCapacity: int, durationInHours: int, date: int, closed: bool,
    dogId: Option<int>, sizeTarget: Option<SizeBracket>)

  /** The longest duration, in hours, whose nanoseconds fit a signed 64-bit time.Duration. */
  const MAX_EXACT_HOURS: int := 2_562_047

  function Duration(activity: ActivityRow): int {
    WrapInt64(activity.durationInHours * HOUR)
  }

  predicate IsFull(activity: ActivityRow, currentBookings: int) {
    currentBookings >= activity.maxCapacity
  }

  predicate IsInThePast(activity: ActivityRow, now: int) {
    activity.date < now
  }

  predicate IsFinished(activity: ActivityRow, now: int) {
    activity.date + Duration(activity) < now
  }

  predicate IsTargetedAtSize(activity: ActivityRow, size: SizeBracket) {
    activity.sizeTarget.None? || activity.sizeTarget.value == size
  }

  /** Below this many hours the nanoseconds wrap at most once. */
  const MAX_WRAPPED_ONCE_HOURS: int := 5_124_095

  /**
   * Exactly when "finished" implies "started", which closing relies on to mark a no-show: the
   * nanoseconds of the duration, taken modulo 2^64, must stay below 2^63. As long as they wrap at most
   * once, that is up to MAX_EXACT_HOURS and not beyond.
   */
  lemma FinishedImpliesStarted(activity: ActivityRow)
    ensures (forall now :: IsFinished(activity, now) ==> IsInThePast(activity, now))
      <==> activity.durationInHours * HOUR % TWO_TO_64 < TWO_TO_63
    ensures 0 < activity.durationInHours <= MAX_WRAPPED_ONCE_HOURS ==>
      (activity.durationInHours * HOUR % TWO_TO_64 < TWO_TO_63 <==> activity.durationInHours <= MAX_EXACT_HOURS)
  {
    SignOfDuration(activity);
    if Duration(activity) < 0 {
      assert IsFinished(activity, activity.date) && !IsInThePast(activity, activity.date);
    }
  }

  /** The duration is negative exactly when it has wrapped into the upper half of the 64-bit range. */
  lemma SignOfDuration(activity: ActivityRow)
    ensures Duration(activity) >= 0 <==> activity.durationInHours * HOUR % TWO_TO_64 < TWO_TO_63
  {
    var ns := activity.durationInHours * HOUR;
    var q, r := ns / TWO_TO_64, ns % TWO_TO_64;
    assert ns == q * TWO_TO_64 + r;
    if r < TWO_TO_63 {
      assert ns + TWO_TO_63 == q * TWO_TO_64 + (r + TWO_TO_63);
    } else {
      assert ns + TWO_TO_63 == (q + 1) * TWO_TO_64 + (r - TWO_TO_63);
    }
  }

  /** Up to MAX_EXACT_HOURS nothing wraps; one hour more does. */
  lemma DurationsThatFit(activity: ActivityRow)
    requires 0 < activity.durationInHours
    ensures activity.durationInHours <= MAX_EXACT_HOURS ==> Duration(activity) == activity.durationInHours * HOUR > 0
    ensures activity.durationInHours == MAX_EXACT_HOURS + 1 ==> Duration(activity) < 0
  {}

  /** Up to MAX_EXACT_HOURS an activity is finished once more than its duration has passed since it began. */
  lemma FinishedAfterItsDuration(activity: ActivityRow, now: int)
    requires 0 < activity.durationInHours <= MAX_EXACT_HOURS
    ensures IsFinished(activity, now) <==> now > activity.date + activity.durationInHours * HOUR
  {
    DurationsThatFit(activity);
  }

  /** The aggregate, as far as closing it goes. */
  class Activity {
    const id: int
    const loaded: ActivityRow
    var closed: bool

    constructor (id: int, row: ActivityRow)
      ensures this.id == id && loaded == row && Row() == row
    {
      this.id := id;
      loaded := row;
      closed := row.closed;
    }

    function Row(): ActivityRow
      reads this
    {
      loaded.(closed := closed)
    }

    method Close() returns (ok: bool)
      modifies this
      ensures ok == !old(closed)
      ensures Row() == old(Row()).(closed := true)
    {
      if closed {
        return false;
      }
      closed := true;
      return true;
    }
  }
}
