/**
 * Histories: no reservation ever returns to a status it left, and whom the deletion of an activity takes
 * along.
 */
module EngineHistory {

  import opened Reservations
  import opened Engine
  import opened EngineInvariant
  import opened EngineLocal
  import opened EngineCommit
  import opened EngineTheorems
  import opened EngineProgress

  /** No reservation or activity is written or added; some may be deleted. */
  ghost predicate Untouched(s: State, s': State) {
    && s'.ever == s.ever
    && (forall r :: r in s'.rows ==> r in s.rows && s'.rows[r] == s.rows[r])
    && (forall a :: a in s'.activities ==> a in s.activities && s'.activities[a] == s.activities[a])
  }

  // The statements before COMMIT leave the reservations alone.

  lemma LockingWritesNothing(s: State, client: int, t: Session)
    requires t.job.RegisterJob?
    ensures SameTables(s, LockActivity(s, client, t))
  {}

  lemma InsertWritesNothing(s: State, client: int, t: Session)
    requires t.job.RegisterJob?
    ensures SameTables(s, InsertReservation(s, client, t))
  {}

  lemma AdmissionWritesNothing(s: State, client: int, t: Session)
    requires t.job.RegisterJob?
    ensures SameTables(s, AdmitDog(s, client, t))
  {}

  lemma ReadWritesNothing(s: State, client: int, t: Session)
    ensures SameTables(s, LoadReservation(s, client, t))
  {}

  lemma PassReadWritesNothing(s: State, client: int, t: Session)
    ensures SameTables(s, LoadPass(s, client, t))
  {
    var s', id := LoadPass(s, client, t), PassIdOf(t);
    if t.forUpdate && !t.job.PatchPassJob? && !Free(s, client, OnPass(id)) {
      assert s' == s;
    } else if s' != Drop(s, client) {
      if id !in s.passes {
        assert s' == Put(s, client, t.(phase := PassWritten));
      } else {
        assert s' == Put(s, client, s'.sessions[client]);
      }
    }
  }

  lemma StatusWriteWritesNothing(s: State, client: int, t: Session)
    ensures SameTables(s, WriteReservation(s, client, t))
  {}

  lemma PassWriteWritesNothing(s: State, client: int, t: Session)
    ensures SameTables(s, WritePass(s, client, t))
  {
    if t.pass.Some? {
      EditWritesNothing(s, client, t, PassEditOf(t), t.pass.value.version);
    }
  }

  lemma EditWritesNothing(s: State, client: int, t: Session, edit: PassEdit, version: int)
    ensures SameTables(s, StoreEdit(s, client, t, edit, version))
  {}

  lemma BatchReadWritesNothing(s: State, client: int, t: Session)
    requires Batch(t.job)
    ensures SameTables(s, ReadActivity(s, client, t))
  {}

  lemma ListingWritesNothing(s: State, client: int, t: Session)
    requires Batch(t.job)
    ensures SameTables(s, ListReservations(s, client, t))
  {}

  lemma BatchWritesNothing(s: State, client: int, t: Session)
    requires Batch(t.job)
    ensures t.todo != [] ==> SameTables(s, ProcessNext(s, client, t))
    ensures SameTables(s, CloseActivity(s, client, t))
  {}

  lemma DeletionWritesNothing(s: State, client: int, t: Session)
    requires t.job.DeleteActivityJob?
    ensures SameTables(s, GuardDelete(s, client, t)) && SameTables(s, BeginDelete(s, client, t))
  {}

  lemma CascadeWritesNothing(s: State, client: int, t: Session)
    requires t.job.DeleteActivityJob?
    ensures t.todo != [] ==> SameTables(s, CascadeNext(s, client, t))
    ensures Untouched(s, DeleteRow(s, client, t))
  {}

  lemma FirstWritesNothing(s: State, client: int)
    requires client in s.sessions && s.sessions[client].phase == Begin
    ensures SameTables(s, Advance(s, client))
  {
    var t := s.sessions[client];
    if t.job.RegisterJob? {
      LockingWritesNothing(s, client, t);
    } else if Batch(t.job) {
      BatchReadWritesNothing(s, client, t);
    } else if t.job.PatchPassJob? {
      PassReadWritesNothing(s, client, t);
    } else if t.job.DeleteActivityJob? {
      DeletionWritesNothing(s, client, t);
    } else {
      ReadWritesNothing(s, client, t);
    }
  }

  lemma LoopWritesNothing(s: State, client: int)
    requires client in s.sessions && (s.sessions[client].phase == ActivityRead || s.sessions[client].phase == Listed)
    ensures SameTables(s, Advance(s, client))
  {
    var t := s.sessions[client];
    if Batch(t.job) {
      if t.phase == Listed {
        BatchWritesNothing(s, client, t);
      } else {
        ListingWritesNothing(s, client, t);
      }
    }
  }

  lemma DeleteWritesNothing(s: State, client: int)
    requires client in s.sessions && (s.sessions[client].phase == Guarded || s.sessions[client].phase == Deleting)
    ensures Untouched(s, Advance(s, client))
  {
    var t := s.sessions[client];
    if t.job.DeleteActivityJob? {
      if t.phase == Guarded {
        DeletionWritesNothing(s, client, t);
      } else {
        CascadeWritesNothing(s, client, t);
      }
    }
  }

  /** Only COMMIT writes reservations. */
  lemma OnlyCommitWrites(s: State, client: int)
    requires client in s.sessions && s.sessions[client].phase != Ready
    ensures Untouched(s, Advance(s, client))
  {
    var t := s.sessions[client];
    match t.phase
    case Begin => FirstWritesNothing(s, client);
    case ActivityLocked =>
      if t.job.RegisterJob? {
        AdmissionWritesNothing(s, client, t);
      }
    case Admitted => PassReadWritesNothing(s, client, t);
    case ReservationRead =>
      PassReadWritesNothing(s, client, t);
      StatusWriteWritesNothing(s, client, t);
    case PassRead => PassWriteWritesNothing(s, client, t);
    case PassWritten =>
      StatusWriteWritesNothing(s, client, t);
      if t.job.RegisterJob? {
        InsertWritesNothing(s, client, t);
      }
    case ActivityRead => LoopWritesNothing(s, client);
    case Listed => LoopWritesNothing(s, client);
    case Guarded => DeleteWritesNothing(s, client);
    case Deleting => DeleteWritesNothing(s, client);
  }

  lemma CommitFollowsArrows(s: State, client: int, r: int)
    requires Committable(s, client)
    ensures Follows(s.ever, Commit(s, client, s.sessions[client]).ever, r)
  {
    StatusesAreOfRows(s, client);
  }

  /** A reservation moves along at most one arrow, is never forgotten, and starts as a booking. */
  ghost predicate Follows(before: map<int, ReservationRow>, after: map<int, ReservationRow>, r: int) {
    && (r in before ==> r in after && (after[r] == before[r] || Arrow(before[r].status, after[r].status)))
    && (r !in before && r in after ==> HoldsSlot(after[r].status))
  }

  lemma StepFollowsArrows(s: State, event: Event, r: int)
    requires Inv(s)
    ensures Follows(s.ever, Step(s, event).ever, r)
  {
    if event.Proceed? && event.client in s.sessions {
      if s.sessions[event.client].phase == Ready {
        CommitFollowsArrows(s, event.client, r);
      } else {
        OnlyCommitWrites(s, event.client);
      }
    }
  }

  /** The statuses a reservation has had, oldest first, without repetition. */
  ghost function History(s0: State, events: seq<Event>, r: int): seq<Status> {
    if events == [] then Extended([], s0.ever, r)
    else Extended(History(s0, events[..|events| - 1], r), Run(s0, events).ever, r)
  }

  ghost function Extended(history: seq<Status>, ever: map<int, ReservationRow>, r: int): seq<Status> {
    if r in ever && (history == [] || history[|history| - 1] != ever[r].status) then history + [ever[r].status]
    else history
  }

  /** A path from a booking to the current status, or nothing for a reservation that never was. */
  ghost predicate TellsOf(history: seq<Status>, ever: map<int, ReservationRow>, r: int) {
    && IsPath(history)
    && (if r in ever then history != [] && HoldsSlot(history[0]) && history[|history| - 1] == ever[r].status else history == [])
  }

  lemma PathGrows(history: seq<Status>, before: map<int, ReservationRow>, after: map<int, ReservationRow>, r: int)
    requires TellsOf(history, before, r) && Follows(before, after, r)
    ensures TellsOf(Extended(history, after, r), after, r)
  {}

  /**
   * Every history is a path of the state machine that starts with a booking and ends with the current
   * status; so it has at most four entries, that is, at most three changes, and never repeats one.
   */
  lemma HistoryIsAPath(s0: State, events: seq<Event>, r: int)
    requires Opening(s0)
    ensures var h := History(s0, events, r); var s := Run(s0, events);
      && IsPath(h) && |h| <= 4
      && (forall i, j :: 0 <= i < j < |h| ==> h[i] != h[j])
      && (if r in s.ever then h != [] && HoldsSlot(h[0]) && h[|h| - 1] == s.ever[r].status else h == [])
  {
    HistoryGrows(s0, events, r);
    var h := History(s0, events, r);
    if |h| > 1 {
      PathsNeverReturn(h, 0, |h| - 1);
    }
    forall i, j | 0 <= i < j < |h|
      ensures h[i] != h[j]
    {
      PathsNeverReturn(h, i, j);
    }
  }

  lemma {:induction false} HistoryGrows(s0: State, events: seq<Event>, r: int)
    requires Opening(s0)
    ensures TellsOf(History(s0, events, r), Run(s0, events).ever, r)
  {
    if events == [] {
    } else {
      var n := |events| - 1;
      HistoryGrows(s0, events[..n], r);
      OpeningHolds(s0);
      RunStepFollows(s0, events, n, r);
      assert events[..n + 1] == events;
      PathGrows(History(s0, events[..n], r), Run(s0, events[..n]).ever, Run(s0, events).ever, r);
    }
  }

  // ---------- Winners ----------

  /** This event commits a change of reservation r away from status x. */
  ghost predicate Leaves(s: State, event: Event, r: int, x: Status) {
    r in s.ever && s.ever[r].status == x
    && r in Step(s, event).ever && Step(s, event).ever[r].status != x
  }

  lemma RunStepFollows(s0: State, events: seq<Event>, j: nat, r: int)
    requires Inv(s0) && j < |events|
    ensures Follows(Run(s0, events[..j]).ever, Run(s0, events[..j + 1]).ever, r)
  {
    RunKeeps(s0, events[..j]);
    StepFollowsArrows(Run(s0, events[..j]), events[j], r);
    RunAppended(s0, events, j);
  }

  /** The reservations table after each number of events. */
  lemma TrailOf(s0: State, events: seq<Event>, r: int) returns (trail: seq<map<int, ReservationRow>>)
    requires Inv(s0)
    ensures |trail| == |events| + 1
    ensures forall k :: 0 <= k <= |events| ==> trail[k] == Run(s0, events[..k]).ever
    ensures IsTrail(trail, r)
  {
    trail := seq(|events| + 1, k requires 0 <= k <= |events| => Run(s0, events[..k]).ever);
    forall k | 0 <= k < |trail| - 1
      ensures Follows(trail[k], trail[k + 1], r)
    {
      RunStepFollows(s0, events, k, r);
    }
  }

  ghost predicate IsTrail(trail: seq<map<int, ReservationRow>>, r: int) {
    forall k :: 0 <= k < |trail| - 1 ==> Follows(trail[k], trail[k + 1], r)
  }

  lemma {:induction false} RankFalls(trail: seq<map<int, ReservationRow>>, i: nat, j: nat, r: int)
    requires IsTrail(trail, r) && i <= j < |trail| && r in trail[i]
    ensures r in trail[j] && Rank(trail[j][r].status) <= Rank(trail[i][r].status)
    decreases j
  {
    if i == j {
    } else {
      RankFalls(trail, i, j - 1, r);
      assert Follows(trail[j - 1], trail[j - 1 + 1], r);
    }
  }

  lemma LeavingFalls(before: map<int, ReservationRow>, after: map<int, ReservationRow>, r: int)
    requires Follows(before, after, r) && r in before && r in after && after[r].status != before[r].status
    ensures Rank(after[r].status) < Rank(before[r].status)
  {}

  /**
   * No ABA: of all the clients that, at any times, saw a reservation in the same status, at most one
   * ever commits a change away from it.
   */
  lemma AtMostOneWinner(s0: State, events: seq<Event>, i: nat, j: nat, r: int, x: Status)
    requires Inv(s0) && i < j < |events|
    requires Leaves(Run(s0, events[..i]), events[i], r, x)
    ensures !Leaves(Run(s0, events[..j]), events[j], r, x)
  {
    var trail := TrailOf(s0, events, r);
    RunAppended(s0, events, i);
    LeavingFalls(trail[i], trail[i + 1], r);
    RankFalls(trail, i + 1, j, r);
  }

  lemma RunAppended(s0: State, events: seq<Event>, i: nat)
    requires i < |events|
    ensures Run(s0, events[..i + 1]) == Step(Run(s0, events[..i]), events[i])
  {
    assert events[..i + 1][..i] == events[..i];
  }

  // ---------- Who a deletion takes along ----------

  lemma HoldersAreOldOrNew(s: State, event: Event, a: int)
    requires Inv(s)
    ensures forall r :: r in Holders(Step(s, event).rows, a) ==> r in Holders(s.rows, a) || r !in s.ever
  {
    if event.Proceed? && event.client in s.sessions {
      if s.sessions[event.client].phase == Ready {
        CommitHolders(s, event.client, a);
        StatusesAreOfRows(s, event.client);
      } else {
        OnlyCommitWrites(s, event.client);
      }
    }
  }

  /** Whoever holds a slot after a run held it before, or was committed during the run. */
  lemma {:induction false} HoldersOfRun(s: State, events: seq<Event>, a: int)
    requires Inv(s)
    ensures Inv(Run(s, events))
    ensures forall r :: r in s.ever ==> r in Run(s, events).ever
    ensures forall r :: r in Holders(Run(s, events).rows, a) ==> r in Holders(s.rows, a) || r !in s.ever
  {
    if events == [] {
    } else {
      var init, last := events[..|events| - 1], events[|events| - 1];
      var before := Run(s, init);
      HoldersOfRun(s, init, a);
      StepKeeps(before, last);
      HoldersAreOldOrNew(before, last, a);
      forall r | r in before.ever
        ensures r in Step(before, last).ever
      {
        StepFollowsArrows(before, last, r);
      }
    }
  }

  /**
   * A deletion that passed its guard takes all reservations of the activity along; those among them
   * that hold a slot are exactly the ones committed after the guard that have not released it since.
   */
  lemma DeletionTakesLatecomers(guarded: State, events: seq<Event>, client: int, a: int)
    requires Inv(guarded) && Holders(guarded.rows, a) == {}
    requires var s := Run(guarded, events);
      && client in s.sessions && s.sessions[client].phase == Deleting && s.sessions[client].todo == []
      && s.sessions[client].job.DeleteActivityJob? && s.sessions[client].job.activityId == a
    ensures var s := Run(guarded, events); var s' := Step(s, Proceed(client));
      && (forall r :: r in s.rows && r !in s'.rows <==> r in RowsOf(s.rows, a))
      && (forall r :: r in RowsOf(s.rows, a) && HoldsSlot(s.rows[r].status) ==> r !in guarded.ever)
  {
    HoldersOfRun(guarded, events, a);
    var s := Run(guarded, events);
    assert Step(s, Proceed(client)) == DeleteRow(s, client, s.sessions[client]);
    forall r | r in RowsOf(s.rows, a) && HoldsSlot(s.rows[r].status)
      ensures r !in guarded.ever
    {
      assert r in Holders(s.rows, a);
    }
  }

  // ---------- Sealed activities ----------

  /**
   * Nobody holds a slot of the activity and nobody can get one any more: it is closed or gone, and no
   * registration for it has got past its first statement.
   */
  ghost predicate Sealed(s: State, a: int) {
    Holders(s.rows, a) == {} && Shut(s, a) && forall c :: c in s.sessions ==> NotEntered(s.sessions[c], a)
  }

  ghost predicate Shut(s: State, a: int) {
    a in s.activities ==> s.activities[a].closed
  }

  predicate NotEntered(t: Session, a: int) {
    t.job.RegisterJob? && t.job.activityId == a ==> t.phase == Begin
  }

  lemma CommitOpensNothing(s: State, client: int, a: int)
    requires Committable(s, client) && Shut(s, a)
    ensures Shut(Commit(s, client, s.sessions[client]), a)
  {}

  lemma AdvanceKeepsShut(s: State, client: int, a: int)
    requires Inv(s) && client in s.sessions && Shut(s, a)
    ensures Shut(Advance(s, client), a)
  {
    if s.sessions[client].phase == Ready {
      CommitOpensNothing(s, client, a);
    } else {
      OnlyCommitWrites(s, client);
    }
  }

  lemma NobodyEnters(s: State, client: int, a: int)
    requires Inv(s) && client in s.sessions && Shut(s, a) && NotEntered(s.sessions[client], a)
    ensures var s' := Advance(s, client); client in s'.sessions ==> NotEntered(s'.sessions[client], a)
  {
    var t := s.sessions[client];
    InvIsStaged(s);
    AdvanceOutcome(s, client);
    if t.job.RegisterJob? && t.job.activityId == a {
      assert Advance(s, client) == LockActivity(s, client, t);
      assert LockActivity(s, client, t) == s || LockActivity(s, client, t) == Drop(s, client);
    }
  }

  lemma SealHolds(s: State, event: Event, a: int)
    requires Inv(s) && Sealed(s, a)
    ensures Sealed(Step(s, event), a)
  {
    if event.Proceed? && event.client in s.sessions {
      var client := event.client;
      AdvanceKeepsShut(s, client, a);
      NobodyEnters(s, client, a);
      OthersStay(s, client);
      NoHolderOutOfNothing(s, client, a);
    }
  }

  lemma FewerHolders(s: State, s': State, a: int)
    requires Untouched(s, s')
    ensures Holders(s'.rows, a) <= Holders(s.rows, a)
  {
    forall r | r in Holders(s'.rows, a)
      ensures r in Holders(s.rows, a)
    {
      assert r in s.rows && s.rows[r] == s'.rows[r];
    }
  }

  lemma NoHolderOutOfNothing(s: State, client: int, a: int)
    requires Inv(s) && client in s.sessions && Holders(s.rows, a) == {} && NotEntered(s.sessions[client], a)
    ensures Holders(Advance(s, client).rows, a) == {}
  {
    if s.sessions[client].phase == Ready {
      CommitHolders(s, client, a);
    } else {
      OnlyCommitWrites(s, client);
      FewerHolders(s, Advance(s, client), a);
    }
  }

  /**
   * A guard passed on a sealed activity keeps its promise: in no run from there does anybody hold a slot
   * of it again, so no deletion of it ever takes a slot holder along.
   */
  lemma {:induction false} SealedGuardsHold(guarded: State, events: seq<Event>, a: int)
    requires Inv(guarded) && Sealed(guarded, a)
    ensures Inv(Run(guarded, events)) && Sealed(Run(guarded, events), a)
  {
    if events == [] {
    } else {
      var init, last := events[..|events| - 1], events[|events| - 1];
      SealedGuardsHold(guarded, init, a);
      SealHolds(Run(guarded, init), last, a);
      StepKeeps(Run(guarded, init), last);
    }
  }
}
