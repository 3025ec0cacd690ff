/**
 * The statement-by-statement machine and the batch use cases describe the same thing: a batch running
 * alone ends with exactly the tables that CloseActivity or BulkComplete leaves.
 */
module EngineSerial {

  import opened Outcomes
  import opened Counting
  import opened Reservations
  import opened Activities
  import opened Compatibility
  import opened Engine
  import Store
  import BatchClose
  import BatchLaws

  /** Statement after statement of one client. */
  ghost function Steps(s: State, client: int, n: nat): State {
    if n == 0 then s else Step(Steps(s, client, n - 1), Proceed(client))
  }

  function TablesOf(s: State, created: seq<int>): Store.Tables {
    Store.Tables(s.activities, s.passes, s.rows, created, s.movements)
  }

  function NoShowsOf(job: Job): set<int> {
    if job.CloseJob? then job.noShows else {}
  }

  function WorldOf(s: State): BatchClose.World {
    BatchClose.World(s.dogs, s.activities)
  }

  predicate OwnersExist(s: State) {
    forall d :: d in s.dogs ==> s.dogs[d].userId > 0
  }

  /** Only this client is in flight, and it is listing off `ids`, of which the first k are done. */
  ghost predicate Processing(s: State, client: int, ids: seq<int>, k: nat) {
    && k <= |ids| && Ascending(ids) && s.sessions.Keys == {client}
    && (forall id :: id in ids ==> id > 0 && id in s.rows)
    && var t := s.sessions[client];
      && Batch(t.job) && t.phase == Listed && t.todo == ids[k..]
      && t.work == NO_WORK.(statuses := t.work.statuses)
      && t.work.statuses.Keys == SetOf(ids[..k])
      && (forall id :: id in t.work.statuses ==> t.work.statuses[id] == if id in NoShowsOf(t.job) then NoShow else Completed)
      && ActivityIdOf(t.job) in s.activities && t.seenClosed == s.activities[ActivityIdOf(t.job)].closed
  }

  /** One reservation is refused by the machine exactly when the use case refuses it. */
  lemma TargetIsVerdict(s: State, job: Job, id: int)
    requires Batch(job) && OwnersExist(s) && id > 0 && id in s.rows
    ensures var target := BatchTarget(s, job, id, s.rows[id]);
      && (target.Some? <==> BatchClose.CanSettle(WorldOf(s), s.rows, id, NoShowsOf(job), job.now))
      && (target.Some? ==> target.value == if id in NoShowsOf(job) then NoShow else Completed)
  {}

  lemma ProcessOne(s: State, client: int, ids: seq<int>, k: nat)
    requires Processing(s, client, ids, k) && k < |ids| && OwnersExist(s)
    ensures var job := s.sessions[client].job; var after := Step(s, Proceed(client));
      if BatchClose.CanSettle(WorldOf(s), s.rows, ids[k], NoShowsOf(job), job.now) then
        Processing(after, client, ids, k + 1) && after.(sessions := s.sessions) == s && after.sessions[client].job == job
      else after == s.(sessions := map[])
  {
    var t, id := s.sessions[client], ids[k];
    assert t.todo != [] && t.todo[0] == id && id in ids;
    assert ids[k..][1..] == ids[k + 1..];
    assert id !in ids[..k];
    assert ids[..k + 1] == ids[..k] + [id];
    TargetIsVerdict(s, t.job, id);
    assert Free(s, client, OnReservation(id));
    if !BatchClose.CanSettle(WorldOf(s), s.rows, id, NoShowsOf(t.job), t.job.now) {
      assert s.sessions - {client} == map[];
    } else {
      var target := if id in NoShowsOf(t.job) then NoShow else Completed;
      var t' := t.(todo := t.todo[1..], locks := t.locks + {OnReservation(id)},
                   work := t.work.(statuses := t.work.statuses[id := target]));
      assert Step(s, Proceed(client)) == Put(s, client, t');
      ProcessedOne(s, client, t', ids, k, target);
    }
  }

  lemma ProcessedOne(s: State, client: int, t': Session, ids: seq<int>, k: nat, target: Status)
    requires Processing(s, client, ids, k) && k < |ids|
    requires target == if ids[k] in NoShowsOf(s.sessions[client].job) then NoShow else Completed
    requires var t := s.sessions[client];
      t' == t.(todo := ids[k + 1..], locks := t'.locks, work := t.work.(statuses := t.work.statuses[ids[k] := target]))
    ensures Processing(Put(s, client, t'), client, ids, k + 1)
    ensures Put(s, client, t').(sessions := s.sessions) == s
  {
    assert ids[..k + 1] == ids[..k] + [ids[k]];
    assert t'.work.statuses.Keys == s.sessions[client].work.statuses.Keys + {ids[k]};
  }

  /** The tables after the reservations from position k on have been tried. */
  ghost function Ending(t: Store.Tables, dogs: map<int, Dog>, job: Job, ids: seq<int>, k: nat): Store.Tables
    requires Batch(job) && forall id :: id in ids ==> id in t.rows
  {
    if forall i :: k <= i < |ids| ==> BatchClose.CanSettle(BatchClose.World(dogs, t.activities), t.rows, ids[i], NoShowsOf(job), job.now) then
      AllSettled(t, job, ids)
    else t
  }

  ghost function AllSettled(t: Store.Tables, job: Job, ids: seq<int>): Store.Tables {
    BatchClose.MarkClosed(t.(rows := BatchClose.Settled(t.rows, SetOf(ids), NoShowsOf(job))), ActivityIdOf(job))
  }

  /** The activity's UPDATE, unless the activity was closed already. */
  lemma CloseAlone(s: State, client: int, ids: seq<int>)
    requires Processing(s, client, ids, |ids|)
    ensures var ready := Step(s, Proceed(client));
      && ready == s.(sessions := ready.sessions) && ready.sessions.Keys == {client}
      && var t, t' := s.sessions[client], ready.sessions[client];
        && t'.phase == Ready && t'.job == t.job && t'.work == t.work.(closes := !t.seenClosed)
  {
    assert s.sessions[client].todo == [];
    assert Free(s, client, OnActivity(ActivityIdOf(s.sessions[client].job)));
  }

  lemma CommitAlone(s: State, ready: State, client: int, ids: seq<int>, created: seq<int>)
    requires Processing(s, client, ids, |ids|)
    requires ready == s.(sessions := ready.sessions) && ready.sessions.Keys == {client}
    requires var t, t' := s.sessions[client], ready.sessions[client];
      t'.phase == Ready && t'.job == t.job && t'.work == t.work.(closes := !t.seenClosed)
    ensures var after := Step(ready, Proceed(client));
      && after.sessions == map[]
      && TablesOf(after, created) == AllSettled(TablesOf(s, created), s.sessions[client].job, ids)
  {
    var t := s.sessions[client];
    var a := ActivityIdOf(t.job);
    assert ids[..|ids|] == ids;
    assert Merge(s.rows, t.work.statuses) == BatchClose.Settled(s.rows, SetOf(ids), NoShowsOf(t.job));
    assert ready.sessions - {client} == map[];
    assert s.movements + [] == s.movements;
    assert t.seenClosed ==> s.activities[a := s.activities[a].(closed := true)] == s.activities;
  }

  lemma EndingSkips(t: Store.Tables, dogs: map<int, Dog>, job: Job, ids: seq<int>, k: nat)
    requires Batch(job) && (forall id :: id in ids ==> id in t.rows) && k < |ids|
    ensures Ending(t, dogs, job, ids, k) ==
      if BatchClose.CanSettle(BatchClose.World(dogs, t.activities), t.rows, ids[k], NoShowsOf(job), job.now) then Ending(t, dogs, job, ids, k + 1) else t
  {}

  /** Nobody is in flight any more, and these are the tables. */
  ghost predicate Ended(s: State, created: seq<int>, t: Store.Tables) {
    s.sessions == map[] && TablesOf(s, created) == t
  }

  ghost function Endings(created: seq<int>, t: Store.Tables): iset<State> {
    iset x | Ended(x, created, t)
  }

  /** Whatever the client's next statement leads into `good` is in `good`. */
  ghost predicate Backward(good: iset<State>, client: int) {
    forall x :: Step(x, Proceed(client)) in good ==> x in good
  }

  lemma ProcessOneEnds(s: State, client: int, ids: seq<int>, k: nat, created: seq<int>, good: iset<State>) returns (next: State)
    requires Processing(s, client, ids, k) && k < |ids| && OwnersExist(s) && Backward(good, client)
    ensures next == s.(sessions := next.sessions) && (next in good ==> s in good)
    ensures var job := s.sessions[client].job;
      || Ended(next, created, Ending(TablesOf(s, created), s.dogs, job, ids, k))
      || (Processing(next, client, ids, k + 1) && next.sessions[client].job == job
            && Ending(TablesOf(s, created), s.dogs, job, ids, k) == Ending(TablesOf(s, created), s.dogs, job, ids, k + 1))
  {
    next := Step(s, Proceed(client));
    ProcessOne(s, client, ids, k);
    EndingSkips(TablesOf(s, created), s.dogs, s.sessions[client].job, ids, k);
  }

  lemma FinishEnds(s: State, client: int, ids: seq<int>, created: seq<int>, good: iset<State>) returns (last: State)
    requires Processing(s, client, ids, |ids|) && Backward(good, client)
    ensures last in good ==> s in good
    ensures Ended(last, created, Ending(TablesOf(s, created), s.dogs, s.sessions[client].job, ids, |ids|))
  {
    var ready := Step(s, Proceed(client));
    CloseAlone(s, client, ids);
    CommitAlone(s, ready, client, ids, created);
    last := Step(ready, Proceed(client));
  }

  lemma {:induction false} LoopAlone(s: State, client: int, ids: seq<int>, k: nat, created: seq<int>, goal: Store.Tables, good: iset<State>)
    requires Processing(s, client, ids, k) && OwnersExist(s)
    requires goal == Ending(TablesOf(s, created), s.dogs, s.sessions[client].job, ids, k)
    requires Backward(good, client) && forall x :: Ended(x, created, goal) ==> x in good
    ensures s in good
    decreases |ids| - k
  {
    if k == |ids| {
      var last := FinishEnds(s, client, ids, created, good);
    } else {
      var next := ProcessOneEnds(s, client, ids, k, created, good);
      if !Ended(next, created, goal) {
        LoopAlone(next, client, ids, k + 1, created, goal, good);
      }
    }
  }

  /** What the batch use cases leave, whichever of the two runs. */
  ghost function BatchOutcome(s: State, job: Job, created: seq<int>, noShows: seq<int>): Outcomes.Result<Store.Tables, BatchClose.CloseError>
    requires Batch(job)
  {
    var t := TablesOf(s, created);
    if job.CloseJob? then BatchClose.CloseOutcome(t, s.dogs, s.nextId, BatchClose.CloseActivityInput(job.activityId, noShows, job.now))
    else BatchClose.BulkOutcome(t, s.dogs, s.nextId, job.activityId, job.now)
  }

  ghost function Refusal(s: State, job: Job, created: seq<int>, noShows: seq<int>): Option<BatchClose.CloseError>
    requires Batch(job)
  {
    var t := TablesOf(s, created);
    if job.CloseJob? then BatchClose.ClosePolicy(t, BatchClose.CloseActivityInput(job.activityId, noShows, job.now))
    else BatchClose.BulkPolicy(t, job.activityId, job.now)
  }

  /** Only this client is in flight, with nothing written. */
  ghost predicate Alone(s: State, client: int, job: Job, phase: Phase) {
    && s.sessions.Keys == {client} && s.sessions[client].job == job
    && s.sessions[client].phase == phase && s.sessions[client].work == NO_WORK
  }

  /** The first statement: the activity must exist, be finished and, to be closed, be open. */
  lemma ReadAlone(s: State, client: int, job: Job)
    requires Batch(job) && Alone(s, client, job, Begin)
    ensures var next := Step(s, Proceed(client)); var a := ActivityIdOf(job);
      && next == s.(sessions := next.sessions)
      && if a in s.activities && IsFinished(s.activities[a], job.now) && !(job.CloseJob? && s.activities[a].closed)
         then Alone(next, client, job, ActivityRead) && next.sessions[client].seenClosed == s.activities[a].closed
         else next.sessions == map[]
  {
    assert s.sessions - {client} == map[];
  }

  /** The second: no pending reservation for the one, CONFIRMED no-shows only for the other. */
  lemma ListAlone(s: State, client: int, job: Job)
    requires Batch(job) && Alone(s, client, job, ActivityRead)
    requires ActivityIdOf(job) in s.activities && s.sessions[client].seenClosed == s.activities[ActivityIdOf(job)].closed
    requires forall r :: r in s.rows ==> 0 < r < s.nextId
    ensures var next := Step(s, Proceed(client)); var a := ActivityIdOf(job);
      && next == s.(sessions := next.sessions)
      && if (if job.CloseJob? then job.noShows <= ConfirmedOf(s.rows, a) else !BatchClose.AnyPending(s.rows, a))
         then Processing(next, client, Below(ConfirmedOf(s.rows, a), s.nextId), 0) && next.sessions[client].job == job
         else next.sessions == map[]
  {
    assert s.sessions - {client} == map[];
    var ids := Below(ConfirmedOf(s.rows, ActivityIdOf(job)), s.nextId);
    assert ids[..0] == [] && ids[0..] == ids;
  }

  /** The policies let the machine reach its loop, over the sorted CONFIRMED reservations. */
  lemma PolicyAlone(s: State, client: int, job: Job, noShows: seq<int>, created: seq<int>, good: iset<State>) returns (next: State)
    requires Batch(job) && Alone(s, client, job, Begin) && Backward(good, client)
    requires job.CloseJob? ==> job.noShows == SetOf(noShows)
    requires forall r :: r in s.rows ==> 0 < r < s.nextId
    ensures next == s.(sessions := next.sessions) && (next in good ==> s in good)
    ensures if Refusal(s, job, created, noShows).Some? then next.sessions == map[]
      else Processing(next, client, Below(ConfirmedOf(s.rows, ActivityIdOf(job)), s.nextId), 0) && next.sessions[client].job == job
  {
    next := Step(s, Proceed(client));
    ReadAlone(s, client, job);
    if next.sessions != map[] {
      ListAlone(next, client, job);
      next := Step(next, Proceed(client));
      if job.CloseJob? {
        BatchLaws.NoShowRefusalMeaning(s.rows, job.activityId, noShows);
      }
    }
  }

  /** Some number of its statements takes the client to one of these states. */
  ghost predicate RunsTo(s: State, client: int, goal: iset<State>) {
    exists n: nat :: Steps(s, client, n) in goal
  }

  lemma RunsToIsBackward(client: int, goal: iset<State>)
    ensures Backward((iset s | RunsTo(s, client, goal)), client)
    ensures forall x :: x in goal ==> RunsTo(x, client, goal)
  {
    forall x | RunsTo(Step(x, Proceed(client)), client, goal)
      ensures RunsTo(x, client, goal)
    {
      var n: nat :| Steps(Step(x, Proceed(client)), client, n) in goal;
      StepsFirst(x, client, n);
    }
    forall x | x in goal
      ensures RunsTo(x, client, goal)
    {
      assert Steps(x, client, 0) in goal;
    }
  }

  lemma {:induction false} StepsFirst(s: State, client: int, n: nat)
    ensures Steps(s, client, n + 1) == Steps(Step(s, Proceed(client)), client, n)
  {
    if n > 0 {
      StepsFirst(s, client, n - 1);
    } else {
      assert Steps(s, client, 0) == s;
    }
  }

  /**
   * A batch that runs alone terminates with the tables its use case leaves on success, and with the
   * tables it found otherwise.
   */
  lemma BatchAloneIsTheUseCase(s: State, client: int, job: Job, forUpdate: bool, noShows: seq<int>, created: seq<int>)
    requires Batch(job) && s.sessions == map[] && OwnersExist(s)
    requires job.CloseJob? ==> job.noShows == SetOf(noShows)
    requires forall r :: r in s.rows ==> 0 < r < s.nextId
    ensures var outcome := BatchOutcome(s, job, created, noShows);
      RunsTo(Step(s, Start(client, job, forUpdate)), client,
             Endings(created, if outcome.Success? then outcome.value else TablesOf(s, created)))
  {
    var outcome := BatchOutcome(s, job, created, noShows);
    var goal := if outcome.Success? then outcome.value else TablesOf(s, created);
    var ends := Endings(created, goal);
    var good := iset x | RunsTo(x, client, ends);
    RunsToIsBackward(client, ends);
    AloneReaches(s, client, job, forUpdate, noShows, created, goal, good);
  }

  lemma AloneReaches(s: State, client: int, job: Job, forUpdate: bool, noShows: seq<int>, created: seq<int>, goal: Store.Tables, good: iset<State>)
    requires Batch(job) && s.sessions == map[] && OwnersExist(s)
    requires job.CloseJob? ==> job.noShows == SetOf(noShows)
    requires forall r :: r in s.rows ==> 0 < r < s.nextId
    requires var outcome := BatchOutcome(s, job, created, noShows);
      goal == if outcome.Success? then outcome.value else TablesOf(s, created)
    requires Backward(good, client) && forall x :: Ended(x, created, goal) ==> x in good
    ensures Step(s, Start(client, job, forUpdate)) in good
  {
    var begun := Step(s, Start(client, job, forUpdate));
    var listed := PolicyAlone(begun, client, job, noShows, created, good);
    if listed.sessions == map[] {
      assert Ended(listed, created, goal);
    } else {
      ListedReaches(listed, client, job, noShows, created, goal, good);
    }
  }

  lemma ListedReaches(s: State, client: int, job: Job, noShows: seq<int>, created: seq<int>, goal: Store.Tables, good: iset<State>)
    requires Batch(job) && OwnersExist(s) && (forall r :: r in s.rows ==> 0 < r < s.nextId)
    requires job.CloseJob? ==> job.noShows == SetOf(noShows)
    requires Processing(s, client, Below(ConfirmedOf(s.rows, ActivityIdOf(job)), s.nextId), 0) && s.sessions[client].job == job
    requires Refusal(s, job, created, noShows).None?
    requires var outcome := BatchOutcome(s, job, created, noShows);
      goal == if outcome.Success? then outcome.value else TablesOf(s, created)
    requires Backward(good, client) && forall x :: Ended(x, created, goal) ==> x in good
    ensures s in good
  {
    var ids := Below(ConfirmedOf(s.rows, ActivityIdOf(job)), s.nextId);
    EndingIsOutcome(TablesOf(s, created), s.dogs, s.nextId, job, ids);
    LoopAlone(s, client, ids, 0, created, goal, good);
  }

  lemma EndingIsOutcome(t: Store.Tables, dogs: map<int, Dog>, nextId: nat, job: Job, ids: seq<int>)
    requires Batch(job) && (forall r :: r in t.rows ==> 0 < r < nextId)
    requires ids == Below(ConfirmedOf(t.rows, ActivityIdOf(job)), nextId)
    ensures var result := BatchClose.SettleAscending(t, dogs, nextId, ActivityIdOf(job), NoShowsOf(job), job.now);
      Ending(t, dogs, job, ids, 0) == if result.Success? then result.value else t
  {
    BatchClose.LoopIsPointwise(BatchClose.World(dogs, t.activities), t.rows, ids, NoShowsOf(job), job.now);
    assert BatchClose.Distinct(ids);
    forall id | id in ids
      ensures exists i :: 0 <= i < |ids| && ids[i] == id
    {}
    assert forall i :: 0 <= i < |ids| ==> ids[i] in ids;
  }
}
