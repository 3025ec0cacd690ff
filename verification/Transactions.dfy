/** Joinable transactions (internal/repository/postgres/transaction.go) over a store of any type. */
module Transactions {

  import opened Outcomes

  /** What the driver does to a transaction of its own: refuse BEGIN, refuse COMMIT, or neither. */
  datatype Fault = NoFault | BeginFails | CommitFails

  /**
   * The code a caller passes to WithinTx: statements, sequences that stop at the first error, errors of
   * the caller's own, panics, nested WithinTx calls, and error handlers that swallow what failed.
   */
  datatype Body<!T> =
    | Skip
    | Statement(run: T -> Option<T>)
    | Refuse
    | Panic
    | Sequence(first: Body<T>, second: Body<T>)
    | Within(body: Body<T>, fault: Fault)
    | Swallow(tried: Body<T>, instead: Body<T>)

  datatype Outcome = Done | Failed | Panicked

  /**
   * A transaction in flight: its private copy of the store, and whether a statement of it has failed,
   * after which the server refuses further statements and answers COMMIT with ROLLBACK.
   */
  datatype Tx<T> = Tx(store: T, aborted: bool)

  /** The live store, the transaction in flight, and how many COMMITs took place. */
  datatype Session<T> = Session(committed: T, tx: Option<Tx<T>>, commits: nat)

  /** BEGIN. */
  function Begun<T>(s: Session<T>): Session<T> {
    s.(tx := Some(Tx(s.committed, false)))
  }

  /** One statement, in the transaction in flight or, without one, on the live store. */
  function Run<T>(run: T -> Option<T>, s: Session<T>): (Session<T>, Outcome) {
    if s.tx.None? then
      var result := run(s.committed);
      if result.Some? then (s.(committed := result.value, commits := s.commits + 1), Done) else (s, Failed)
    else if s.tx.value.aborted then (s, Failed)
    else
      var result := run(s.tx.value.store);
      if result.Some? then (s.(tx := Some(Tx(result.value, false))), Done)
      else (s.(tx := Some(s.tx.value.(aborted := true))), Failed)
  }

  function Eval<T>(body: Body<T>, s: Session<T>): (Session<T>, Outcome)
    decreases body
  {
    match body
    case Skip => (s, Done)
    case Refuse => (s, Failed)
    case Panic => (s, Panicked)
    case Statement(run) => Run(run, s)
    case Sequence(first, second) =>
      var (s1, outcome) := Eval(first, s);
      if outcome.Done? then Eval(second, s1) else (s1, outcome)
    case Swallow(tried, instead) =>
      var (s1, outcome) := Eval(tried, s);
      if outcome.Failed? then Eval(instead, s1) else (s1, outcome)
    case Within(inner, fault) =>
      if s.tx.Some? then Eval(inner, s)
      else if fault.BeginFails? then (s, Failed)
      else
        var (s1, outcome) := Eval(inner, Begun(s));
        if !outcome.Done? then (s, outcome)
        else if fault.CommitFails? || s1.tx.None? || s1.tx.value.aborted then (s, Failed)
        else (Session(s1.tx.value.store, None, s.commits + 1), Done)
  }

  class Connection<T(!new)> {
    var committed: T
    var tx: Option<Tx<T>>
    var commits: nat

    constructor (store: T)
      ensures State() == Session(store, None, 0)
    {
      committed, tx, commits := store, None, 0;
    }

    function State(): Session<T>
      reads this
    {
      Session(committed, tx, commits)
    }

    /** One statement through runner(). */
    method Execute(run: T -> Option<T>) returns (outcome: Outcome)
      modifies this
      ensures (State(), outcome) == Eval(Statement(run), old(State()))
      ensures old(tx).None? ==> var result := run(old(committed));
        && tx.None? && outcome == (if result.Some? then Done else Failed)
        && committed == (if result.Some? then result.value else old(committed))
        && commits == old(commits) + (if result.Some? then 1 else 0)
      ensures old(tx).Some? ==> tx.Some? && committed == old(committed) && commits == old(commits)
      ensures old(tx).Some? && old(tx).value.aborted ==> outcome == Failed && tx == old(tx)
      ensures old(tx).Some? && !old(tx).value.aborted ==> var result := run(old(tx).value.store);
        && outcome == (if result.Some? then Done else Failed)
        && tx.value == (if result.Some? then Tx(result.value, false) else Tx(old(tx).value.store, true))
    {
      if tx.Some? {
        if tx.value.aborted {
          return Failed;
        }
        var result := run(tx.value.store);
        if result.None? {
          tx := Some(tx.value.(aborted := true));
          return Failed;
        }
        tx := Some(Tx(result.value, false));
        return Done;
      }
      var result := run(committed);
      if result.None? {
        return Failed;
      }
      committed, commits := result.value, commits + 1;
      return Done;
    }

    /** Joins the transaction in flight; otherwise begins one, and commits it or rolls it back. */
    method WithinTx(body: Body<T>, fault: Fault) returns (outcome: Outcome)
      modifies this
      ensures (State(), outcome) == Eval(Within(body, fault), old(State()))
      ensures old(tx).None? ==> tx.None? && (if outcome.Done? then commits == old(commits) + 1 else State() == old(State()))
      ensures old(tx).None? && fault.BeginFails? ==> outcome == Failed
      ensures old(tx).None? && fault.CommitFails? ==> !outcome.Done?
      decreases body, 1
    {
      if tx.Some? {
        outcome := Perform(body);
        return;
      }
      if fault.BeginFails? {
        return Failed;
      }
      ghost var begun := Begun(State());
      tx := Some(Tx(committed, false));
      outcome := Perform(body);
      JoinedNeverCommits(body, begun);
      if outcome.Done? && (fault.CommitFails? || tx.value.aborted) {
        outcome := Failed;
      }
      if outcome.Done? {
        committed, commits := tx.value.store, commits + 1;
      }
      tx := None;
    }

    /** The caller's code. */
    method Perform(body: Body<T>) returns (outcome: Outcome)
      modifies this
      ensures (State(), outcome) == Eval(body, old(State()))
      decreases body, 0
    {
      match body
      case Skip => outcome := Done;
      case Refuse => outcome := Failed;
      case Panic => outcome := Panicked;
      case Statement(run) => outcome := Execute(run);
      case Sequence(first, second) =>
        outcome := Perform(first);
        if outcome.Done? {
          outcome := Perform(second);
        }
      case Swallow(tried, instead) =>
        outcome := Perform(tried);
        if outcome.Failed? {
          outcome := Perform(instead);
        }
      case Within(inner, fault) => outcome := WithinTx(inner, fault);
    }
  }

  /** Inside a transaction nothing commits and the live store does not move, however deep the nesting. */
  lemma {:induction false} JoinedNeverCommits<T>(body: Body<T>, s: Session<T>)
    requires s.tx.Some?
    ensures var after := Eval(body, s).0;
      after.tx.Some? && after.committed == s.committed && after.commits == s.commits
  {
    match body
    case Sequence(first, second) =>
      JoinedNeverCommits(first, s);
      JoinedNeverCommits(second, Eval(first, s).0);
    case Swallow(tried, instead) =>
      JoinedNeverCommits(tried, s);
      JoinedNeverCommits(instead, Eval(tried, s).0);
    case Within(inner, _) => JoinedNeverCommits(inner, s);
    case _ =>
  }

  /** The same code without its nested WithinTx calls. */
  function Flat<T>(body: Body<T>): Body<T> {
    match body
    case Sequence(first, second) => Sequence(Flat(first), Flat(second))
    case Swallow(tried, instead) => Swallow(Flat(tried), Flat(instead))
    case Within(inner, _) => Flat(inner)
    case _ => body
  }

  /** Inside a transaction nested WithinTx calls, and the faults of theirs, make no difference. */
  lemma {:induction false} NestingIsTransparent<T>(body: Body<T>, s: Session<T>)
    requires s.tx.Some?
    ensures Eval(body, s) == Eval(Flat(body), s)
  {
    match body
    case Sequence(first, second) =>
      NestingIsTransparent(first, s);
      JoinedNeverCommits(first, s);
      NestingIsTransparent(second, Eval(first, s).0);
    case Swallow(tried, instead) =>
      NestingIsTransparent(tried, s);
      JoinedNeverCommits(tried, s);
      NestingIsTransparent(instead, Eval(tried, s).0);
    case Within(inner, _) => NestingIsTransparent(inner, s);
    case _ =>
  }

  /** After a failed statement a transaction is beyond repair: nothing that is done in it has any effect. */
  lemma {:induction false} AbortedStaysAborted<T>(body: Body<T>, s: Session<T>)
    requires s.tx.Some? && s.tx.value.aborted
    ensures Eval(body, s).0 == s
  {
    match body
    case Sequence(first, second) =>
      AbortedStaysAborted(first, s);
      AbortedStaysAborted(second, s);
    case Swallow(tried, instead) =>
      AbortedStaysAborted(tried, s);
      AbortedStaysAborted(instead, s);
    case Within(inner, _) => AbortedStaysAborted(inner, s);
    case _ =>
  }

  /** So a failed statement loses the whole transaction, even if its error is swallowed and the rest goes well. */
  lemma FailedStatementsAreFatal<T>(tried: Body<T>, rest: Body<T>, fault: Fault, s: Session<T>)
    requires s.tx.None? && Eval(tried, Begun(s)).0.tx.Some? && Eval(tried, Begun(s)).0.tx.value.aborted
    ensures var (after, outcome) := Eval(Within(Sequence(Swallow(tried, Skip), rest), fault), s); after == s && !outcome.Done?
  {
    var left := Eval(tried, Begun(s)).0;
    assert Eval(Swallow(tried, Skip), Begun(s)).0 == left;
    AbortedStaysAborted(rest, left);
  }

  /** A panic is no error: no handler swallows it, nothing runs after it, and WithinTx rolls back and passes it on. */
  lemma PanicsEscape<T>(body: Body<T>, other: Body<T>, fault: Fault, s: Session<T>)
    requires Eval(body, s).1.Panicked?
    ensures Eval(Swallow(body, other), s) == Eval(Sequence(body, other), s) == Eval(body, s)
    ensures forall outside: Session<T> :: outside.tx.None? && s == Begun(outside) && !fault.BeginFails? ==>
      Eval(Within(body, fault), outside) == (outside, Panicked)
  {}

  // ---------- All or nothing ----------

  /** Every error reaches the outermost call. */
  predicate Propagating<T>(body: Body<T>) {
    match body
    case Sequence(first, second) => Propagating(first) && Propagating(second)
    case Within(inner, _) => Propagating(inner)
    case Swallow(_, _) => false
    case _ => true
  }

  /** All statements of a piece of code in order; a refusal or a panic is one that always fails. */
  function Statements<T>(body: Body<T>): seq<T -> Option<T>> {
    match body
    case Skip => []
    case Statement(run) => [run]
    case Sequence(first, second) => Statements(first) + Statements(second)
    case Within(inner, _) => Statements(inner)
    case Swallow(tried, instead) => Statements(tried) + Statements(instead)
    case _ => [(store: T) => None]
  }

  /** All of them, one after the other, or nothing. */
  function ApplyAll<T>(statements: seq<T -> Option<T>>, store: T): Option<T> {
    if statements == [] then Some(store)
    else
      var next := statements[0](store);
      if next.None? then None else ApplyAll(statements[1..], next.value)
  }

  lemma {:induction false} ApplyAllOfConcatenation<T>(a: seq<T -> Option<T>>, b: seq<T -> Option<T>>, store: T)
    ensures var middle := ApplyAll(a, store);
      ApplyAll(a + b, store) == if middle.None? then None else ApplyAll(b, middle.value)
  {
    if a == [] {
      assert a + b == b;
    } else {
      assert (a + b)[1..] == a[1..] + b;
      var next := a[0](store);
      if next.Some? {
        ApplyAllOfConcatenation(a[1..], b, next.value);
      }
    }
  }

  lemma {:induction false} JoinedRunsAllStatements<T>(body: Body<T>, s: Session<T>)
    requires s.tx.Some? && !s.tx.value.aborted && Propagating(body)
    ensures var all := ApplyAll(Statements(body), s.tx.value.store);
      && (Eval(body, s).1.Done? <==> all.Some?)
      && (all.Some? ==> Eval(body, s).0 == s.(tx := Some(Tx(all.value, false))))
  {
    match body
    case Sequence(first, second) =>
      JoinedRunsAllStatements(first, s);
      ApplyAllOfConcatenation(Statements(first), Statements(second), s.tx.value.store);
      if Eval(first, s).1.Done? {
        JoinedRunsAllStatements(second, Eval(first, s).0);
      }
    case Within(inner, _) => JoinedRunsAllStatements(inner, s);
    case _ =>
  }

  /**
   * Composition: for any nesting in which errors are propagated, the outermost WithinTx commits once,
   * after every statement of the whole tree has succeeded in order, or leaves the live store as it
   * was before BEGIN; and it reports success exactly in the first case.
   */
  lemma WithinTxIsAllOrNothing<T>(body: Body<T>, fault: Fault, s: Session<T>)
    requires s.tx.None? && Propagating(body)
    ensures var (after, outcome) := Eval(Within(body, fault), s);
      var all := ApplyAll(Statements(body), s.committed);
      && (outcome.Done? <==> fault.NoFault? && all.Some?)
      && after == if outcome.Done? then Session(all.value, None, s.commits + 1) else s
  {
    JoinedRunsAllStatements(body, Begun(s));
  }

  /** Without the assumption on errors it still commits once or changes nothing, and nesting still makes no difference. */
  lemma WithinTxCommitsOnceOrNever<T>(body: Body<T>, fault: Fault, s: Session<T>)
    requires s.tx.None?
    ensures Eval(Within(body, fault), s) == Eval(Within(Flat(body), fault), s)
    ensures var (after, outcome) := Eval(Within(body, fault), s);
      && after.tx.None?
      && (if outcome.Done? then after.commits == s.commits + 1 else after == s)
  {
    NestingIsTransparent(body, Begun(s));
    var inner, flat := Eval(body, Begun(s)), Eval(Flat(body), Begun(s));
    assert inner == flat;
  }

  /**
   * A nested WithinTx has no savepoint. When its error is swallowed and no statement had failed, what
   * it wrote before failing is committed; when one had, the whole outer transaction is lost at COMMIT.
   * So a swallowed failure is harmless exactly if the unit refused before it changed anything.
   */
  lemma SwallowedErrors<T>(unit: Body<T>, inner: Fault, s: Session<T>)
    requires s.tx.None? && Eval(unit, Begun(s)).1.Failed?
    ensures Eval(unit, Begun(s)).0.tx.Some?
    ensures var left := Eval(unit, Begun(s)).0.tx.value;
      var (after, outcome) := Eval(Within(Swallow(Within(unit, inner), Skip), NoFault), s);
      if left.aborted then after == s && outcome == Failed
      else after == Session(left.store, None, s.commits + 1) && outcome == Done
  {
    var begun := Begun(s);
    JoinedNeverCommits(unit, begun);
    assert Eval(Within(unit, inner), begun) == Eval(unit, begun);
    assert Eval(Swallow(Within(unit, inner), Skip), begun) == (Eval(unit, begun).0, Done);
  }

  /** For instance: one of two writes survives. */
  lemma SwallowingBreaksAtomicity()
    ensures var unit := Sequence(Statement((n: int) => Some(n + 1)), Sequence(Refuse, Statement((n: int) => Some(n + 1))));
      Eval(Within(Swallow(Within(unit, NoFault), Skip), NoFault), Session(0, None, 0)) == (Session(1, None, 1), Done)
  {}

  /** And outside any transaction every statement commits by itself, so two writes are not one. */
  lemma AutocommitIsNotAtomic()
    ensures var pair := Sequence(Statement((n: int) => Some(n + 1)), Refuse);
      && Eval(pair, Session(0, None, 0)).0.committed == 1
      && Eval(Within(pair, NoFault), Session(0, None, 0)).0.committed == 0
  {}
}
