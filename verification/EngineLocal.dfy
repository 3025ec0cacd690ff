/** Statements that only touch their own transaction keep the invariant. */
module EngineLocal {

  import opened Outcomes
  import opened Counting
  import opened Reservations
  import opened Passes
  import opened Activities
  import opened Compatibility
  import opened Admission
  import opened Engine
  import opened EngineInvariant

  /** Same tables, later clock and sequence. */
  ghost predicate SameTables(s: State, s': State) {
    s' == s.(sessions := s'.sessions, clock := s'.clock, nextId := s'.nextId)
    && s.clock <= s'.clock && s.nextId <= s'.nextId
  }

  lemma RegistrationKeeps(s: State, s': State, t: Session)
    requires SameTables(s, s') && t.job.RegisterJob?
    ensures HasOpenActivity(s, t) ==> HasOpenActivity(s', t)
    ensures AdmissionHolds(s, t) ==> AdmissionHolds(s', t)
    ensures InsertOk(s, t) ==> InsertOk(s', t)
  {}

  lemma PassKeeps(s: State, s': State, t: Session)
    requires SameTables(s, s')
    ensures PassSeen(s, t) ==> PassSeen(s', t)
    ensures WroteOk(s, t) ==> WroteOk(s', t)
    ensures SeenOk(s, t) ==> SeenOk(s', t)
    ensures StillAsSeen(s, t) ==> StillAsSeen(s', t)
    ensures SkipsOnlyUncharged(s, t) ==> SkipsOnlyUncharged(s', t)
  {}

  lemma JobKeeps(s: State, s': State, t: Session)
    requires SameTables(s, s')
    ensures HasActivity(s, t) ==> HasActivity(s', t)
    ensures BatchOk(s, t) ==> BatchOk(s', t)
    ensures Batch(t.job) && SawRight(s, t) ==> SawRight(s', t)
    ensures Scoped(s, t) ==> Scoped(s', t)
    ensures CascadeCovers(s, t) ==> CascadeCovers(s', t)
    ensures StatusesOk(s, t) ==> StatusesOk(s', t)
  {}

  lemma ReadyKeeps(s: State, s': State, t: Session)
    requires SameTables(s, s')
    ensures RegisterReady(s, t) ==> RegisterReady(s', t)
    ensures RefundReady(s, t) ==> RefundReady(s', t)
    ensures MoveReady(s, t) ==> MoveReady(s', t)
    ensures PatchReady(s, t) ==> PatchReady(s', t)
  {
    if t.job.RegisterJob? {
      RegistrationKeeps(s, s', t);
    }
    PassKeeps(s, s', t);
  }

  /** Everything a client may know of the tables carries over. */
  ghost predicate Carries(s: State, s': State, t: Session) {
    && s.nextId <= s'.nextId
    && (StatusesOk(s, t) ==> StatusesOk(s', t))
    && CarriesReads(s, s', t) && CarriesJob(s, s', t) && CarriesReady(s, s', t)
    && (t.job.RegisterJob? ==> CarriesBooking(s, s', t))
  }

  ghost predicate CarriesReads(s: State, s': State, t: Session) {
    && (SeenOk(s, t) ==> SeenOk(s', t))
    && (PassSeen(s, t) ==> PassSeen(s', t))
    && (SkipsOnlyUncharged(s, t) && SeenOk(s, t) ==> SkipsOnlyUncharged(s', t))
    && (WroteOk(s, t) ==> WroteOk(s', t))
  }

  ghost predicate CarriesJob(s: State, s': State, t: Session) {
    && (HasActivity(s, t) ==> HasActivity(s', t))
    && (HasActivity(s, t) && CascadeCovers(s, t) ==> CascadeCovers(s', t))
    && (Scoped(s, t) ==> Scoped(s', t))
    && (BatchOk(s, t) ==> BatchOk(s', t))
    && (Batch(t.job) && SawRight(s, t) ==> SawRight(s', t))
  }

  ghost predicate CarriesReady(s: State, s': State, t: Session) {
    && (RegisterReady(s, t) ==> RegisterReady(s', t))
    && (RefundReady(s, t) && StatusesOk(s, t) ==> RefundReady(s', t))
    && (MoveReady(s, t) && StatusesOk(s, t) ==> MoveReady(s', t))
    && (PatchReady(s, t) ==> PatchReady(s', t))
  }

  ghost predicate CarriesBooking(s: State, s': State, t: Session)
    requires t.job.RegisterJob?
  {
    && (HasOpenActivity(s, t) ==> HasOpenActivity(s', t))
    && (AdmissionHolds(s, t) ==> AdmissionHolds(s', t))
    && (OwnerPays(s, t) ==> OwnerPays(s', t))
  }

  lemma CarriedSession(s: State, s': State, t: Session)
    requires Carries(s, s', t) && SessionOk(s, t)
    ensures SessionOk(s', t)
  {}

  lemma SessionKeeps(s: State, s': State, t: Session)
    requires SameTables(s, s') && SessionOk(s, t)
    ensures SessionOk(s', t)
  {
    TablesCarry(s, s', t);
    CarriedSession(s, s', t);
  }

  lemma TablesCarry(s: State, s': State, t: Session)
    requires SameTables(s, s')
    ensures Carries(s, s', t)
  {
    if t.job.RegisterJob? {
      RegistrationKeeps(s, s', t);
    }
    ReadyKeeps(s, s', t);
    PassKeeps(s, s', t);
    JobKeeps(s, s', t);
  }

  lemma TablesKeep(s: State, s': State)
    requires SameTables(s, s') && TablesOk(s)
    ensures TablesOk(s')
  {
    assert forall r1, r2 :: Share(s', r1, r2) ==> Share(s, r1, r2);
    assert forall r1, r2 :: Share(s, r1, r2) && DogsCompatible(s, r1, r2) ==> DogsCompatible(s', r1, r2);
    assert OwnersAgree(s') && DogsActive(s');
  }

  /** One client's session is replaced by another acceptable one. */
  lemma LocalStep(s: State, s': State, client: int, t: Session)
    requires Inv(s) && SameTables(s, s') && s'.sessions == s.sessions[client := t]
    requires SessionOk(s', t)
    requires forall other :: other in s.sessions && other != client ==> t.locks !! s.sessions[other].locks
    ensures Inv(s')
  {
    TablesKeep(s, s');
    forall c | c in s'.sessions
      ensures SessionOk(s', s'.sessions[c])
    {
      if c != client {
        SessionKeeps(s, s', s.sessions[c]);
      }
    }
  }

  lemma DropKeeps(s: State, client: int)
    requires Inv(s)
    ensures Inv(Drop(s, client))
  {
    var s' := Drop(s, client);
    TablesKeep(s, s');
    forall c | c in s'.sessions
      ensures SessionOk(s', s'.sessions[c])
    {
      SessionKeeps(s, s', s.sessions[c]);
    }
  }

  // ---------- Register ----------

  lemma LockActivityKeeps(s: State, client: int)
    requires Inv(s) && client in s.sessions
    requires s.sessions[client].phase == Begin && s.sessions[client].job.RegisterJob?
    ensures Inv(LockActivity(s, client, s.sessions[client]))
  {
    var t := s.sessions[client];
    var s' := LockActivity(s, client, t);
    DropKeeps(s, client);
    if s' != s && s' != Drop(s, client) {
      LocalStep(s, s', client, s'.sessions[client]);
    }
  }

  /** The listing of the dogs holding a slot is complete. */
  lemma SlotDogsAreComplete(s: State, a: int, r: int)
    requires r in Holders(s.rows, a) && s.rows[r].dogId in s.dogs
    ensures s.dogs[s.rows[r].dogId] in SetOf(SlotDogs(s.dogs, s.rows, a))
  {
    var ids := InOrder(set x | x in Holders(s.rows, a) && s.rows[x].dogId in s.dogs :: s.rows[x].dogId);
    assert s.rows[r].dogId in ids;
    var i :| 0 <= i < |ids| && ids[i] == s.rows[r].dogId;
    assert SlotDogs(s.dogs, s.rows, a)[i] == s.dogs[ids[i]];
  }

  /** And it lists nobody else. */
  lemma SlotDogsHoldSlots(s: State, a: int, dog: Dog)
    requires dog in SlotDogs(s.dogs, s.rows, a)
    ensures exists r :: r in Holders(s.rows, a) && s.rows[r].dogId in s.dogs && s.dogs[s.rows[r].dogId] == dog
  {
    var ids := InOrder(set x | x in Holders(s.rows, a) && s.rows[x].dogId in s.dogs :: s.rows[x].dogId);
    var i :| 0 <= i < |ids| && SlotDogs(s.dogs, s.rows, a)[i] == dog;
    assert ids[i] in ids;
  }

  lemma AdmittedMeans(activity: ActivityRow, dog: Dog, others: set<Dog>, heldSlots: nat, job: Job)
    requires job.RegisterJob? && Admit(activity, dog, others, heldSlots, job.userId, job.admin).Success?
    ensures HoldsSlot(Admit(activity, dog, others, heldSlots, job.userId, job.admin).value)
    ensures !IsFull(activity, heldSlots) && WellPlaced(activity, dog, job.admin) && dog.isActive
    ensures !job.admin ==> dog.userId == job.userId && forall other :: other in others ==> Compatible(dog, other)
  {}

  lemma AdmittedHolds(s: State, t: Session, t': Session)
    requires t.job.RegisterJob? && HasOpenActivity(s, t) && t.job.dogId in s.dogs && VerdictOn(s, t.job).Success?
    requires t' == t.(phase := Admitted, target := VerdictOn(s, t.job).value, reasons := t'.reasons)
    ensures AdmissionHolds(s, t')
  {
    var a, dog := t.job.activityId, s.dogs[t.job.dogId];
    AdmittedMeans(s.activities[a], dog, SetOf(SlotDogs(s.dogs, s.rows, a)), |Holders(s.rows, a)|, t.job);
    forall r | !t.job.admin && r in Holders(s.rows, a) && s.rows[r].dogId in s.dogs
      ensures Compatible(dog, s.dogs[s.rows[r].dogId])
    {
      SlotDogsAreComplete(s, a, r);
    }
  }

  lemma AdmittedSession(s: State, t: Session, t': Session)
    requires SessionOk(s, t) && t.phase == ActivityLocked && t.job.dogId in s.dogs && VerdictOn(s, t.job).Success?
    requires t' == t.(phase := Admitted, target := VerdictOn(s, t.job).value, reasons := t'.reasons)
    ensures SessionOk(s, t')
  {
    AdmittedHolds(s, t, t');
  }

  lemma AdmitDogKeeps(s: State, client: int)
    requires Inv(s) && client in s.sessions
    requires s.sessions[client].phase == ActivityLocked && s.sessions[client].job.RegisterJob?
    ensures Inv(AdmitDog(s, client, s.sessions[client]))
  {
    var t := s.sessions[client];
    DropKeeps(s, client);
    if t.job.activityId in s.activities && t.job.dogId in s.dogs && VerdictOn(s, t.job).Success? {
      var t' := t.(phase := Admitted, target := VerdictOn(s, t.job).value, reasons := ReasonsOn(s, t.job));
      assert SessionOk(s, t);
      AdmittedSession(s, t, t');
      PutKeeps(s, client, t');
    }
  }

  /** The client's own record changes, and its locks stay. */
  lemma PutKeeps(s: State, client: int, t: Session)
    requires Inv(s) && client in s.sessions && SessionOk(s, t) && t.locks == s.sessions[client].locks
    ensures Inv(Put(s, client, t))
  {
    SessionKeeps(s, Put(s, client, t), t);
    LocalStep(s, Put(s, client, t), client, t);
  }

  lemma InsertReservationKeeps(s: State, client: int)
    requires Inv(s) && client in s.sessions
    requires s.sessions[client].phase == PassWritten && s.sessions[client].job.RegisterJob?
    ensures Inv(InsertReservation(s, client, s.sessions[client]))
  {
    var t, id := s.sessions[client], s.nextId;
    var a, d := t.job.activityId, t.job.dogId;
    DropKeeps(s, client);
    if !Contested(s, client, a, d) && forall r :: !HasSlot(s.rows, r, a, d) {
      var t' := t.(phase := Ready, locks := t.locks + {OnReservation(id)},
                   work := t.work.(inserted := Some((id, ReservationRow(a, d, t.job.passId, t.target)))));
      var s' := Put(s, client, t').(nextId := id + 1);
      assert s' == InsertReservation(s, client, t);
      assert SessionOk(s, t);
      InsertedSession(s, s', t, t');
      forall other | other in s.sessions && other != client
        ensures t'.locks !! s.sessions[other].locks
      {
        assert SessionOk(s, s.sessions[other]);
        assert t.locks !! s.sessions[other].locks;
      }
      LocalStep(s, s', client, t');
    }
  }

  lemma InsertedSession(s: State, s': State, t: Session, t': Session)
    requires TablesOk(s) && SessionOk(s, t) && t.phase == PassWritten && t.job.RegisterJob?
    requires forall r :: !HasSlot(s.rows, r, t.job.activityId, t.job.dogId)
    requires SameTables(s, s') && s'.nextId == s.nextId + 1 && s'.clock == s.clock
    requires t' == t.(phase := Ready, locks := t.locks + {OnReservation(s.nextId)},
                      work := t.work.(inserted := Some((s.nextId, ReservationRow(t.job.activityId, t.job.dogId, t.job.passId, t.target)))))
    ensures SessionOk(s', t')
  {
    forall r | r in Holders(s'.rows, t.job.activityId)
      ensures s'.rows[r].dogId != t.job.dogId
    {
      assert !HasSlot(s.rows, r, t.job.activityId, t.job.dogId);
    }
    assert InsertOk(s', t');
    assert PassEditOf(t') == PassEditOf(t) && PassIdOf(t') == PassIdOf(t);
    assert WroteOk(s', t');
    assert RegisterReady(s', t');
  }

  // ---------- Reservations and passes ----------

  lemma LoadReservationKeeps(s: State, client: int)
    requires Inv(s) && client in s.sessions
    requires s.sessions[client].phase == Begin && (Refunding(s.sessions[client].job) || Moving(s.sessions[client].job))
    ensures Inv(LoadReservation(s, client, s.sessions[client]))
  {
    var t := s.sessions[client];
    var s', id := LoadReservation(s, client, t), ReservationIdOf(t.job);
    DropKeeps(s, client);
    if s' != s && s' != Drop(s, client) {
      var target := TargetOf(s, t.job, s.rows[id]).value;
      var t' := t.(phase := ReservationRead, target := target, seen := Some(s.rows[id]),
                   locks := if t.forUpdate then t.locks + {OnReservation(id)} else t.locks);
      assert s' == Put(s, client, t');
      assert SessionOk(s, t);
      LoadedSession(s, t, t');
      SessionKeeps(s, s', t');
      LocalStep(s, s', client, t');
    }
  }

  lemma LoadedSession(s: State, t: Session, t': Session)
    requires TablesOk(s) && SessionOk(s, t) && t.phase == Begin && (Refunding(t.job) || Moving(t.job))
    requires ReservationIdOf(t.job) in s.rows && TargetOf(s, t.job, s.rows[ReservationIdOf(t.job)]) == Some(t'.target)
    requires t' == t.(phase := ReservationRead, target := t'.target, seen := Some(s.rows[ReservationIdOf(t.job)]),
                      locks := if t.forUpdate then t.locks + {OnReservation(ReservationIdOf(t.job))} else t.locks)
    ensures SessionOk(s, t')
  {
    TargetIsPermitted(s, t');
    assert SeenOk(s, t');
  }

  /** The in-memory decision is the permitted one. */
  lemma TargetIsPermitted(s: State, t: Session)
    requires t.seen.Some? && TargetOf(s, t.job, t.seen.value) == Some(t.target)
    ensures Permitted(s, t) && Arrow(t.seen.value.status, t.target)
  {}

  /** A pass with nothing to refund has no charged reservation: the refund is not skipped wrongly. */
  lemma NothingToRefundMeansUncharged(s: State, r: int)
    requires TablesOk(s) && r in s.ever && !CanRefund(s.passes[s.ever[r].passId])
    ensures !Charged(s.ever[r].status)
  {
    var p := s.ever[r].passId;
    assert |ChargedOn(s.ever, p)| == 0;
    assert r !in ChargedOn(s.ever, p);
  }

  /** The client has read its pass, and locked it if it does so. */
  ghost predicate HasRead(s: State, client: int, t: Session, t': Session) {
    var p := PassIdOf(t);
    && p in s.passes && t' == t.(phase := PassRead, pass := Some(s.passes[p]), locks := t'.locks)
    && (t'.locks == t.locks || (t'.locks == t.locks + {OnPass(p)} && Free(s, client, OnPass(p))))
    && (t.job.RegisterJob? ==> OwnerPays(s, t'))
  }

  /** What reading the pass can do to a client. */
  lemma LoadPassShape(s: State, client: int, t: Session) returns (t': Session)
    requires PassIdOf(t) in s.passes || !Refunding(t.job)
    requires t.job.RegisterJob? ==> AdmissionHolds(s, t)
    ensures var s' := LoadPass(s, client, t);
      s' == s || s' == Drop(s, client) || (s' == Put(s, client, t') && HasRead(s, client, t, t'))
  {
    var s' := LoadPass(s, client, t);
    t' := t;
    if s' != s && s' != Drop(s, client) {
      t' := s'.sessions[client];
      assert s' == Put(s, client, t');
    }
  }

  lemma ReadKeeps(s: State, client: int, t': Session)
    requires Inv(s) && client in s.sessions && HasRead(s, client, s.sessions[client], t')
    requires var t := s.sessions[client];
      || t.phase == Admitted || (t.phase == ReservationRead && Refunding(t.job)) || (t.phase == Begin && t.job.PatchPassJob?)
    ensures Inv(Put(s, client, t'))
  {
    assert SessionOk(s, s.sessions[client]);
    ReadSession(s, client, s.sessions[client], t');
    ReadLocks(s, client, t');
    LocalStep(s, Put(s, client, t'), client, t');
  }

  lemma ReadSession(s: State, client: int, t: Session, t': Session)
    requires TablesOk(s) && SessionOk(s, t) && HasRead(s, client, t, t')
    requires t.phase == Admitted || (t.phase == ReservationRead && Refunding(t.job)) || (t.phase == Begin && t.job.PatchPassJob?)
    ensures SessionOk(Put(s, client, t'), t')
  {
    LoadedPassSession(s, t, t');
    SessionKeeps(s, Put(s, client, t'), t');
  }

  lemma ReadLocks(s: State, client: int, t': Session)
    requires LocksExclusive(s) && client in s.sessions && HasRead(s, client, s.sessions[client], t')
    ensures forall other :: other in s.sessions && other != client ==> t'.locks !! s.sessions[other].locks
  {
    forall other | other in s.sessions && other != client
      ensures t'.locks !! s.sessions[other].locks
    {
      assert s.sessions[client].locks !! s.sessions[other].locks;
    }
  }

  lemma LoadPassKeeps(s: State, client: int)
    requires Inv(s) && client in s.sessions
    requires var t := s.sessions[client];
      || t.phase == Admitted || (t.phase == ReservationRead && Refunding(t.job)) || (t.phase == Begin && t.job.PatchPassJob?)
    ensures Inv(LoadPass(s, client, s.sessions[client]))
  {
    var t := s.sessions[client];
    assert SessionOk(s, t);
    if t.phase == ReservationRead {
      PassIsThere(s, t);
    }
    var t' := LoadPassShape(s, client, t);
    DropKeeps(s, client);
    if HasRead(s, client, t, t') {
      ReadKeeps(s, client, t');
    }
  }

  /** The pass of a reservation is never missing. */
  lemma PassIsThere(s: State, t: Session)
    requires TablesOk(s) && SessionOk(s, t) && t.phase == ReservationRead
    ensures PassIdOf(t) in s.passes
  {}

  lemma LoadedPassSession(s: State, t: Session, t': Session)
    requires TablesOk(s) && SessionOk(s, t) && PassIdOf(t) in s.passes
    requires t.phase == Admitted || (t.phase == ReservationRead && Refunding(t.job)) || (t.phase == Begin && t.job.PatchPassJob?)
    requires t' == t.(phase := PassRead, pass := Some(s.passes[PassIdOf(t)]), locks := t'.locks)
    requires t.locks <= t'.locks <= t.locks + {OnPass(PassIdOf(t))}
    requires t.job.RegisterJob? ==> OwnerPays(s, t')
    ensures SessionOk(s, t')
  {
    assert PassIdOf(t') == PassIdOf(t);
    if Refunding(t.job) && !CanRefund(t'.pass.value) {
      NothingToRefundMeansUncharged(s, ReservationIdOf(t.job));
    }
  }

  lemma WritePassSession(s: State, s': State, t: Session, t': Session)
    requires TablesOk(s) && SessionOk(s, t) && t.phase == PassRead && PassEditOf(t).Write?
    requires PassIdOf(t) in s.passes && s.passes[PassIdOf(t)].version == t.pass.value.version
    requires SameTables(s, s') && s'.clock == s.clock + 1 && s'.nextId == s.nextId
    requires t' == t.(phase := if t.job.PatchPassJob? then Ready else PassWritten,
                      locks := t.locks + {OnPass(PassIdOf(t))},
                      work := t.work.(pass := Some(PassEditOf(t).ledger.row.(version := s.clock)),
                                      movements := PassEditOf(t).ledger.pending))
    ensures SessionOk(s', t')
  {
    assert PassIdOf(t') == PassIdOf(t) && PassEditOf(t') == PassEditOf(t);
    var ledger := PassEditOf(t).ledger;
    assert ledger.row.version == t.pass.value.version;
    assert Ledger(t'.work.pass.value.(version := t.pass.value.version), t'.work.movements) == ledger;
    assert PassSeen(s', t');
    assert WroteOk(s', t');
  }

  lemma SkipPassSession(s: State, s': State, t: Session)
    requires SessionOk(s, t) && t.phase == PassRead && PassEditOf(t) == Nothing && SameTables(s, s')
    ensures SessionOk(s', t.(phase := PassWritten))
  {
    var t' := t.(phase := PassWritten);
    assert PassIdOf(t') == PassIdOf(t) && PassEditOf(t') == PassEditOf(t);
    SessionKeeps(s, s', t);
  }

  lemma WritePassKeeps(s: State, client: int)
    requires Inv(s) && client in s.sessions && s.sessions[client].phase == PassRead
    ensures Inv(WritePass(s, client, s.sessions[client]))
  {
    var t := s.sessions[client];
    assert SessionOk(s, t);
    StoreEditKeeps(s, client, PassEditOf(t));
  }

  lemma StoreEditKeeps(s: State, client: int, edit: PassEdit)
    requires Inv(s) && client in s.sessions && s.sessions[client].phase == PassRead
    requires s.sessions[client].pass.Some? && edit == PassEditOf(s.sessions[client])
    ensures Inv(StoreEdit(s, client, s.sessions[client], edit, s.sessions[client].pass.value.version))
  {
    var t := s.sessions[client];
    match edit
    case Refused => DropKeeps(s, client);
    case Nothing =>
      SkipPassSession(s, s, t);
      PutKeeps(s, client, t.(phase := PassWritten));
    case Write(ledger) =>
      DropKeeps(s, client);
      if Free(s, client, OnPass(PassIdOf(t))) && PassIdOf(t) in s.passes
        && s.passes[PassIdOf(t)].version == t.pass.value.version {
        WrittenKeeps(s, client, t, ledger);
      }
  }

  lemma WrittenKeeps(s: State, client: int, t: Session, ledger: Ledger)
    requires Inv(s) && client in s.sessions && s.sessions[client] == t && t.phase == PassRead
    requires t.pass.Some? && PassEditOf(t) == Write(ledger) && Free(s, client, OnPass(PassIdOf(t)))
    requires PassIdOf(t) in s.passes && s.passes[PassIdOf(t)].version == t.pass.value.version
    ensures Inv(StoreEdit(s, client, t, Write(ledger), t.pass.value.version))
  {
    var t' := t.(phase := if t.job.PatchPassJob? then Ready else PassWritten,
                 locks := t.locks + {OnPass(PassIdOf(t))},
                 work := t.work.(pass := Some(ledger.row.(version := s.clock)), movements := ledger.pending));
    var s' := Put(s, client, t').(clock := s.clock + 1);
    assert s' == StoreEdit(s, client, t, Write(ledger), t.pass.value.version);
    WritePassSession(s, s', t, t');
    forall other | other in s.sessions && other != client
      ensures t'.locks !! s.sessions[other].locks
    {
      assert t.locks !! s.sessions[other].locks;
    }
    LocalStep(s, s', client, t');
  }

  lemma WriteReservationKeeps(s: State, client: int)
    requires Inv(s) && client in s.sessions
    requires var t := s.sessions[client];
      || (t.phase == ReservationRead && Moving(t.job)) || (t.phase == PassWritten && !t.job.RegisterJob?)
    ensures Inv(WriteReservation(s, client, s.sessions[client]))
  {
    var t := s.sessions[client];
    var s' := WriteReservation(s, client, t);
    DropKeeps(s, client);
    if s' != s && s' != Drop(s, client) {
      var t' := s'.sessions[client];
      assert s.ever[ReservationIdOf(t.job)] == s.rows[ReservationIdOf(t.job)];
      if Moving(t.job) {
        assert MoveReady(s', t');
      } else {
        assert PassEditOf(t') == PassEditOf(t);
        assert RefundReady(s', t');
      }
      LocalStep(s, s', client, t');
    }
  }

  // ---------- Batch jobs and deletion ----------

  lemma ReadActivityKeeps(s: State, client: int)
    requires Inv(s) && client in s.sessions && s.sessions[client].phase == Begin && Batch(s.sessions[client].job)
    ensures Inv(ReadActivity(s, client, s.sessions[client]))
  {
    var s' := ReadActivity(s, client, s.sessions[client]);
    DropKeeps(s, client);
    if s' != Drop(s, client) {
      LocalStep(s, s', client, s'.sessions[client]);
    }
  }

  lemma ListReservationsKeeps(s: State, client: int)
    requires Inv(s) && client in s.sessions && s.sessions[client].phase == ActivityRead
    ensures Inv(ListReservations(s, client, s.sessions[client]))
  {
    assert SessionOk(s, s.sessions[client]);
    var s' := ListReservations(s, client, s.sessions[client]);
    DropKeeps(s, client);
    if s' != Drop(s, client) {
      LocalStep(s, s', client, s'.sessions[client]);
    }
  }

  lemma ProcessNextKeeps(s: State, client: int)
    requires Inv(s) && client in s.sessions && s.sessions[client].phase == Listed && s.sessions[client].todo != []
    ensures Inv(ProcessNext(s, client, s.sessions[client]))
  {
    var t := s.sessions[client];
    var s' := ProcessNext(s, client, t);
    DropKeeps(s, client);
    if s' != s && s' != Drop(s, client) {
      var target := BatchTarget(s, t.job, t.todo[0], s.rows[t.todo[0]]).value;
      var t' := t.(todo := t.todo[1..], locks := t.locks + {OnReservation(t.todo[0])},
                   work := t.work.(statuses := t.work.statuses[t.todo[0] := target]));
      assert s' == Put(s, client, t');
      ProcessedSession(s, t, t', target);
      SessionKeeps(s, s', t');
      LocalStep(s, s', client, t');
    }
  }

  lemma ProcessedSession(s: State, t: Session, t': Session, target: Status)
    requires TablesOk(s) && SessionOk(s, t) && t.phase == Listed && t.todo != [] && t.todo[0] in s.rows
    requires BatchTarget(s, t.job, t.todo[0], s.rows[t.todo[0]]) == Some(target)
    requires t' == t.(todo := t.todo[1..], locks := t.locks + {OnReservation(t.todo[0])},
                      work := t.work.(statuses := t.work.statuses[t.todo[0] := target]))
    ensures SessionOk(s, t')
  {
    BatchTargetIsAnArrow(s, t.job, t.todo[0], s.rows[t.todo[0]], target);
    assert BatchOk(s, t');
    assert StatusesOk(s, t');
    ProcessedStaysInScope(s, t, t');
  }

  lemma ProcessedStaysInScope(s: State, t: Session, t': Session)
    requires Scoped(s, t) && LocksWhatItWrites(t) && t.todo != []
    requires t' == t.(todo := t.todo[1..], locks := t.locks + {OnReservation(t.todo[0])}, work := t'.work)
    requires t'.work.statuses.Keys == t.work.statuses.Keys + {t.todo[0]}
    ensures Scoped(s, t') && LocksWhatItWrites(t')
  {
    assert t.todo[0] in t.todo && forall r :: r in t'.todo ==> r in t.todo;
  }

  lemma BatchTargetIsAnArrow(s: State, job: Job, id: int, row: ReservationRow, target: Status)
    requires Batch(job) && BatchTarget(s, job, id, row) == Some(target)
    ensures Arrow(row.status, target) && target == if job.CloseJob? && id in job.noShows then NoShow else Completed
  {}

  lemma CloseActivityKeeps(s: State, client: int)
    requires Inv(s) && client in s.sessions && s.sessions[client].phase == Listed
    ensures Inv(CloseActivity(s, client, s.sessions[client]))
  {
    var s' := CloseActivity(s, client, s.sessions[client]);
    DropKeeps(s, client);
    if s' != s && s' != Drop(s, client) {
      LocalStep(s, s', client, s'.sessions[client]);
    }
  }

  lemma GuardDeleteKeeps(s: State, client: int)
    requires Inv(s) && client in s.sessions && s.sessions[client].phase == Begin
    requires s.sessions[client].job.DeleteActivityJob?
    ensures Inv(GuardDelete(s, client, s.sessions[client]))
  {
    var s' := GuardDelete(s, client, s.sessions[client]);
    DropKeeps(s, client);
    if s' != Drop(s, client) {
      LocalStep(s, s', client, s'.sessions[client]);
    }
  }

  lemma {:induction false} VisitedMembers(scan: seq<int>, rows: set<int>)
    ensures forall r :: r in Visited(scan, rows) <==> r in rows && r in scan
  {
    if scan == [] {
    } else {
      assert scan == [scan[0]] + scan[1..];
      VisitedMembers(scan[1..], rows - {scan[0]});
      VisitedMembers(scan[1..], rows);
    }
  }

  lemma CascadeOrderMembers(scan: seq<int>, rows: set<int>, bound: nat)
    requires forall r :: r in rows ==> 0 <= r < bound
    ensures forall r :: r in CascadeOrder(scan, rows, bound) <==> r in rows
  {
    VisitedMembers(scan, rows);
  }

  lemma BeginDeleteKeeps(s: State, client: int)
    requires Inv(s) && client in s.sessions && s.sessions[client].phase == Guarded
    ensures s.sessions[client].job.DeleteActivityJob?
    ensures Inv(BeginDelete(s, client, s.sessions[client]))
  {
    var t := s.sessions[client];
    assert SessionOk(s, t);
    var s' := BeginDelete(s, client, t);
    DropKeeps(s, client);
    if s' != s && s' != Drop(s, client) {
      CascadeOrderMembers(t.job.scan, RowsOf(s.rows, t.job.activityId), s.nextId);
      LocalStep(s, s', client, s'.sessions[client]);
    }
  }

  lemma CascadeNextKeeps(s: State, client: int)
    requires Inv(s) && client in s.sessions && s.sessions[client].phase == Deleting && s.sessions[client].todo != []
    ensures s.sessions[client].job.DeleteActivityJob?
    ensures Inv(CascadeNext(s, client, s.sessions[client]))
  {
    var t := s.sessions[client];
    assert SessionOk(s, t);
    var s' := CascadeNext(s, client, t);
    if s' != s {
      assert t.todo == [t.todo[0]] + t.todo[1..];
      assert CascadeCovers(s', s'.sessions[client]);
      LocalStep(s, s', client, s'.sessions[client]);
    }
  }
}
