/** The checks a booking passes before it is written (internal/usecase/reservation/register.go). */
module Admission {

  import opened Outcomes
  import opened Counting
  import opened Reservations
  import opened Activities
  import opened Compatibility
  import PendingReasons

  datatype Refusal =
    | ActivityFull
    | InvalidDog
    | DogNotActive
    | IndividualClassDogMismatch
    | DogSizeMismatch
    | SexNeuteredConflict
    | IncompatibleDogs

  /**
   * `holders` are the dogs already holding a slot, `heldSlots` the number of slots held. An
   * administrator's override skips ownership, size and compatibility, never capacity, activity of
   * the dog or the target of an individual class.
   */
  ghost function Admit(activity: ActivityRow, dog: Dog, holders: set<Dog>, heldSlots: nat,
                       userId: int, admin: bool): Result<Status, Refusal>
  {
    if IsFull(activity, heldSlots) then Failure(ActivityFull)
    else if !admin && dog.userId != userId then Failure(InvalidDog)
    else if !dog.isActive then Failure(DogNotActive)
    else if activity.kind == Individual && activity.dogId != Some(dog.id) then Failure(IndividualClassDogMismatch)
    else if admin then Success(Confirmed)
    else if !IsTargetedAtSize(activity, SizeOf(dog)) then Failure(DogSizeMismatch)
    else Reviewed(dog, holders)
  }

  /** The compatibility check: the worst pair decides. */
  ghost function Reviewed(dog: Dog, holders: set<Dog>): Result<Status, Refusal> {
    if exists other :: other in holders && SexBlocked(dog, other) then Failure(SexNeuteredConflict)
    else if exists other :: other in holders && TriggerBetween({Absoluta}, dog, other) then Failure(IncompatibleDogs)
    else if NeedsReview(dog, holders) then Success(PendingToConfirm)
    else Success(Confirmed)
  }

  /** What holds a booking for an administrator's decision instead of confirming it outright. */
  ghost predicate NeedsReview(dog: Dog, holders: set<Dog>) {
    || dog.hasSpecialCondition
    || (exists other :: other in holders && SexNeuteredConflictsWith(dog, Some(other)) != [])
    || (exists other :: other in holders && TriggerBetween({Absoluta, Media, Baja}, dog, other))
  }

  /** The dog may be in this activity at all. */
  ghost predicate WellPlaced(activity: ActivityRow, dog: Dog, admin: bool) {
    && (activity.kind == Individual ==> activity.dogId == Some(dog.id))
    && (admin || IsTargetedAtSize(activity, SizeOf(dog)))
  }

  /**
   * Without an override the verdict is decided by the worst pair: blocked if any holder is
   * incompatible, held if any holder gives cause for review, confirmed only if none does.
   */
  lemma VerdictIsTheWorstPair(activity: ActivityRow, dog: Dog, holders: set<Dog>, heldSlots: nat, userId: int)
    requires !IsFull(activity, heldSlots) && dog.userId == userId && dog.isActive && WellPlaced(activity, dog, false)
    ensures var verdict := Admit(activity, dog, holders, heldSlots, userId, false);
      && (verdict.Failure? <==> exists other :: other in holders && !Compatible(dog, other))
      && (verdict == Success(Confirmed) <==>
            && !dog.hasSpecialCondition
            && forall other :: other in holders && other.id != dog.id ==>
                 !(dog.sex == Male && other.sex == Male)
                 && !TriggersAt({Absoluta, Media, Baja}, dog, other)
                 && !TriggersAt({Absoluta, Media, Baja}, other, dog))
  {
    if other: Dog :| other in holders && !Compatible(dog, other) {
      assert SexBlocked(dog, other) || TriggerBetween({Absoluta}, dog, other);
    }
    forall other | other in holders
      ensures SexBlocked(dog, other) ==> SexNeuteredConflictsWith(dog, Some(other)) != []
      ensures TriggerBetween({Absoluta}, dog, other) ==> TriggerBetween({Absoluta, Media, Baja}, dog, other)
    {
      AbsoluteIsATrigger(dog, other);
      AbsoluteIsATrigger(other, dog);
    }
  }

  lemma AbsoluteIsATrigger(dog: Dog, other: Dog)
    ensures TriggersAt({Absoluta}, dog, other) ==> TriggersAt({Absoluta, Media, Baja}, dog, other)
  {}

  // ---------- The same, gathered conflict by conflict ----------

  const SEX_NEUTERED_PREFIX := "sex_neutered:"
  const HAS_SPECIAL_CONDITION := "has_special_condition"

  function Code(reason: SexReason): string {
    match reason
    case NoConflict => ""
    case IntactVsIntact => "intact_vs_intact"
    case IntactVsCastrated => "intact_vs_castrated"
    case CastratedVsIntact => "castrated_vs_intact"
    case CastratedVsCastrated => "castrated_vs_castrated"
  }

  /** One reason for every conflict that has one. */
  function SexReasons(conflicts: seq<SexConflict>): seq<PendingReasons.PendingReason> {
    if conflicts == [] then []
    else
      var c := conflicts[|conflicts| - 1];
      SexReasons(conflicts[..|conflicts| - 1])
      + if c.Reason() == NoConflict then []
        else [PendingReasons.PendingReason(SEX_NEUTERED_PREFIX + Code(c.Reason()), Some([c.incomingDogId, c.existingDogId]))]
  }

  function SpecialReasons(dog: Dog): seq<PendingReasons.PendingReason> {
    if dog.hasSpecialCondition then [PendingReasons.PendingReason(HAS_SPECIAL_CONDITION, Some([dog.id]))] else []
  }

  /** What a booking that is let in waits for; an administrator's override waits for nothing. */
  function ReasonsFor(dog: Dog, others: seq<Dog>, admin: bool): seq<PendingReasons.PendingReason> {
    if admin then [] else SexReasons(SexConflicts(dog, others)) + SpecialReasons(dog)
  }

  /** All sex conflicts of a dog with the holders, in their order. */
  function SexConflicts(dog: Dog, others: seq<Dog>): seq<SexConflict> {
    if others == [] then []
    else SexConflicts(dog, others[..|others| - 1]) + SexNeuteredConflictsWith(dog, Some(others[|others| - 1]))
  }

  lemma {:induction false} SexConflictsAreExact(dog: Dog, others: seq<Dog>)
    ensures forall c :: c in SexConflicts(dog, others) <==> exists other :: other in others && c in SexNeuteredConflictsWith(dog, Some(other))
  {
    if others == [] {
    } else {
      SexConflictsAreExact(dog, others[..|others| - 1]);
      assert others == others[..|others| - 1] + [others[|others| - 1]];
    }
  }

  /** Between males every conflict has its reason, with a code that can be stored. */
  lemma {:induction false} EveryConflictHasAReason(dog: Dog, others: seq<Dog>)
    ensures |SexReasons(SexConflicts(dog, others))| == |SexConflicts(dog, others)|
    ensures forall reason :: reason in SexReasons(SexConflicts(dog, others)) ==> reason.code != ""
  {
    if others == [] {
    } else {
      var init, last := others[..|others| - 1], others[|others| - 1];
      EveryConflictHasAReason(dog, init);
      var before, more := SexConflicts(dog, init), SexNeuteredConflictsWith(dog, Some(last));
      if more == [] {
        assert before + more == before;
      } else {
        assert (before + more)[..|before|] == before;
      }
    }
  }

  method GatherSexConflicts(dog: Dog, others: seq<Dog>) returns (conflicts: seq<SexConflict>)
    ensures conflicts == SexConflicts(dog, others)
  {
    conflicts := [];
    for i := 0 to |others|
      invariant conflicts == SexConflicts(dog, others[..i])
    {
      assert others[..i + 1][..i] == others[..i];
      conflicts := conflicts + SexNeuteredConflictsWith(dog, Some(others[i]));
    }
    assert others[..|others|] == others;
  }

  method HasBlockingSexConflict(conflicts: seq<SexConflict>) returns (found: bool)
    ensures found <==> exists c :: c in conflicts && c.IsBlocker()
  {
    for i := 0 to |conflicts|
      invariant forall j :: 0 <= j < i ==> !conflicts[j].IsBlocker()
    {
      if conflicts[i].IsBlocker() {
        return true;
      }
    }
    return false;
  }

  const ALL_LEVELS: set<Level> := {Absoluta, Media, Baja}

  /** The list has a conflict of one of the levels exactly if there is one, in either direction, with one of the dogs. */
  ghost predicate Tells(conflicts: seq<Conflict>, dog: Dog, others: seq<Dog>, levels: set<Level>) {
    (exists c :: c in conflicts && c.triggerLevel in levels) <==> (exists other :: other in others && TriggerBetween(levels, dog, other))
  }

  method GatherConflicts(dog: Dog, others: seq<Dog>) returns (conflicts: seq<Conflict>)
    ensures Tells(conflicts, dog, others, {Absoluta}) && Tells(conflicts, dog, others, ALL_LEVELS)
  {
    conflicts := [];
    for i := 0 to |others|
      invariant Tells(conflicts, dog, others[..i], {Absoluta}) && Tells(conflicts, dog, others[..i], ALL_LEVELS)
    {
      var more := ConflictsWith(dog, Some(others[i]));
      TellsMore(conflicts, more, dog, others, i, {Absoluta});
      TellsMore(conflicts, more, dog, others, i, ALL_LEVELS);
      conflicts := conflicts + more;
    }
    assert others[..|others|] == others;
  }

  lemma TellsMore(conflicts: seq<Conflict>, more: seq<Conflict>, dog: Dog, others: seq<Dog>, i: nat, levels: set<Level>)
    requires i < |others| && AreConflictsBetween(more, dog, others[i]) && Tells(conflicts, dog, others[..i], levels)
    ensures Tells(conflicts + more, dog, others[..i + 1], levels)
  {
    assert others[..i + 1] == others[..i] + [others[i]];
    LevelsBetween(more, dog, others[i], levels);
    if c: Conflict :| c in conflicts && c.triggerLevel in levels {
      assert c in conflicts + more;
    }
    if c: Conflict :| c in more && c.triggerLevel in levels {
      assert c in conflicts + more;
    }
    if c: Conflict :| c in conflicts + more && c.triggerLevel in levels {
      assert c in conflicts || c in more;
    }
  }

  /** The first half: a blocking pair of males, or a reason for every pair of males. */
  method ReviewSexes(dog: Dog, others: seq<Dog>) returns (blocked: bool, reasons: seq<PendingReasons.PendingReason>)
    ensures blocked <==> exists other :: other in SetOf(others) && SexBlocked(dog, other)
    ensures reasons == SexReasons(SexConflicts(dog, others))
    ensures reasons != [] <==> exists other :: other in SetOf(others) && SexNeuteredConflictsWith(dog, Some(other)) != []
    ensures forall reason :: reason in reasons ==> reason.code != ""
  {
    var conflicts := GatherSexConflicts(dog, others);
    AnyConflict(dog, others);
    EveryConflictHasAReason(dog, others);
    blocked := HasBlockingSexConflict(conflicts);
    AnyBlocked(dog, others);
    reasons := [];
    for i := 0 to |conflicts|
      invariant reasons == SexReasons(conflicts[..i])
    {
      var c := conflicts[i];
      assert conflicts[..i + 1][..i] == conflicts[..i];
      if c.Reason() != NoConflict {
        reasons := reasons + [PendingReasons.PendingReason(SEX_NEUTERED_PREFIX + Code(c.Reason()), Some([c.incomingDogId, c.existingDogId]))];
      }
    }
    assert conflicts[..|conflicts|] == conflicts;
  }

  /** The second half: what the triggers say. */
  method ReviewTriggers(dog: Dog, others: seq<Dog>) returns (found: bool, absolute: bool)
    ensures found <==> exists other :: other in SetOf(others) && TriggerBetween({Absoluta, Media, Baja}, dog, other)
    ensures absolute <==> exists other :: other in SetOf(others) && TriggerBetween({Absoluta}, dog, other)
  {
    var conflicts := GatherConflicts(dog, others);
    AnyTrigger(conflicts, dog, others);
    absolute := HasAbsoluteConflict(conflicts);
    found := |conflicts| > 0;
  }

  /**
   * The compatibility check as the code runs it: gather the sex conflicts, refuse a blocking one, gather
   * the trigger conflicts, refuse an ABSOLUTA one, and hold the booking if anything is left. Its verdict
   * is that of the worst pair, and its reasons can all be stored.
   */
  method Review(dog: Dog, others: seq<Dog>) returns (verdict: Result<Status, Refusal>, reasons: seq<PendingReasons.PendingReason>)
    ensures verdict == Reviewed(dog, SetOf(others))
    ensures verdict.Success? ==> reasons == ReasonsFor(dog, others, false)
    ensures verdict == Failure(SexNeuteredConflict) <==>
      exists o :: o in others && o.id != dog.id && o.sex == Male && !o.neutered && dog.sex == Male && !dog.neutered
    ensures verdict == Failure(IncompatibleDogs) ==>
      exists o :: o in others && o.id != dog.id && (TriggersAt({Absoluta}, dog, o) || TriggersAt({Absoluta}, o, dog))
    ensures verdict.Success? ==>
      forall o :: o in others && o.id != dog.id ==> !TriggersAt({Absoluta}, dog, o) && !TriggersAt({Absoluta}, o, dog)
    ensures verdict in {Failure(SexNeuteredConflict), Failure(IncompatibleDogs), Success(Confirmed), Success(PendingToConfirm)}
    ensures forall reason :: reason in reasons ==> reason.code != ""
    ensures verdict.Success? && reasons != [] ==> verdict.value == PendingToConfirm
  {
    ReviewedMeans(dog, others);
    var blocked, sexReasons := ReviewSexes(dog, others);
    if blocked {
      return Failure(SexNeuteredConflict), [];
    }
    var status := if sexReasons != [] then PendingToConfirm else Confirmed;
    var found, absolute := ReviewTriggers(dog, others);
    if absolute {
      return Failure(IncompatibleDogs), [];
    }
    if found {
      status := PendingToConfirm;
    }
    reasons := sexReasons;
    if dog.hasSpecialCondition {
      status := PendingToConfirm;
      reasons := reasons + [PendingReasons.PendingReason(HAS_SPECIAL_CONDITION, Some([dog.id]))];
    }
    return Success(status), reasons;
  }

  lemma ReviewedMeans(dog: Dog, others: seq<Dog>)
    ensures var verdict := Reviewed(dog, SetOf(others));
      && (verdict == Failure(SexNeuteredConflict) <==>
            exists o :: o in others && o.id != dog.id && o.sex == Male && !o.neutered && dog.sex == Male && !dog.neutered)
      && (verdict == Failure(IncompatibleDogs) ==>
            exists o :: o in others && o.id != dog.id && (TriggersAt({Absoluta}, dog, o) || TriggersAt({Absoluta}, o, dog)))
      && (verdict.Success? ==>
            forall o :: o in others && o.id != dog.id ==> !TriggersAt({Absoluta}, dog, o) && !TriggersAt({Absoluta}, o, dog))
      && verdict in {Failure(SexNeuteredConflict), Failure(IncompatibleDogs), Success(Confirmed), Success(PendingToConfirm)}
  {
    forall o | o in others
      ensures o in SetOf(others) && (SexBlocked(dog, o) <==> o.id != dog.id && o.sex == Male && !o.neutered && dog.sex == Male && !dog.neutered)
    {
      SexRule(dog, o);
    }
    assert forall o :: o in SetOf(others) ==> o in others;
  }

  /**
   * What a booking is held for: one reason for every other male among the holders if the dog is a male,
   * saying who of the two is castrated, and one for a special condition.
   */
  lemma ReasonsAreSpelledOut(dog: Dog, others: seq<Dog>, reason: PendingReasons.PendingReason)
    ensures reason in ReasonsFor(dog, others, false) <==>
      || (dog.hasSpecialCondition && reason == PendingReasons.PendingReason("has_special_condition", Some([dog.id])))
      || (exists o :: o in others && o.id != dog.id && o.sex == Male && dog.sex == Male
            && reason == PendingReasons.PendingReason(
                 "sex_neutered:" + (if dog.neutered then "castrated" else "intact") + "_vs_" + (if o.neutered then "castrated" else "intact"),
                 Some([dog.id, o.id])))
  {
    SexReasonsAreSpelledOut(dog, others, reason);
  }

  lemma {:induction false} SexReasonsAreSpelledOut(dog: Dog, others: seq<Dog>, reason: PendingReasons.PendingReason)
    ensures reason in SexReasons(SexConflicts(dog, others)) <==>
      exists o :: o in others && o.id != dog.id && o.sex == Male && dog.sex == Male
        && reason == PendingReasons.PendingReason(
             "sex_neutered:" + (if dog.neutered then "castrated" else "intact") + "_vs_" + (if o.neutered then "castrated" else "intact"),
             Some([dog.id, o.id]))
  {
    if others == [] {
    } else {
      var init, last := others[..|others| - 1], others[|others| - 1];
      assert others == init + [last];
      SexReasonsAreSpelledOut(dog, init, reason);
      var before, more := SexConflicts(dog, init), SexNeuteredConflictsWith(dog, Some(last));
      if more == [] {
        assert before + more == before;
      } else {
        assert (before + more)[..|before|] == before;
        SexCodeIsSpelledOut(dog, last);
      }
    }
  }

  lemma SexCodeIsSpelledOut(dog: Dog, other: Dog)
    requires SexNeuteredConflictsWith(dog, Some(other)) != []
    ensures var c := SexNeuteredConflictsWith(dog, Some(other))[0];
      && c.Reason() != NoConflict && c.incomingDogId == dog.id && c.existingDogId == other.id
      && SEX_NEUTERED_PREFIX + Code(c.Reason())
         == "sex_neutered:" + (if dog.neutered then "castrated" else "intact") + "_vs_" + (if other.neutered then "castrated" else "intact")
  {
    assert "intact" + "_vs_" + "intact" == "intact_vs_intact" && "intact" + "_vs_" + "castrated" == "intact_vs_castrated";
    assert "castrated" + "_vs_" + "intact" == "castrated_vs_intact" && "castrated" + "_vs_" + "castrated" == "castrated_vs_castrated";
    var d, o := if dog.neutered then "castrated" else "intact", if other.neutered then "castrated" else "intact";
    assert "sex_neutered:" + d + "_vs_" + o == "sex_neutered:" + (d + "_vs_" + o);
  }

  lemma AnyBlocked(dog: Dog, others: seq<Dog>)
    ensures (exists c :: c in SexConflicts(dog, others) && c.IsBlocker()) <==> (exists other :: other in SetOf(others) && SexBlocked(dog, other))
  {
    SexConflictsAreExact(dog, others);
    if c: SexConflict :| c in SexConflicts(dog, others) && c.IsBlocker() {
      var other :| other in others && c in SexNeuteredConflictsWith(dog, Some(other));
      assert other in SetOf(others) && SexBlocked(dog, other);
    }
    if other: Dog :| other in SetOf(others) && SexBlocked(dog, other) {
      var c :| c in SexNeuteredConflictsWith(dog, Some(other)) && c.IsBlocker();
      assert c in SexConflicts(dog, others);
    }
  }

  lemma AnyConflict(dog: Dog, others: seq<Dog>)
    ensures SexConflicts(dog, others) != [] <==> exists other :: other in SetOf(others) && SexNeuteredConflictsWith(dog, Some(other)) != []
  {
    SexConflictsAreExact(dog, others);
    if SexConflicts(dog, others) != [] {
      assert SexConflicts(dog, others)[0] in SexConflicts(dog, others);
    }
    if other: Dog :| other in SetOf(others) && SexNeuteredConflictsWith(dog, Some(other)) != [] {
      assert SexNeuteredConflictsWith(dog, Some(other))[0] in SexConflicts(dog, others);
    }
  }

  lemma AnyTrigger(conflicts: seq<Conflict>, dog: Dog, others: seq<Dog>)
    requires Tells(conflicts, dog, others, {Absoluta}) && Tells(conflicts, dog, others, ALL_LEVELS)
    ensures |conflicts| > 0 <==> exists other :: other in SetOf(others) && TriggerBetween({Absoluta, Media, Baja}, dog, other)
    ensures (exists c :: c in conflicts && c.triggerLevel == Absoluta)
      <==> (exists other :: other in SetOf(others) && TriggerBetween({Absoluta}, dog, other))
  {
    if |conflicts| > 0 {
      var level := conflicts[0].triggerLevel;
      assert level == Absoluta || level == Media || level == Baja;
      assert conflicts[0] in conflicts && level in ALL_LEVELS;
    }
    if c: Conflict :| c in conflicts && c.triggerLevel == Absoluta {
      assert c.triggerLevel in {Absoluta};
    }
  }

  /** Everything between the list of holders and the pass: who is let in, and in which status. */
  method Decide(activity: ActivityRow, dog: Dog, others: seq<Dog>, heldSlots: nat, userId: int, admin: bool)
    returns (verdict: Result<Status, Refusal>, reasons: seq<PendingReasons.PendingReason>)
    ensures verdict == Admit(activity, dog, SetOf(others), heldSlots, userId, admin)
    ensures verdict.Success? ==> reasons == ReasonsFor(dog, others, admin)
    ensures verdict.Success? ==>
      && heldSlots < activity.maxCapacity && dog.isActive && (activity.kind == Individual ==> activity.dogId == Some(dog.id))
      && (admin || (dog.userId == userId && (activity.sizeTarget.None? || activity.sizeTarget.value == SizeOf(dog))))
    ensures admin && verdict.Success? ==> verdict.value == Confirmed && reasons == []
    ensures verdict == Failure(ActivityFull) <==> heldSlots >= activity.maxCapacity
    ensures heldSlots < activity.maxCapacity ==>
      && (verdict == Failure(InvalidDog) <==> !admin && dog.userId != userId)
      && (admin || dog.userId == userId ==>
        && (verdict == Failure(DogNotActive) <==> !dog.isActive)
        && (dog.isActive ==>
          && (verdict == Failure(IndividualClassDogMismatch) <==> activity.kind == Individual && activity.dogId != Some(dog.id))
          && (activity.kind != Individual || activity.dogId == Some(dog.id) ==>
            && (verdict == Failure(DogSizeMismatch) <==>
                  !admin && activity.sizeTarget.Some? && activity.sizeTarget.value != SizeOf(dog))
            && (admin ==> verdict == Success(Confirmed)))))
    ensures forall reason :: reason in reasons ==> reason.code != ""
    ensures verdict.Success? && reasons != [] ==> verdict.value == PendingToConfirm
  {
    if IsFull(activity, heldSlots) {
      return Failure(ActivityFull), [];
    }
    if !admin && dog.userId != userId {
      return Failure(InvalidDog), [];
    }
    if !dog.isActive {
      return Failure(DogNotActive), [];
    }
    if activity.kind == Individual && activity.dogId != Some(dog.id) {
      return Failure(IndividualClassDogMismatch), [];
    }
    if !admin && !IsTargetedAtSize(activity, SizeOf(dog)) {
      return Failure(DogSizeMismatch), [];
    }
    if admin {
      return Success(Confirmed), [];
    }
    verdict, reasons := Review(dog, others);
  }
}
