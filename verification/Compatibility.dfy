/** Dog compatibility (internal/domain/dog.go, internal/domain/incompatibility.go). */
module Compatibility {

  import opened Outcomes
  import opened Activities

  datatype Level = Absoluta | Media | Baja

  /** A trait when code is not empty, a trigger when targetTraitCode is not empty. */
  datatype Incompatibility = Incompatibility(
    id: int, code: string, targetTraitCode: string, name: string, level: Level)

  datatype Sex = Male | Female

  datatype Dog = Dog(
    id: int, name: string, userId: int, sex: Sex, neutered: bool, isActive: bool,
    hasSpecialCondition: bool, weightKg: real,
    traits: seq<Incompatibility>, incompatibilities: seq<Incompatibility>)

  datatype Conflict = Conflict(
    triggerName: string, triggerLevel: Level, triggerDogId: int, triggerDogName: string,
    targetTraitCode: string, targetTraitName: string, targetDogId: int, targetDogName: string)

  function SizeOf(dog: Dog): SizeBracket {
    if dog.weightKg <= 0.0 then Unknown
    else if dog.weightKg <= 5.0 then Mini
    else if dog.weightKg <= 20.0 then Medium
    else Large
  }

  /** Up to 5 kg, up to 20 kg, above; unknown without a positive weight. */
  lemma SizeIsByWeight(dog: Dog)
    ensures SizeOf(dog) == Mini <==> 0.0 < dog.weightKg <= 5.0
    ensures SizeOf(dog) == Medium <==> 5.0 < dog.weightKg <= 20.0
    ensures SizeOf(dog) == Large <==> 20.0 < dog.weightKg
  {}

  // ---------- Triggers and traits ----------

  /** The dog presents a trait with this (non-empty) code. */
  ghost predicate HasTrait(dog: Dog, code: string) {
    code != "" && exists i :: 0 <= i < |dog.traits| && dog.traits[i].code == code
  }

  ghost predicate Fires(trigger: Incompatibility, target: Dog) {
    HasTrait(target, trigger.targetTraitCode)
  }

  method HasTraitCode(dog: Dog, code: string) returns (found: bool)
    ensures found == HasTrait(dog, code)
  {
    if code == "" {
      return false;
    }
    for i := 0 to |dog.traits|
      invariant forall j :: 0 <= j < i ==> dog.traits[j].code != code
    {
      if dog.traits[i].code == code {
        return true;
      }
    }
    return false;
  }

  lemma TraitsByMembership(dog: Dog, code: string)
    ensures HasTrait(dog, code) <==> code != "" && exists p :: p in dog.traits && p.code == code
  {
    if p: Incompatibility :| p in dog.traits && p.code == code {
      var i :| 0 <= i < |dog.traits| && dog.traits[i] == p;
    }
    if i: int :| 0 <= i < |dog.traits| && dog.traits[i].code == code {
      assert dog.traits[i] in dog.traits;
    }
  }

  method FiresOn(trigger: Incompatibility, target: Dog) returns (fires: bool)
    ensures fires == Fires(trigger, target)
    ensures fires <==> trigger.targetTraitCode != "" && exists p :: p in target.traits && p.code == trigger.targetTraitCode
  {
    TraitsByMembership(target, trigger.targetTraitCode);
    if trigger.targetTraitCode == "" {
      return false;
    }
    fires := HasTraitCode(target, trigger.targetTraitCode);
  }

  /** Positions of the triggers among the first n that fire, in order. */
  ghost function Firing(triggers: seq<Incompatibility>, target: Dog, n: nat): (positions: seq<nat>)
    requires n <= |triggers|
    ensures forall k :: 0 <= k < |positions| ==> positions[k] < n && Fires(triggers[positions[k]], target)
  {
    if n == 0 then []
    else Firing(triggers, target, n - 1) + if Fires(triggers[n - 1], target) then [n - 1] else []
  }

  /** Strictly ascending and complete: every firing trigger is listed once, in trigger order. */
  lemma {:induction false} FiringIsExact(triggers: seq<Incompatibility>, target: Dog, n: nat)
    requires n <= |triggers|
    ensures var positions := Firing(triggers, target, n);
      && (forall k, l :: 0 <= k < l < |positions| ==> positions[k] < positions[l])
      && (forall i: nat :: i < n ==> (i in positions <==> Fires(triggers[i], target)))
  {
    if n == 0 {
    } else {
      FiringIsExact(triggers, target, n - 1);
    }
  }

  /** The conflict a trigger of one dog raises against a trait of the other. */
  ghost predicate Reports(conflict: Conflict, trigger: Incompatibility, triggerDog: Dog, targetDog: Dog) {
    && conflict.triggerName == trigger.name
    && conflict.triggerLevel == trigger.level
    && conflict.triggerDogId == triggerDog.id
    && conflict.triggerDogName == triggerDog.name
    && conflict.targetDogId == targetDog.id
    && conflict.targetDogName == targetDog.name
    && conflict.targetTraitCode == trigger.targetTraitCode
    && LastTraitNamed(targetDog.traits, trigger.targetTraitCode, conflict.targetTraitName)
  }

  /** When several traits share a code, the index keeps the last one. */
  ghost predicate LastTraitNamed(traits: seq<Incompatibility>, code: string, name: string) {
    exists i :: 0 <= i < |traits| && traits[i].code == code && traits[i].name == name
      && forall j :: i < j < |traits| ==> traits[j].code != code
  }

  /**
   * The exact result: one conflict per firing trigger, in trigger order, each naming the trigger and
   * the trait it fired on.
   */
  ghost predicate IsConflictList(conflicts: seq<Conflict>, triggerDog: Dog, targetDog: Dog) {
    var positions := Firing(triggerDog.incompatibilities, targetDog, |triggerDog.incompatibilities|);
    && |conflicts| == |positions|
    && forall k :: 0 <= k < |conflicts| ==>
      Reports(conflicts[k], triggerDog.incompatibilities[positions[k]], triggerDog, targetDog)
  }

  /** The index of target traits by code. */
  ghost predicate IsTraitIndex(index: map<string, Incompatibility>, traits: seq<Incompatibility>) {
    && (forall i :: 0 <= i < |traits| && traits[i].code != "" ==> traits[i].code in index)
    && (forall code :: code in index ==>
      && code != "" && index[code].code == code
      && LastTraitNamed(traits, code, index[code].name))
  }

  /** Every conflict stems from a trigger of the one dog and a trait of the other, and every pair of those that match is reported. */
  ghost predicate Traced(conflicts: seq<Conflict>, triggerDog: Dog, targetDog: Dog) {
    && (forall c :: c in conflicts ==>
          && c.triggerDogId == triggerDog.id && c.triggerDogName == triggerDog.name
          && c.targetDogId == targetDog.id && c.targetDogName == targetDog.name && c.targetTraitCode != ""
          && (exists t :: t in triggerDog.incompatibilities
                && t.name == c.triggerName && t.level == c.triggerLevel && t.targetTraitCode == c.targetTraitCode)
          && (exists p :: p in targetDog.traits && p.code == c.targetTraitCode && p.name == c.targetTraitName))
    && (forall t, p :: t in triggerDog.incompatibilities && p in targetDog.traits && p.code == t.targetTraitCode != "" ==>
          exists c :: c in conflicts && c.triggerName == t.name && c.triggerLevel == t.level && c.targetTraitCode == t.targetTraitCode)
  }

  /**
   * Builds the index, then walks the triggers. The lookup in the index is well defined whenever a
   * trigger fires, and returning early on an empty index loses nothing.
   */
  method ConflictsFrom(triggerDog: Dog, targetDog: Dog) returns (conflicts: seq<Conflict>)
    ensures IsConflictList(conflicts, triggerDog, targetDog)
    ensures Traced(conflicts, triggerDog, targetDog)
  {
    var index: map<string, Incompatibility> := map[];
    for i := 0 to |targetDog.traits|
      invariant IsTraitIndex(index, targetDog.traits[..i])
    {
      ghost var before := index;
      var presented := targetDog.traits[i];
      if presented.code != "" {
        index := index[presented.code := presented];
      }
      IndexStep(before, index, targetDog.traits, i);
    }
    assert targetDog.traits[..|targetDog.traits|] == targetDog.traits;
    if |index| == 0 {
      NothingFires(triggerDog.incompatibilities, targetDog, |triggerDog.incompatibilities|);
      ConflictsAreTraced([], triggerDog, targetDog);
      return [];
    }
    conflicts := [];
    var triggers := triggerDog.incompatibilities;
    for i := 0 to |triggers|
      invariant |conflicts| == |Firing(triggers, targetDog, i)|
      invariant forall k :: 0 <= k < |conflicts| ==>
        Reports(conflicts[k], triggers[Firing(triggers, targetDog, i)[k]], triggerDog, targetDog)
    {
      var fires := FiresOn(triggers[i], targetDog);
      if !fires {
        continue;
      }
      var target := index[triggers[i].targetTraitCode];
      conflicts := conflicts + [Conflict(triggers[i].name, triggers[i].level, triggerDog.id, triggerDog.name,
                                         target.code, target.name, targetDog.id, targetDog.name)];
    }
    ConflictsAreTraced(conflicts, triggerDog, targetDog);
  }

  lemma ConflictsAreTraced(conflicts: seq<Conflict>, triggerDog: Dog, targetDog: Dog)
    requires IsConflictList(conflicts, triggerDog, targetDog)
    ensures Traced(conflicts, triggerDog, targetDog)
  {
    var triggers := triggerDog.incompatibilities;
    var positions := Firing(triggers, targetDog, |triggers|);
    forall c | c in conflicts
      ensures exists t :: t in triggers && t.name == c.triggerName && t.level == c.triggerLevel && t.targetTraitCode == c.targetTraitCode
      ensures exists p :: p in targetDog.traits && p.code == c.targetTraitCode && p.name == c.targetTraitName
      ensures c.triggerDogId == triggerDog.id && c.triggerDogName == triggerDog.name
      ensures c.targetDogId == targetDog.id && c.targetDogName == targetDog.name && c.targetTraitCode != ""
    {
      var k :| 0 <= k < |conflicts| && conflicts[k] == c;
      assert Reports(c, triggers[positions[k]], triggerDog, targetDog) && Fires(triggers[positions[k]], targetDog);
      assert triggers[positions[k]] in triggers;
      var i :| 0 <= i < |targetDog.traits| && targetDog.traits[i].code == c.targetTraitCode && targetDog.traits[i].name == c.targetTraitName;
      assert targetDog.traits[i] in targetDog.traits;
    }
    forall t, p | t in triggers && p in targetDog.traits && p.code == t.targetTraitCode != ""
      ensures exists c :: c in conflicts && c.triggerName == t.name && c.triggerLevel == t.level && c.targetTraitCode == t.targetTraitCode
    {
      TraitsByMembership(targetDog, t.targetTraitCode);
      var i :| 0 <= i < |triggers| && triggers[i] == t;
      FiringIsExact(triggers, targetDog, |triggers|);
      assert i in positions;
      var k :| 0 <= k < |positions| && positions[k] == i;
      assert conflicts[k] in conflicts;
    }
  }

  lemma IndexStep(before: map<string, Incompatibility>, after: map<string, Incompatibility>,
                  traits: seq<Incompatibility>, i: nat)
    requires i < |traits|
    requires IsTraitIndex(before, traits[..i])
    requires after == if traits[i].code != "" then before[traits[i].code := traits[i]] else before
    ensures IsTraitIndex(after, traits[..i + 1])
  {
    var longer := traits[..i + 1];
    forall code | code in after
      ensures code != "" && after[code].code == code && LastTraitNamed(longer, code, after[code].name)
    {
      if code == traits[i].code {
        assert longer[i] == traits[i];
      } else {
        var k :| 0 <= k < i && traits[..i][k].code == code && traits[..i][k].name == before[code].name
          && forall j :: k < j < i ==> traits[..i][j].code != code;
        assert longer[k].code == code && longer[k].name == before[code].name;
        forall j | k < j < |longer|
          ensures longer[j].code != code
        {
          if j < i {
            assert longer[j] == traits[..i][j];
          }
        }
      }
    }
    forall k | 0 <= k < |longer| && longer[k].code != ""
      ensures longer[k].code in after
    {
      if k < i {
        assert longer[k] == traits[..i][k];
      }
    }
  }

  lemma {:induction false} NothingFires(triggers: seq<Incompatibility>, target: Dog, n: nat)
    requires n <= |triggers|
    requires forall i :: 0 <= i < |target.traits| ==> target.traits[i].code == ""
    ensures Firing(triggers, target, n) == []
  {
    if n == 0 {
    } else {
      NothingFires(triggers, target, n - 1);
    }
  }

  /** The result is determined: two lists meeting the description are equal. */
  lemma ConflictListIsUnique(one: seq<Conflict>, other: seq<Conflict>, triggerDog: Dog, targetDog: Dog)
    requires IsConflictList(one, triggerDog, targetDog) && IsConflictList(other, triggerDog, targetDog)
    ensures one == other
  {
    forall k | 0 <= k < |one|
      ensures one[k] == other[k]
    {
      LastTraitIsUnique(targetDog.traits, one[k].targetTraitCode, one[k].targetTraitName, other[k].targetTraitName);
    }
  }

  lemma LastTraitIsUnique(traits: seq<Incompatibility>, code: string, one: string, other: string)
    requires LastTraitNamed(traits, code, one) && LastTraitNamed(traits, code, other)
    ensures one == other
  {
    var i :| 0 <= i < |traits| && traits[i].code == code && traits[i].name == one
      && forall k :: i < k < |traits| ==> traits[k].code != code;
    var j :| 0 <= j < |traits| && traits[j].code == code && traits[j].name == other
      && forall k :: j < k < |traits| ==> traits[k].code != code;
    assert i == j;
  }

  /** Both directions, self excluded. */
  ghost predicate AreConflictsBetween(conflicts: seq<Conflict>, dog: Dog, other: Dog) {
    if dog.id == other.id then conflicts == []
    else exists there, back ::
      conflicts == there + back && IsConflictList(there, dog, other) && IsConflictList(back, other, dog)
  }

  method ConflictsWith(dog: Dog, other: Option<Dog>) returns (conflicts: seq<Conflict>)
    ensures other.None? ==> conflicts == []
    ensures other.Some? ==> AreConflictsBetween(conflicts, dog, other.value)
    ensures other.Some? && other.value.id == dog.id ==> conflicts == []
    ensures forall c :: c in conflicts ==>
      && other.Some? && other.value.id != dog.id
      && ((c.triggerDogId == dog.id && c.targetDogId == other.value.id) || (c.triggerDogId == other.value.id && c.targetDogId == dog.id))
  {
    if other.None? || other.value.id == dog.id {
      return [];
    }
    var there := ConflictsFrom(dog, other.value);
    var back := ConflictsFrom(other.value, dog);
    conflicts := there + back;
  }

  /** a.ConflictsWith(b) and b.ConflictsWith(a) are the same conflicts, up to order. */
  lemma ConflictsAreSymmetric(one: seq<Conflict>, other: seq<Conflict>, a: Dog, b: Dog)
    requires AreConflictsBetween(one, a, b) && AreConflictsBetween(other, b, a)
    ensures multiset(one) == multiset(other)
  {
    if a.id != b.id {
      var there, back :| one == there + back && IsConflictList(there, a, b) && IsConflictList(back, b, a);
      var there', back' :| other == there' + back' && IsConflictList(there', b, a) && IsConflictList(back', a, b);
      ConflictListIsUnique(there, back', a, b);
      ConflictListIsUnique(back, there', b, a);
    }
  }

  // ---------- The three verdicts admission draws from the conflicts ----------

  /** Some trigger of one dog at one of the given levels fires on the other. */
  ghost predicate TriggersAt(levels: set<Level>, dog: Dog, other: Dog) {
    exists i :: 0 <= i < |dog.incompatibilities| && dog.incompatibilities[i].level in levels
      && Fires(dog.incompatibilities[i], other)
  }

  ghost predicate TriggerBetween(levels: set<Level>, a: Dog, b: Dog) {
    a.id != b.id && (TriggersAt(levels, a, b) || TriggersAt(levels, b, a))
  }

  /** A conflict list contains a conflict of a given level exactly when such a trigger fires. */
  lemma ConflictLevels(conflicts: seq<Conflict>, triggerDog: Dog, targetDog: Dog, levels: set<Level>)
    requires IsConflictList(conflicts, triggerDog, targetDog)
    ensures (exists c :: c in conflicts && c.triggerLevel in levels) <==> TriggersAt(levels, triggerDog, targetDog)
  {
    var triggers := triggerDog.incompatibilities;
    var positions := Firing(triggers, targetDog, |triggers|);
    FiringIsExact(triggers, targetDog, |triggers|);
    if TriggersAt(levels, triggerDog, targetDog) {
      var i :| 0 <= i < |triggers| && triggers[i].level in levels && Fires(triggers[i], targetDog);
      assert i in positions;
      var k :| 0 <= k < |positions| && positions[k] == i;
      assert conflicts[k] in conflicts;
    }
    if c: Conflict :| c in conflicts && c.triggerLevel in levels {
      var k :| 0 <= k < |conflicts| && conflicts[k] == c;
      assert Fires(triggers[positions[k]], targetDog);
    }
  }

  /** The scan for a blocking (ABSOLUTA) conflict over both directions. */
  method HasAbsoluteConflict(conflicts: seq<Conflict>) returns (found: bool)
    ensures found <==> exists c :: c in conflicts && c.triggerLevel == Absoluta
  {
    for i := 0 to |conflicts|
      invariant forall j :: 0 <= j < i ==> conflicts[j].triggerLevel != Absoluta
    {
      if conflicts[i].triggerLevel == Absoluta {
        return true;
      }
    }
    return false;
  }

  /** The map index and the scan agree with the pairwise definition, for either order of the two dogs. */
  lemma LevelsBetween(conflicts: seq<Conflict>, a: Dog, b: Dog, levels: set<Level>)
    requires AreConflictsBetween(conflicts, a, b)
    ensures (exists c :: c in conflicts && c.triggerLevel in levels) <==> TriggerBetween(levels, a, b)
    ensures TriggerBetween(levels, a, b) <==> TriggerBetween(levels, b, a)
  {
    if a.id != b.id {
      var there, back :| conflicts == there + back && IsConflictList(there, a, b) && IsConflictList(back, b, a);
      ConflictLevels(there, a, b, levels);
      ConflictLevels(back, b, a, levels);
      if c: Conflict :| c in conflicts && c.triggerLevel in levels {
        assert c in there || c in back;
      }
      if c: Conflict :| c in there && c.triggerLevel in levels {
        assert c in conflicts;
      }
      if c: Conflict :| c in back && c.triggerLevel in levels {
        assert c in conflicts;
      }
    }
  }

  // ---------- Sex and neutering ----------

  datatype SexReason = NoConflict | IntactVsIntact | IntactVsCastrated | CastratedVsIntact | CastratedVsCastrated

  datatype SexConflict = SexConflict(
    incomingDogId: int, incomingSex: Sex, incomingNeutered: bool,
    existingDogId: int, existingSex: Sex, existingNeutered: bool)
  {
    function Reason(): SexReason {
      if incomingSex != Male || existingSex != Male then NoConflict
      else if !incomingNeutered && !existingNeutered then IntactVsIntact
      else if !incomingNeutered && existingNeutered then IntactVsCastrated
      else if incomingNeutered && !existingNeutered then CastratedVsIntact
      else CastratedVsCastrated
    }

    predicate IsBlocker() {
      Reason() == IntactVsIntact
    }
  }

  function SexNeuteredConflictsWith(dog: Dog, other: Option<Dog>): seq<SexConflict> {
    if other.None? || dog.id == other.value.id then []
    else if dog.sex != Male || other.value.sex != Male then []
    else [SexConflict(dog.id, dog.sex, dog.neutered, other.value.id, other.value.sex, other.value.neutered)]
  }

  predicate IsIntactMale(dog: Dog) {
    dog.sex == Male && !dog.neutered
  }

  predicate SexBlocked(a: Dog, b: Dog) {
    exists c :: c in SexNeuteredConflictsWith(a, Some(b)) && c.IsBlocker()
  }

  /**
   * Blocking is exactly "two different intact males" and does not depend on which dog comes in; the
   * reason text does depend on it, for every mixed pair and for no other.
   */
  lemma SexRule(a: Dog, b: Dog)
    ensures SexBlocked(a, b) <==> a.id != b.id && a.sex == Male && !a.neutered && b.sex == Male && !b.neutered
    ensures SexBlocked(a, b) <==> SexBlocked(b, a)
    ensures |SexNeuteredConflictsWith(a, Some(b))| == |SexNeuteredConflictsWith(b, Some(a))|
      == if a.id != b.id && a.sex == Male && b.sex == Male then 1 else 0
    ensures SexNeuteredConflictsWith(a, Some(b)) != [] ==>
      var there, back := SexNeuteredConflictsWith(a, Some(b))[0].Reason(), SexNeuteredConflictsWith(b, Some(a))[0].Reason();
      there != NoConflict && (there == back <==> a.neutered == b.neutered)
  {
    var there, back := SexNeuteredConflictsWith(a, Some(b)), SexNeuteredConflictsWith(b, Some(a));
    if there != [] {
      assert there[0] in there && back[0] in back;
    }
  }

  /** Two dogs may share an activity without an administrator's say-so. */
  ghost predicate Compatible(a: Dog, b: Dog) {
    !SexBlocked(a, b) && !TriggerBetween({Absoluta}, a, b)
  }

  lemma CompatibleIsSymmetric(a: Dog, b: Dog)
    ensures Compatible(a, b) <==> Compatible(b, a)
  {
    SexRule(a, b);
  }
}
