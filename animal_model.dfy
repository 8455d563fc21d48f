/**
 * The animal schema: an optional name of at least two characters, required
 * species and owner references, a required birthdate no later than the moment
 * the schema was defined, and a required gender of `male` or `female`.
 */
module AnimalModel {
  import opened Wrappers
  import opened Http
  import opened Store

  /** The fields of an animal document; `birthdate` is in milliseconds since the epoch. */
  datatype Animal = Animal(
    animal_name: Option<string>,
    species: Option<Id>,
    birthdate: Option<int>,
    gender: Option<string>,
    owner: Option<Id>)

  const MinLengthMessage: string := "Minimum length is 2 characters."

  /**
   * The field constraints. `loadTime` is `Date.now()` taken once, when the
   * module defining the schema was loaded; the bound does not move afterwards.
   */
  predicate Valid(a: Animal, loadTime: int)
  {
    && (a.animal_name.Some? ==> |a.animal_name.value| >= 2)
    && a.species.Some?
    && a.birthdate.Some? && a.birthdate.value <= loadTime
    && (a.gender == Some("male") || a.gender == Some("female"))
    && a.owner.Some?
  }

  /** The `minlength` validator of `animal_name`; an absent name is not checked. */
  function NameViolations(a: Animal): (vs: seq<Violation>)
    ensures |vs| <= 1 && forall v :: v in vs ==> v.path == "animal_name"
    ensures vs == [] <==> a.animal_name.None? || |a.animal_name.value| >= 2
  {
    if a.animal_name.Some? && |a.animal_name.value| < 2 then [Violation("animal_name", MinLengthMessage)] else []
  }

  function SpeciesViolations(a: Animal): (vs: seq<Violation>)
    ensures |vs| <= 1 && forall v :: v in vs ==> v.path == "species"
    ensures vs == [] <==> a.species.Some?
  {
    if a.species.None? then [Violation("species", "Species is required.")] else []
  }

  /** `required` is checked before `max`, and only the first failure of a path is reported. */
  function BirthdateViolations(a: Animal, loadTime: int): (vs: seq<Violation>)
    ensures |vs| <= 1 && forall v :: v in vs ==> v.path == "birthdate"
    ensures vs == [] <==> a.birthdate.Some? && a.birthdate.value <= loadTime
  {
    if a.birthdate.None? then [Violation("birthdate", "Birthdate is required.")]
    else if a.birthdate.value > loadTime then [Violation("birthdate", "Birthdate cannot be in the future.")]
    else []
  }

  /** `required` (which refuses `""`) with mongoose's default message, then the enum. */
  function GenderViolations(a: Animal): (vs: seq<Violation>)
    ensures |vs| <= 1 && forall v :: v in vs ==> v.path == "gender"
    ensures vs == [] <==> a.gender == Some("male") || a.gender == Some("female")
  {
    if a.gender.None? || a.gender == Some("") then [Violation("gender", "Path `gender` is required.")]
    else if a.gender != Some("male") && a.gender != Some("female")
    then [Violation("gender", "`" + a.gender.value + "` is not a valid enum value for path `gender`.")]
    else []
  }

  function OwnerViolations(a: Animal): (vs: seq<Violation>)
    ensures |vs| <= 1 && forall v :: v in vs ==> v.path == "owner"
    ensures vs == [] <==> a.owner.Some?
  {
    if a.owner.None? then [Violation("owner", "Owner is required.")] else []
  }

  /** The validators mongoose runs on create, one entry per failing path, in schema order. */
  function Violations(a: Animal, loadTime: int): (vs: seq<Violation>)
    ensures vs == [] <==> Valid(a, loadTime)
    ensures |vs| <= 5
  {
    NameViolations(a) + SpeciesViolations(a) + BirthdateViolations(a, loadTime) + GenderViolations(a) + OwnerViolations(a)
  }

  /** No path is reported twice. */
  lemma ViolationsReportEachPathOnce(a: Animal, loadTime: int)
    ensures DistinctPaths(Violations(a, loadTime))
  {
    var name, species, birthdate := NameViolations(a), SpeciesViolations(a), BirthdateViolations(a, loadTime);
    var gender, owner := GenderViolations(a), OwnerViolations(a);
    AppendDistinct(name, species);
    AppendDistinct(name + species, birthdate);
    AppendDistinct(name + species + birthdate, gender);
    AppendDistinct(name + species + birthdate + gender, owner);
  }

  /** Each failing path is reported with the schema's message, or mongoose's default where the schema gives none. */
  lemma ViolationMessages(a: Animal, loadTime: int)
    ensures var vs := Violations(a, loadTime);
    && (a.animal_name.Some? && |a.animal_name.value| < 2 ==> Violation("animal_name", MinLengthMessage) in vs)
    && (a.species.None? ==> Violation("species", "Species is required.") in vs)
    && (a.birthdate.None? ==> Violation("birthdate", "Birthdate is required.") in vs)
    && (a.birthdate.Some? && a.birthdate.value > loadTime ==> Violation("birthdate", "Birthdate cannot be in the future.") in vs)
    && (a.gender.None? || a.gender == Some("") ==> Violation("gender", "Path `gender` is required.") in vs)
    && ((&& a.gender.Some? && a.gender.value != "" && a.gender.value != "male" && a.gender.value != "female") ==>
          Violation("gender", "`" + a.gender.value + "` is not a valid enum value for path `gender`.") in vs)
    && (a.owner.None? ==> Violation("owner", "Owner is required.") in vs)
  {
  }

  /** No unique index: two animals never clash. */
  predicate NeverClash(a: Animal, b: Animal)
  {
    false
  }

  /** `$set` of the supplied fields. */
  function Merge(stored: Animal, patch: Animal): Animal
  {
    Animal(
      if patch.animal_name.Some? then patch.animal_name else stored.animal_name,
      if patch.species.Some? then patch.species else stored.species,
      if patch.birthdate.Some? then patch.birthdate else stored.birthdate,
      if patch.gender.Some? then patch.gender else stored.gender,
      if patch.owner.Some? then patch.owner else stored.owner)
  }

  /** An update changes exactly the fields the patch supplies and keeps every other one. */
  lemma MergeChangesOnlySupplied(stored: Animal, patch: Animal)
    ensures patch.animal_name.None? ==> Merge(stored, patch).animal_name == stored.animal_name
    ensures patch.species.None? ==> Merge(stored, patch).species == stored.species
    ensures patch.birthdate.None? ==> Merge(stored, patch).birthdate == stored.birthdate
    ensures patch.gender.None? ==> Merge(stored, patch).gender == stored.gender
    ensures patch.owner.None? ==> Merge(stored, patch).owner == stored.owner
    ensures patch.animal_name.Some? ==> Merge(stored, patch).animal_name == patch.animal_name
    ensures patch.species.Some? ==> Merge(stored, patch).species == patch.species
    ensures patch.birthdate.Some? ==> Merge(stored, patch).birthdate == patch.birthdate
    ensures patch.gender.Some? ==> Merge(stored, patch).gender == patch.gender
    ensures patch.owner.Some? ==> Merge(stored, patch).owner == patch.owner
  {
  }

  /** The schema as built when the module is loaded at `loadTime`. */
  function AnimalSchema(loadTime: int): Schema<Animal>
  {
    Schema("Animal", a => Violations(a, loadTime), NeverClash, Merge)
  }

  /**
   * With every other field valid, a birthdate is accepted exactly when it is
   * no later than the load time: the time of the request plays no part.
   */
  lemma BirthdateBoundIsLoadTime(a: Animal, loadTime: int, b: int)
    requires a.animal_name.Some? ==> |a.animal_name.value| >= 2
    requires a.species.Some? && a.owner.Some?
    requires a.gender == Some("male") || a.gender == Some("female")
    ensures Violations(a.(birthdate := Some(b)), loadTime) == [] <==> b <= loadTime
  {
  }

  /** Only `male` and `female` pass the gender check. */
  lemma GenderIsEnum(a: Animal, loadTime: int)
    requires Violations(a, loadTime) == []
    ensures a.gender == Some("male") || a.gender == Some("female")
  {
  }

  /** Create refuses an animal exactly when it is invalid or its id is taken. */
  lemma AnimalCreateRefusal(docs: map<Id, Animal>, id: Id, a: Animal, loadTime: int)
    ensures CreateRefusal(AnimalSchema(loadTime), docs, id, a).None? <==> Valid(a, loadTime) && id !in docs
  {
  }

  /**
   * Update does not run the validators: a valid stored animal can be given a
   * one-character name and a birthdate after the load time.
   */
  lemma UpdateSkipsValidators(loadTime: int)
    ensures var stored := Animal(Some("Rex"), Some("s"), Some(loadTime), Some("male"), Some("u"));
            var patch := Animal(Some("R"), None, Some(loadTime + 1), None, None);
            && Valid(stored, loadTime)
            && UpdateOutcome(AnimalSchema(loadTime), map["a" := stored], "a", patch).Success?
            && UpdateOutcome(AnimalSchema(loadTime), map["a" := stored], "a", patch).value.Some?
            && !Valid(UpdateOutcome(AnimalSchema(loadTime), map["a" := stored], "a", patch).value.value, loadTime)
  {
    var stored := Animal(Some("Rex"), Some("s"), Some(loadTime), Some("male"), Some("u"));
    var patch := Animal(Some("R"), None, Some(loadTime + 1), None, None);
    assert !Collides(AnimalSchema(loadTime), map["a" := stored], "a", Merge(stored, patch));
  }
}
