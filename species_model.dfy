/**
 * The species schema: an optional unique name of at least two characters, a
 * required category reference and image, and a GeoJSON `Point` location.
 */
module SpeciesModel {
  import opened Wrappers
  import opened Http
  import opened Store

  /** `location`: the GeoJSON type tag and the `[longitude, latitude]` numbers. */
  datatype Location = Location(kind: Option<string>, coordinates: Option<seq<real>>)

  /** The fields of a species document. */
  datatype Species = Species(
    species_name: Option<string>,
    category: Option<Id>,
    image: Option<string>,
    location: Option<Location>)

  const MinLengthMessage: string := "Minimum length is 2 characters."

  /** Mongoose's `required` on a String path refuses `undefined` and `""`. */
  predicate PresentText(s: Option<string>)
  {
    s.Some? && s.value != ""
  }

  function LocationKind(s: Species): Option<string>
  {
    if s.location.Some? then s.location.value.kind else None
  }

  function Coordinates(s: Species): Option<seq<real>>
  {
    if s.location.Some? then s.location.value.coordinates else None
  }

  /** The field constraints of the schema. */
  predicate Valid(s: Species)
  {
    && (s.species_name.Some? ==> |s.species_name.value| >= 2)
    && s.category.Some?
    && PresentText(s.image)
    && LocationKind(s) == Some("Point")
    && Coordinates(s).Some?
  }

  /** The `minlength` validator of `species_name`; an absent name is not checked. */
  function NameViolations(s: Species): (vs: seq<Violation>)
    ensures |vs| <= 1 && forall v :: v in vs ==> v.path == "species_name"
  {
    if s.species_name.Some? && |s.species_name.value| < 2 then [Violation("species_name", MinLengthMessage)] else []
  }

  function CategoryViolations(s: Species): (vs: seq<Violation>)
    ensures |vs| <= 1 && forall v :: v in vs ==> v.path == "category"
  {
    if s.category.None? then [Violation("category", "Category is required.")] else []
  }

  function ImageViolations(s: Species): (vs: seq<Violation>)
    ensures |vs| <= 1 && forall v :: v in vs ==> v.path == "image"
  {
    if !PresentText(s.image) then [Violation("image", "Image is required.")] else []
  }

  /** `required` with mongoose's default message, then the enum. */
  function KindViolations(s: Species): (vs: seq<Violation>)
    ensures |vs| <= 1 && forall v :: v in vs ==> v.path == "location.type"
  {
    if !PresentText(LocationKind(s)) then [Violation("location.type", "Path `location.type` is required.")]
    else if LocationKind(s) != Some("Point")
    then [Violation("location.type", "`" + LocationKind(s).value + "` is not a valid enum value for path `location.type`.")]
    else []
  }

  function CoordinatesViolations(s: Species): (vs: seq<Violation>)
    ensures |vs| <= 1 && forall v :: v in vs ==> v.path == "location.coordinates"
  {
    if Coordinates(s).None? then [Violation("location.coordinates", "Path `location.coordinates` is required.")] else []
  }

  /** The validators mongoose runs on create, one entry per failing path, in schema order. */
  function Violations(s: Species): (vs: seq<Violation>)
    ensures vs == [] <==> Valid(s)
    ensures |vs| <= 5
  {
    NameViolations(s) + CategoryViolations(s) + ImageViolations(s) + KindViolations(s) + CoordinatesViolations(s)
  }

  /** No path is reported twice. */
  lemma ViolationsReportEachPathOnce(s: Species)
    ensures DistinctPaths(Violations(s))
  {
    var name, category, image := NameViolations(s), CategoryViolations(s), ImageViolations(s);
    var kind, coordinates := KindViolations(s), CoordinatesViolations(s);
    AppendDistinct(name, category);
    AppendDistinct(name + category, image);
    AppendDistinct(name + category + image, kind);
    AppendDistinct(name + category + image + kind, coordinates);
  }

  /** Each failing path is reported with the schema's message, or mongoose's default where the schema gives none. */
  lemma ViolationMessages(s: Species)
    ensures var vs := Violations(s);
    && (s.species_name.Some? && |s.species_name.value| < 2 ==> Violation("species_name", MinLengthMessage) in vs)
    && (s.category.None? ==> Violation("category", "Category is required.") in vs)
    && (!PresentText(s.image) ==> Violation("image", "Image is required.") in vs)
    && (!PresentText(LocationKind(s)) ==> Violation("location.type", "Path `location.type` is required.") in vs)
    && (PresentText(LocationKind(s)) && LocationKind(s) != Some("Point") ==>
          Violation("location.type", "`" + LocationKind(s).value + "` is not a valid enum value for path `location.type`.") in vs)
    && (Coordinates(s).None? ==> Violation("location.coordinates", "Path `location.coordinates` is required.") in vs)
  {
  }

  /** The unique index on `species_name`; a missing name is indexed as `null`. */
  predicate SameName(a: Species, b: Species)
  {
    a.species_name == b.species_name
  }

  /** `$set` of the supplied fields; a supplied `location` replaces the stored one whole. */
  function Merge(stored: Species, patch: Species): Species
  {
    Species(
      if patch.species_name.Some? then patch.species_name else stored.species_name,
      if patch.category.Some? then patch.category else stored.category,
      if patch.image.Some? then patch.image else stored.image,
      if patch.location.Some? then patch.location else stored.location)
  }

  const SpeciesSchema: Schema<Species> := Schema("Species", Violations, SameName, Merge)

  /** A created species is valid and its name is shared with no stored species. */
  lemma CreatedSpeciesIsValidAndUnique(docs: map<Id, Species>, id: Id, s: Species)
    requires CreateRefusal(SpeciesSchema, docs, id, s).None?
    ensures Valid(s)
    ensures forall k :: k in docs ==> docs[k].species_name != s.species_name
  {
    forall k | k in docs
      ensures docs[k].species_name != s.species_name
    {
      assert k != id;
      assert !SpeciesSchema.clash(docs[k], s);
    }
  }

  /** The location tag must be exactly `Point`: any other tag, or none, is a violation on `location.type`. */
  lemma LocationMustBePoint(s: Species)
    requires LocationKind(s) != Some("Point")
    ensures exists i :: 0 <= i < |Violations(s)| && Violations(s)[i].path == "location.type"
  {
    var vs := Violations(s);
    var v := if !PresentText(LocationKind(s)) then Violation("location.type", "Path `location.type` is required.")
             else Violation("location.type", "`" + LocationKind(s).value + "` is not a valid enum value for path `location.type`.");
    assert v in vs;
    var i :| 0 <= i < |vs| && vs[i] == v;
  }

  /** An update keeps every field the patch does not supply. */
  lemma MergeChangesOnlySupplied(stored: Species, patch: Species)
    ensures patch.species_name.None? ==> Merge(stored, patch).species_name == stored.species_name
    ensures patch.category.None? ==> Merge(stored, patch).category == stored.category
    ensures patch.image.None? ==> Merge(stored, patch).image == stored.image
    ensures patch.location.None? ==> Merge(stored, patch).location == stored.location
    ensures patch.species_name.Some? ==> Merge(stored, patch).species_name == patch.species_name
    ensures patch.category.Some? ==> Merge(stored, patch).category == patch.category
    ensures patch.image.Some? ==> Merge(stored, patch).image == patch.image
    ensures patch.location.Some? ==> Merge(stored, patch).location == patch.location
  {
  }
}
