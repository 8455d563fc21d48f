/**
 * The species handlers: CRUD with 404 CustomErrors for an unknown id, reads
 * that populate the category reference, and the bounding-box query string.
 */
module SpeciesController {
  import opened Wrappers
  import opened Strings
  import opened Http
  import opened Store
  import opened CategoryModel
  import opened SpeciesModel

  const NoSpecies: Error := CustomError("No species found", 404)

  /** A species as the read handlers return it: `category` replaced by the category document. */
  datatype SpeciesView = SpeciesView(
    id: Id,
    species_name: Option<string>,
    category: Option<Doc<Category>>,
    image: Option<string>,
    location: Option<Location>)

  /** `populate('category')`: a reference to a missing category becomes `null`. */
  function PopulateSpecies(d: Doc<Species>, categories: map<Id, Category>): (v: SpeciesView)
    ensures v.id == d.id && v.species_name == d.fields.species_name
    ensures v.image == d.fields.image && v.location == d.fields.location
    ensures v.category.Some? <==> d.fields.category.Some? && d.fields.category.value in categories
    ensures v.category.Some? ==> v.category.value == Doc(d.fields.category.value, categories[d.fields.category.value])
  {
    var category := d.fields.category;
    SpeciesView(d.id, d.fields.species_name,
                if category.Some? && category.value in categories then Some(Doc(category.value, categories[category.value])) else None,
                d.fields.image, d.fields.location)
  }

  /** The stored document a view was made from, reading the reference back from the populated category. */
  function Depopulate(v: SpeciesView): Doc<Species>
  {
    Doc(v.id, Species(v.species_name, if v.category.Some? then Some(v.category.value.id) else None, v.image, v.location))
  }

  /** Populating loses nothing as long as the reference resolves. */
  lemma PopulateRoundTrip(d: Doc<Species>, categories: map<Id, Category>)
    requires d.fields.category.Some? ==> d.fields.category.value in categories
    ensures Depopulate(PopulateSpecies(d, categories)) == d
  {
  }

  /** speciesListGet: every stored species, each with its category populated. */
  method SpeciesListGet(species: Collection<Species>, categories: Collection<Category>) returns (r: seq<SpeciesView>)
    ensures |r| == |species.docs.Keys|
    ensures forall i :: 0 <= i < |r| ==>
              r[i].id in species.docs && r[i] == PopulateSpecies(Doc(r[i].id, species.docs[r[i].id]), categories.docs)
    ensures forall id :: id in species.docs ==> exists i :: 0 <= i < |r| && r[i].id == id
  {
    var docs := species.Find();
    var categoryDocs := categories.docs;
    r := seq(|docs|, i requires 0 <= i < |docs| => PopulateSpecies(docs[i], categoryDocs));
    forall i | 0 <= i < |docs|
      ensures docs[i] == Doc(docs[i].id, species.docs[docs[i].id])
    {
    }
    forall id | id in species.docs
      ensures exists i :: 0 <= i < |r| && r[i].id == id
    {
      var i :| 0 <= i < |docs| && docs[i].id == id;
      assert r[i].id == id;
    }
  }

  /** speciesGet: the stored species with its category populated, or 404. */
  method SpeciesGet(species: Collection<Species>, categories: Collection<Category>, id: Id) returns (r: Reply<SpeciesView>)
    ensures id in species.docs ==> r == Respond(PopulateSpecies(Doc(id, species.docs[id]), categories.docs))
    ensures id !in species.docs ==> r == Forward(NoSpecies)
  {
    var found := species.FindById(id);
    if found.None? {
      return Forward(NoSpecies);
    }
    r := Respond(PopulateSpecies(found.value, categories.docs));
  }

  /** speciesPost: the created document in the "Species added" envelope, or the model's error. */
  method SpeciesPost(species: Collection<Species>, newId: Id, body: Species) returns (r: Reply<Envelope<Doc<Species>>>)
    requires species.Valid() && species.schema == SpeciesSchema
    modifies species
    ensures species.Valid()
    ensures CreateRefusal(SpeciesSchema, old(species.docs), newId, body).None? ==>
              && r == Respond(Envelope("Species added", Doc(newId, body)))
              && species.docs == old(species.docs)[newId := body]
    ensures CreateRefusal(SpeciesSchema, old(species.docs), newId, body).Some? ==>
              && r == Forward(CreateRefusal(SpeciesSchema, old(species.docs), newId, body).value)
              && species.docs == old(species.docs)
  {
    var created := species.Create(newId, body);
    if created.Failure? {
      return Forward(created.error);
    }
    r := Respond(Envelope("Species added", created.value));
  }

  /** speciesPut: the document after the update in the "Species updated" envelope; an unknown id is 404 and changes nothing. */
  method SpeciesPut(species: Collection<Species>, id: Id, patch: Species) returns (r: Reply<Envelope<Doc<Species>>>)
    requires species.Valid() && species.schema == SpeciesSchema
    modifies species
    ensures species.Valid()
    ensures id !in old(species.docs) ==> r == Forward(NoSpecies) && species.docs == old(species.docs)
    ensures id in old(species.docs) ==>
              var updated := SpeciesModel.Merge(old(species.docs)[id], patch);
              if Collides(SpeciesSchema, old(species.docs), id, updated)
              then r == Forward(DuplicateKey) && species.docs == old(species.docs)
              else r == Respond(Envelope("Species updated", Doc(id, updated)))
                   && species.docs == old(species.docs)[id := updated]
  {
    var updated := species.FindByIdAndUpdate(id, patch);
    if updated.Failure? {
      return Forward(updated.error);
    }
    if updated.value.None? {
      return Forward(NoSpecies);
    }
    r := Respond(Envelope("Species updated", updated.value.value));
  }

  /** speciesDelete: exactly the document with that id goes, returned in the "Species deleted" envelope; otherwise 404. */
  method SpeciesDelete(species: Collection<Species>, id: Id) returns (r: Reply<Envelope<Doc<Species>>>)
    requires species.Valid()
    modifies species
    ensures species.Valid()
    ensures id in old(species.docs) ==>
              && r == Respond(Envelope("Species deleted", Doc(id, old(species.docs)[id])))
              && species.docs == old(species.docs) - {id}
    ensures id !in old(species.docs) ==> r == Forward(NoSpecies) && species.docs == old(species.docs)
  {
    var deleted := species.FindOneAndDelete(id, (s: Species) => true);
    if deleted.None? {
      return Forward(NoSpecies);
    }
    r := Respond(Envelope("Species deleted", deleted.value));
  }

  // ---------------------------------------------------------------- speciesGetByBounds

  /** A query-string value as Express parses it: absent, given once, or repeated (an array). */
  datatype QueryParam = Missing | Single(text: string) | Repeated(texts: seq<string>)

  /** `param.split(',')`, which throws a TypeError on `undefined` and on an array. */
  function SplitCorner(name: string, p: QueryParam): (r: Result<seq<string>, Error>)
    ensures r.Success? <==> p.Single?
    ensures r.Success? ==> r.value == Split(p.text, ',')
    ensures r.Failure? ==> r.error.status.None?
  {
    match p
    case Missing => Failure(PlainError("Cannot read properties of undefined (reading 'split')"))
    case Repeated(_) => Failure(PlainError(name + ".split is not a function"))
    case Single(s) => Success(Split(s, ','))
  }

  /**
   * The `$box` speciesGetByBounds hands to the query: `[leftCorner, rightCorner]`,
   * each corner its parameter split on `','`. `topRight` is split first, so its
   * error wins when both are malformed.
   */
  function BoundsBox(topRight: QueryParam, bottomLeft: QueryParam): (r: Result<seq<seq<string>>, Error>)
    ensures r.Success? <==> topRight.Single? && bottomLeft.Single?
    ensures r.Success? ==> |r.value| == 2 && r.value[0] == Split(bottomLeft.text, ',') && r.value[1] == Split(topRight.text, ',')
    ensures !topRight.Single? ==> r == Failure(SplitCorner("topRight", topRight).error)
    ensures r.Failure? ==> r.error.status.None?
  {
    var rightCorner := SplitCorner("topRight", topRight);
    if rightCorner.Failure? then Failure(rightCorner.error)
    else
      var leftCorner := SplitCorner("bottomLeft", bottomLeft);
      if leftCorner.Failure? then Failure(leftCorner.error)
      else Success([leftCorner.value, rightCorner.value])
  }

  /**
   * Each corner holds the comma-separated segments of its parameter and
   * nothing else: joining them back gives the parameter, whatever the number
   * of segments or their form.
   */
  lemma BoundsBoxCorners(topRight: string, bottomLeft: string)
    ensures BoundsBox(Single(topRight), Single(bottomLeft)).Success?
    ensures var box := BoundsBox(Single(topRight), Single(bottomLeft)).value;
            && Join(box[0], ",") == bottomLeft
            && Join(box[1], ",") == topRight
            && (forall i :: 0 <= i < |box[0]| ==> ',' !in box[0][i])
            && (forall i :: 0 <= i < |box[1]| ==> ',' !in box[1][i])
  {
    JoinSplit(bottomLeft, ',');
    JoinSplit(topRight, ',');
  }

  /** A longitude/latitude pair written `lon,lat` gives the corner `[lon, lat]`. */
  lemma CornerOfPair(lon: string, lat: string)
    requires ',' !in lon && ',' !in lat
    ensures SplitCorner("topRight", Single(lon + "," + lat)) == Success([lon, lat])
  {
    SplitJoin([lon, lat], ',');
    assert Join([lon, lat], [',']) == lon + "," + lat;
  }
}
