/**
 * The animal handlers. Create and delete need an authenticated caller; the
 * created animal's owner is always the caller; delete is scoped to the
 * caller's own animals unless the caller is an admin. Not-found is a plain
 * `Error` without a status, so the error handler answers it with 500.
 */
module AnimalController {
  import opened Wrappers
  import opened Http
  import opened Store
  import opened CategoryModel
  import opened SpeciesModel
  import opened AnimalModel
  import opened SpeciesController
  import Middlewares

  const NoAnimals: Error := PlainError("No animals found")

  /** An animal as the list returns it: `species` populated, and inside it `category`. */
  datatype AnimalView = AnimalView(
    id: Id,
    animal_name: Option<string>,
    species: Option<SpeciesView>,
    birthdate: Option<int>,
    gender: Option<string>,
    owner: Option<Id>)

  /** The nested populate of animalListGet: a reference to a missing species becomes `null`. */
  function PopulateAnimal(d: Doc<Animal>, species: map<Id, Species>, categories: map<Id, Category>): (v: AnimalView)
    ensures v.id == d.id && v.animal_name == d.fields.animal_name && v.birthdate == d.fields.birthdate
    ensures v.gender == d.fields.gender && v.owner == d.fields.owner
    ensures v.species.Some? <==> d.fields.species.Some? && d.fields.species.value in species
    ensures v.species.Some? ==>
              v.species.value == PopulateSpecies(Doc(d.fields.species.value, species[d.fields.species.value]), categories)
  {
    var ref := d.fields.species;
    AnimalView(d.id, d.fields.animal_name,
               if ref.Some? && ref.value in species then Some(PopulateSpecies(Doc(ref.value, species[ref.value]), categories)) else None,
               d.fields.birthdate, d.fields.gender, d.fields.owner)
  }

  /** animalListGet: every stored animal, with its species and that species' category populated. */
  method AnimalListGet(animals: Collection<Animal>, species: Collection<Species>, categories: Collection<Category>)
    returns (r: seq<AnimalView>)
    ensures |r| == |animals.docs.Keys|
    ensures forall i :: 0 <= i < |r| ==>
              r[i].id in animals.docs
              && r[i] == PopulateAnimal(Doc(r[i].id, animals.docs[r[i].id]), species.docs, categories.docs)
    ensures forall id :: id in animals.docs ==> exists i :: 0 <= i < |r| && r[i].id == id
  {
    var docs := animals.Find();
    var speciesDocs, categoryDocs := species.docs, categories.docs;
    r := seq(|docs|, i requires 0 <= i < |docs| => PopulateAnimal(docs[i], speciesDocs, categoryDocs));
    forall i | 0 <= i < |docs|
      ensures docs[i] == Doc(docs[i].id, animals.docs[docs[i].id])
    {
    }
    forall id | id in animals.docs
      ensures exists i :: 0 <= i < |r| && r[i].id == id
    {
      var i :| 0 <= i < |docs| && docs[i].id == id;
      assert r[i].id == id;
    }
  }

  /** animalGet: the stored document as it is, without populating; an unknown id is a status-less error. */
  method AnimalGet(animals: Collection<Animal>, id: Id) returns (r: Reply<Doc<Animal>>)
    ensures id in animals.docs ==> r == Respond(Doc(id, animals.docs[id]))
    ensures id !in animals.docs ==> r == Forward(NoAnimals)
  {
    var animal := animals.FindById(id);
    if animal.None? {
      return Forward(NoAnimals);
    }
    r := Respond(animal.value);
  }

  /** The fields animalPost stores: the body with `owner` overwritten by the caller's id. */
  function OwnedBy(body: Animal, user: Principal): (fields: Animal)
    ensures fields.owner == Some(user.id)
    ensures fields.(owner := body.owner) == body
  {
    body.(owner := Some(user.id))
  }

  /** The reply and the table after animalPost. */
  function AnimalPostSpec(s: Schema<Animal>, docs: map<Id, Animal>, newId: Id, body: Animal, user: Option<Principal>)
    : (out: (Reply<Envelope<Doc<Animal>>>, map<Id, Animal>))
    ensures user.None? ==> out == (Forward(NotAuthorized), docs)
    ensures out.0.Respond? <==> user.Some? && CreateRefusal(s, docs, newId, OwnedBy(body, user.value)).None?
    ensures out.0.Respond? ==>
              && out.0.body == Envelope("Animal added", Doc(newId, OwnedBy(body, user.value)))
              && out.1 == docs[newId := OwnedBy(body, user.value)]
    ensures user.Some? && CreateRefusal(s, docs, newId, OwnedBy(body, user.value)).Some? ==>
              out.0 == Forward(CreateRefusal(s, docs, newId, OwnedBy(body, user.value)).value)
    ensures out.0.Forward? ==> out.1 == docs
  {
    if user.None? then (Forward(NotAuthorized), docs)
    else
      var fields := OwnedBy(body, user.value);
      var refusal := CreateRefusal(s, docs, newId, fields);
      if refusal.Some? then (Forward(refusal.value), docs)
      else (Respond(Envelope("Animal added", Doc(newId, fields))), docs[newId := fields])
  }

  /** animalPost */
  method AnimalPost(animals: Collection<Animal>, newId: Id, body: Animal, user: Option<Principal>)
    returns (r: Reply<Envelope<Doc<Animal>>>)
    requires animals.Valid()
    modifies animals
    ensures animals.Valid()
    ensures (r, animals.docs) == AnimalPostSpec(animals.schema, old(animals.docs), newId, body, user)
  {
    if user.None? {
      return Forward(NotAuthorized);
    }
    var fields := OwnedBy(body, user.value);
    var animal := animals.Create(newId, fields);
    if animal.Failure? {
      return Forward(animal.error);
    }
    r := Respond(Envelope("Animal added", animal.value));
  }

  /** Whatever owner the body names, the stored animal belongs to the caller. */
  lemma BodyOwnerIgnored(s: Schema<Animal>, docs: map<Id, Animal>, newId: Id, body: Animal, claimed: Option<Id>, user: Principal)
    ensures AnimalPostSpec(s, docs, newId, body.(owner := claimed), Some(user)) == AnimalPostSpec(s, docs, newId, body, Some(user))
  {
    assert OwnedBy(body.(owner := claimed), user) == OwnedBy(body, user);
  }

  /** animalPut: the document after the update in the "Animal updated" envelope; an unknown id changes nothing. */
  method AnimalPut(animals: Collection<Animal>, id: Id, patch: Animal) returns (r: Reply<Envelope<Doc<Animal>>>)
    requires animals.Valid()
    requires animals.schema.merge == AnimalModel.Merge && animals.schema.clash == NeverClash
    modifies animals
    ensures animals.Valid()
    ensures id !in old(animals.docs) ==> r == Forward(NoAnimals) && animals.docs == old(animals.docs)
    ensures id in old(animals.docs) ==>
              var updated := AnimalModel.Merge(old(animals.docs)[id], patch);
              && r == Respond(Envelope("Animal updated", Doc(id, updated)))
              && animals.docs == old(animals.docs)[id := updated]
  {
    var animal := animals.FindByIdAndUpdate(id, patch);
    if animal.Failure? {
      return Forward(animal.error);
    }
    if animal.value.None? {
      return Forward(NoAnimals);
    }
    r := Respond(Envelope("Animal updated", animal.value.value));
  }

  /** The filter animalDelete builds: `{_id, owner}`, with `owner` deleted for an admin. */
  datatype DeleteFilter = DeleteFilter(id: Id, owner: Option<Id>)

  predicate Selects(f: DeleteFilter, a: Animal)
  {
    f.owner.None? || a.owner == f.owner
  }

  /**
   * The reply and the table after animalDelete. A non-admin removes only an
   * animal it owns; an admin removes by id alone; anything else is "not
   * found" and leaves the table as it was.
   */
  function AnimalDeleteSpec(docs: map<Id, Animal>, id: Id, user: Option<Principal>)
    : (out: (Reply<Envelope<Doc<Animal>>>, map<Id, Animal>))
    ensures user.None? ==> out == (Forward(NotAuthorized), docs)
    ensures out.0.Respond? <==>
              user.Some? && id in docs && (IsAdmin(user.value) || docs[id].owner == Some(user.value.id))
    ensures out.0.Respond? ==> out.0.body == Envelope("Animal deleted", Doc(id, docs[id])) && out.1 == docs - {id}
    ensures user.Some? && out.0.Forward? ==> out.0 == Forward(NoAnimals)
    ensures out.0.Forward? ==> out.1 == docs
  {
    if user.None? then (Forward(NotAuthorized), docs)
    else
      var filter := DeleteFilter(id, if IsAdmin(user.value) then None else Some(user.value.id));
      if id in docs && Selects(filter, docs[id])
      then (Respond(Envelope("Animal deleted", Doc(id, docs[id]))), docs - {id})
      else (Forward(NoAnimals), docs)
  }

  /** animalDelete */
  method AnimalDelete(animals: Collection<Animal>, id: Id, user: Option<Principal>) returns (r: Reply<Envelope<Doc<Animal>>>)
    requires animals.Valid()
    modifies animals
    ensures animals.Valid()
    ensures (r, animals.docs) == AnimalDeleteSpec(old(animals.docs), id, user)
  {
    if user.None? {
      return Forward(NotAuthorized);
    }
    var params := DeleteFilter(id, Some(user.value.id));
    if user.value.role == "admin" {
      params := params.(owner := None);
    }
    var animal := animals.FindOneAndDelete(id, (a: Animal) => Selects(params, a));
    if animal.None? {
      return Forward(NoAnimals);
    }
    r := Respond(Envelope("Animal deleted", animal.value));
  }

  /** Delete removes at most one animal, and every other animal stays as it was. */
  lemma DeleteRemovesAtMostOne(docs: map<Id, Animal>, id: Id, user: Option<Principal>)
    ensures AnimalDeleteSpec(docs, id, user).1.Keys <= docs.Keys
    ensures docs.Keys - AnimalDeleteSpec(docs, id, user).1.Keys <= {id}
    ensures forall k :: k in AnimalDeleteSpec(docs, id, user).1 ==> AnimalDeleteSpec(docs, id, user).1[k] == docs[k]
  {
  }

  /**
   * A non-admin deleting someone else's animal gets the same answer as if
   * the id were unknown: nothing is removed and the error handler answers
   * 500, not 404 or 401.
   */
  lemma ForeignDeleteAnswers500(docs: map<Id, Animal>, id: Id, p: Principal, trace: Option<string>, nodeEnv: Option<string>)
    requires !IsAdmin(p) && id in docs && docs[id].owner != Some(p.id)
    ensures AnimalDeleteSpec(docs, id, Some(p)) == (Forward(NoAnimals), docs)
    ensures AnimalDeleteSpec(docs, id, Some(p)).0 == AnimalDeleteSpec(docs - {id}, id, Some(p)).0
    ensures Middlewares.ErrorHandler(AnimalDeleteSpec(docs, id, Some(p)).0.error, trace, nodeEnv).status == 500
  {
  }

  /** Every animal not-found error, from get, put or delete, is answered with 500. */
  lemma NotFoundAnswers500(trace: Option<string>, nodeEnv: Option<string>)
    ensures Middlewares.ErrorHandler(NoAnimals, trace, nodeEnv).status == 500
    ensures Middlewares.ErrorHandler(NoAnimals, trace, nodeEnv).body.message == "No animals found"
  {
  }
}
