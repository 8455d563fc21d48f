/**
 * The category handlers. Not-found is a 404 CustomError everywhere, and
 * delete is gated on the caller's role before the table is touched.
 */
module CategoryController {
  import opened Wrappers
  import opened Http
  import opened Store
  import opened CategoryModel
  import Middlewares

  const NoCategories: Error := CustomError("No categories found", 404)

  /** What `res.locals.user.role` throws when no user was stored. */
  const NoUserRole: Error := PlainError("Cannot read properties of undefined (reading 'role')")

  /** categoryListGet: every stored category. */
  method CategoryListGet(categories: Collection<Category>) returns (r: seq<Doc<Category>>)
    ensures |r| == |categories.docs.Keys|
    ensures forall i :: 0 <= i < |r| ==> r[i].id in categories.docs && categories.docs[r[i].id] == r[i].fields
    ensures forall id :: id in categories.docs ==> exists i :: 0 <= i < |r| && r[i].id == id
  {
    r := categories.Find();
  }

  /** categoryGet: the stored document as it is, or 404. */
  method CategoryGet(categories: Collection<Category>, id: Id) returns (r: Reply<Doc<Category>>)
    ensures id in categories.docs ==> r == Respond(Doc(id, categories.docs[id]))
    ensures id !in categories.docs ==> r == Forward(NoCategories)
  {
    var category := categories.FindById(id);
    if category.None? {
      return Forward(NoCategories);
    }
    r := Respond(category.value);
  }

  /** categoryPost: the created document in the "Category added" envelope, or the model's error. */
  method CategoryPost(categories: Collection<Category>, newId: Id, body: Category) returns (r: Reply<Envelope<Doc<Category>>>)
    requires categories.Valid() && categories.schema == CategorySchema
    modifies categories
    ensures categories.Valid()
    ensures CreateRefusal(CategorySchema, old(categories.docs), newId, body).None? ==>
              && r == Respond(Envelope("Category added", Doc(newId, body)))
              && categories.docs == old(categories.docs)[newId := body]
    ensures CreateRefusal(CategorySchema, old(categories.docs), newId, body).Some? ==>
              && r == Forward(CreateRefusal(CategorySchema, old(categories.docs), newId, body).value)
              && categories.docs == old(categories.docs)
  {
    var category := categories.Create(newId, body);
    if category.Failure? {
      return Forward(category.error);
    }
    r := Respond(Envelope("Category added", category.value));
  }

  /** categoryPut: the document after the update in the "Category updated" envelope; an unknown id is 404 and changes nothing. */
  method CategoryPut(categories: Collection<Category>, id: Id, patch: Category) returns (r: Reply<Envelope<Doc<Category>>>)
    requires categories.Valid() && categories.schema == CategorySchema
    modifies categories
    ensures categories.Valid()
    ensures id !in old(categories.docs) ==> r == Forward(NoCategories) && categories.docs == old(categories.docs)
    ensures id in old(categories.docs) ==>
              var updated := Merge(old(categories.docs)[id], patch);
              if Collides(CategorySchema, old(categories.docs), id, updated)
              then r == Forward(DuplicateKey) && categories.docs == old(categories.docs)
              else r == Respond(Envelope("Category updated", Doc(id, updated)))
                   && categories.docs == old(categories.docs)[id := updated]
  {
    var category := categories.FindByIdAndUpdate(id, patch);
    if category.Failure? {
      return Forward(category.error);
    }
    if category.value.None? {
      return Forward(NoCategories);
    }
    r := Respond(Envelope("Category updated", category.value.value));
  }

  /**
   * The reply and the table after categoryDelete. The role check comes
   * first; only an admin reaches the lookup, which removes exactly the
   * document with that id.
   */
  function CategoryDeleteSpec(docs: map<Id, Category>, id: Id, user: Option<Principal>)
    : (out: (Reply<Envelope<Doc<Category>>>, map<Id, Category>))
    ensures user.None? ==> out == (Forward(NoUserRole), docs)
    ensures user.Some? && !IsAdmin(user.value) ==> out == (Forward(NotAuthorized), docs)
    ensures out.0.Respond? <==> user.Some? && IsAdmin(user.value) && id in docs
    ensures out.0.Respond? ==> out.0.body == Envelope("Category deleted", Doc(id, docs[id])) && out.1 == docs - {id}
    ensures user.Some? && IsAdmin(user.value) && id !in docs ==> out == (Forward(NoCategories), docs)
    ensures out.0.Forward? ==> out.1 == docs
  {
    if user.None? then (Forward(NoUserRole), docs)
    else if user.value.role != "admin" then (Forward(NotAuthorized), docs)
    else if id !in docs then (Forward(NoCategories), docs)
    else (Respond(Envelope("Category deleted", Doc(id, docs[id]))), docs - {id})
  }

  /** categoryDelete */
  method CategoryDelete(categories: Collection<Category>, id: Id, user: Option<Principal>)
    returns (r: Reply<Envelope<Doc<Category>>>)
    requires categories.Valid()
    modifies categories
    ensures categories.Valid()
    ensures (r, categories.docs) == CategoryDeleteSpec(old(categories.docs), id, user)
  {
    if user.None? {
      return Forward(NoUserRole);
    }
    if user.value.role != "admin" {
      return Forward(NotAuthorized);
    }
    var category := categories.FindOneAndDelete(id, (c: Category) => true);
    if category.None? {
      return Forward(NoCategories);
    }
    r := Respond(Envelope("Category deleted", category.value));
  }

  /** The statuses a failed category delete is answered with: 401 for a non-admin, 404 for an unknown id. */
  lemma CategoryDeleteStatuses(docs: map<Id, Category>, id: Id, p: Principal, trace: Option<string>, nodeEnv: Option<string>)
    ensures !IsAdmin(p) ==>
              Middlewares.ErrorHandler(CategoryDeleteSpec(docs, id, Some(p)).0.error, trace, nodeEnv).status == 401
    ensures IsAdmin(p) && id !in docs ==>
              Middlewares.ErrorHandler(CategoryDeleteSpec(docs, id, Some(p)).0.error, trace, nodeEnv).status == 404
  {
  }
}
