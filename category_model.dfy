/** The category schema: one optional, unique name of at least two characters. */
module CategoryModel {
  import opened Wrappers
  import opened Http
  import opened Store

  /** The fields of a category document; the schema declares no other besides `_id`. */
  datatype Category = Category(category_name: Option<string>)

  const MinLengthMessage: string := "Minimum length is 2 characters."

  /** The field constraint: a present name has at least two characters; an absent one is allowed. */
  predicate Valid(c: Category)
  {
    c.category_name.Some? ==> |c.category_name.value| >= 2
  }

  /** The validators mongoose runs on create. */
  function Violations(c: Category): (vs: seq<Violation>)
    ensures vs == [] <==> Valid(c)
    ensures forall i :: 0 <= i < |vs| ==> vs[i] == Violation("category_name", MinLengthMessage)
  {
    if c.category_name.Some? && |c.category_name.value| < 2 then [Violation("category_name", MinLengthMessage)] else []
  }

  /** The unique index on `category_name`; a missing name is indexed as `null`, so two missing names collide. */
  predicate SameName(a: Category, b: Category)
  {
    a.category_name == b.category_name
  }

  /** `$set` of the supplied fields. */
  function Merge(stored: Category, patch: Category): Category
  {
    Category(if patch.category_name.Some? then patch.category_name else stored.category_name)
  }

  const CategorySchema: Schema<Category> := Schema("Category", Violations, SameName, Merge)

  /** A created category is valid and its name (or its absence) is shared with no stored category. */
  lemma CreatedCategoryIsValidAndUnique(docs: map<Id, Category>, id: Id, c: Category)
    requires CreateRefusal(CategorySchema, docs, id, c).None?
    ensures Valid(c)
    ensures forall k :: k in docs ==> docs[k].category_name != c.category_name
  {
    forall k | k in docs
      ensures docs[k].category_name != c.category_name
    {
      assert k != id;
      assert !CategorySchema.clash(docs[k], c);
    }
  }

  /** A valid category whose name is taken, or that has no name while another has none, is refused with E11000. */
  lemma TakenNameRefused(docs: map<Id, Category>, k: Id, id: Id, c: Category)
    requires Valid(c) && k in docs && k != id && docs[k].category_name == c.category_name
    ensures CreateRefusal(CategorySchema, docs, id, c) == Some(DuplicateKey)
  {
    assert CategorySchema.clash(docs[k], c);
  }

  /** The stored names are pairwise distinct exactly when the unique index holds. */
  lemma UniqueMeansDistinctNames(docs: map<Id, Category>)
    ensures Unique(CategorySchema, docs) <==>
              forall i, j :: i in docs && j in docs && i != j ==> docs[i].category_name != docs[j].category_name
  {
  }
}
