/**
 * The persistence layer as the controllers see it: one mongoose model per
 * resource, holding its documents by id. A `Schema` carries what a model
 * enforces on writes: the validators `create` runs, the unique indexes that
 * MongoDB checks on every write, and what `$set` of a request body does.
 */
module Store {
  import opened Wrappers
  import opened Strings
  import opened Http

  /** A stored document: its `_id` and its schema fields. */
  datatype Doc<D> = Doc(id: Id, fields: D)

  /** One failed validator: the schema path and the message mongoose reports for it. */
  datatype Violation = Violation(path: string, message: string)

  /**
   * `violations` lists the failed validators in schema path order;
   * `clash` holds of two documents a unique index cannot hold together;
   * `merge(stored, patch)` is the document after updating with `patch`.
   */
  datatype Schema<!D> = Schema(
    modelName: string,
    violations: D -> seq<Violation>,
    clash: (D, D) -> bool,
    merge: (D, D) -> D)

  /** Each path is reported at most once. */
  predicate DistinctPaths(vs: seq<Violation>)
  {
    forall i, j :: 0 <= i < j < |vs| ==> vs[i].path != vs[j].path
  }

  /** Violations of disjoint sets of paths, each reported at most once, stay so when appended. */
  lemma AppendDistinct(a: seq<Violation>, b: seq<Violation>)
    requires DistinctPaths(a) && DistinctPaths(b)
    requires forall x, y :: x in a && y in b ==> x.path != y.path
    ensures DistinctPaths(a + b)
  {
    forall i, j | 0 <= i < j < |a + b|
      ensures (a + b)[i].path != (a + b)[j].path
    {
      if i < |a| && |a| <= j {
        assert (a + b)[i] in a && (a + b)[j] in b;
      }
    }
  }

  /** The message of mongoose's ValidationError. */
  function ValidationMessage(modelName: string, vs: seq<Violation>): string
  {
    modelName + " validation failed: "
      + Join(seq(|vs|, i requires 0 <= i < |vs| => vs[i].path + ": " + vs[i].message), ", ")
  }

  /** The MongoDB driver's error for a write that breaks a unique index (`_id` included); it has no status. */
  const DuplicateKey: Error := PlainError("E11000 duplicate key error")

  /** No two stored documents break a unique index. */
  ghost predicate Unique<D>(s: Schema<D>, docs: map<Id, D>)
  {
    forall i, j :: i in docs && j in docs && i != j ==> !s.clash(docs[i], docs[j])
  }

  /** `d` would break a unique index next to some document other than `self`. */
  predicate Collides<D>(s: Schema<D>, docs: map<Id, D>, self: Id, d: D)
  {
    exists k :: k in docs && k != self && (s.clash(docs[k], d) || s.clash(d, docs[k]))
  }

  /** Why `create` refuses a document: validation runs first, then the indexes. */
  function CreateRefusal<D>(s: Schema<D>, docs: map<Id, D>, id: Id, fields: D): (e: Option<Error>)
    ensures e.None? <==> s.violations(fields) == [] && id !in docs && !Collides(s, docs, id, fields)
    ensures e.Some? && s.violations(fields) != [] ==> e.value == PlainError(ValidationMessage(s.modelName, s.violations(fields)))
    ensures e.Some? && s.violations(fields) == [] ==> e.value == DuplicateKey
    ensures e.Some? ==> e.value.status.None?
  {
    var vs := s.violations(fields);
    if vs != [] then Some(PlainError(ValidationMessage(s.modelName, vs)))
    else if id in docs || Collides(s, docs, id, fields) then Some(DuplicateKey)
    else None
  }

  /**
   * `findByIdAndUpdate(id, patch, {new: true})`: no document is `null`,
   * otherwise the merged document, unless it breaks a unique index. Schema
   * validators do not run on this path.
   */
  function UpdateOutcome<D>(s: Schema<D>, docs: map<Id, D>, id: Id, patch: D): (r: Result<Option<D>, Error>)
    ensures id !in docs ==> r == Success(None)
    ensures id in docs && !Collides(s, docs, id, s.merge(docs[id], patch)) ==> r == Success(Some(s.merge(docs[id], patch)))
    ensures id in docs && Collides(s, docs, id, s.merge(docs[id], patch)) ==> r == Failure(DuplicateKey)
  {
    if id !in docs then Success(None)
    else
      var updated := s.merge(docs[id], patch);
      if Collides(s, docs, id, updated) then Failure(DuplicateKey) else Success(Some(updated))
  }

  lemma CreateKeepsUnique<D>(s: Schema<D>, docs: map<Id, D>, id: Id, fields: D)
    requires Unique(s, docs) && CreateRefusal(s, docs, id, fields).None?
    ensures Unique(s, docs[id := fields])
  {
  }

  lemma UpdateKeepsUnique<D>(s: Schema<D>, docs: map<Id, D>, id: Id, patch: D)
    requires Unique(s, docs) && UpdateOutcome(s, docs, id, patch).Success?
    requires UpdateOutcome(s, docs, id, patch).value.Some?
    ensures Unique(s, docs[id := UpdateOutcome(s, docs, id, patch).value.value])
  {
  }

  lemma DeleteKeepsUnique<D>(s: Schema<D>, docs: map<Id, D>, id: Id)
    requires Unique(s, docs)
    ensures Unique(s, docs - {id})
  {
  }

  /** One mongoose model: its schema and its documents. */
  class Collection<D> {
    const schema: Schema<D>
    var docs: map<Id, D>

    /** MongoDB keeps the unique indexes. */
    ghost predicate Valid()
      reads this
    {
      Unique(schema, docs)
    }

    constructor (schema: Schema<D>)
      ensures this.schema == schema && docs == map[] && Valid()
    {
      this.schema := schema;
      docs := map[];
    }

    /** `Model.find()`: every stored document exactly once, in no particular order. */
    method Find() returns (r: seq<Doc<D>>)
      ensures |r| == |docs.Keys|
      ensures forall i :: 0 <= i < |r| ==> r[i].id in docs && docs[r[i].id] == r[i].fields
      ensures forall id :: id in docs ==> exists i :: 0 <= i < |r| && r[i].id == id
      ensures forall i, j :: 0 <= i < j < |r| ==> r[i].id != r[j].id
    {
      var rest := docs.Keys;
      r := [];
      while rest != {}
        invariant rest <= docs.Keys
        invariant |r| + |rest| == |docs.Keys|
        invariant forall i :: 0 <= i < |r| ==> r[i].id in docs.Keys - rest && docs[r[i].id] == r[i].fields
        invariant forall id :: id in docs.Keys - rest ==> exists i :: 0 <= i < |r| && r[i].id == id
        invariant forall i, j :: 0 <= i < j < |r| ==> r[i].id != r[j].id
        decreases rest
      {
        var id :| id in rest;
        ghost var before, restBefore := r, rest;
        r := r + [Doc(id, docs[id])];
        rest := rest - {id};
        forall k | k in docs.Keys - rest
          ensures exists i :: 0 <= i < |r| && r[i].id == k
        {
          if k == id {
            assert r[|r| - 1].id == k;
          } else {
            assert k in docs.Keys - restBefore;
            var i :| 0 <= i < |before| && before[i].id == k;
            assert r[i].id == k;
          }
        }
      }
      assert docs.Keys - rest == docs.Keys;
    }

    /** `Model.findById(id)` */
    method FindById(id: Id) returns (r: Option<Doc<D>>)
      ensures r.Some? <==> id in docs
      ensures r.Some? ==> r.value == Doc(id, docs[id])
    {
      if id in docs {
        r := Some(Doc(id, docs[id]));
      } else {
        r := None;
      }
    }

    /** `Model.create(fields)`, with `id` the ObjectId the driver assigns. */
    method Create(id: Id, fields: D) returns (r: Result<Doc<D>, Error>)
      requires Valid()
      modifies this
      ensures Valid()
      ensures CreateRefusal(schema, old(docs), id, fields).None? ==>
                r == Success(Doc(id, fields)) && docs == old(docs)[id := fields]
      ensures CreateRefusal(schema, old(docs), id, fields).Some? ==>
                r == Failure(CreateRefusal(schema, old(docs), id, fields).value) && docs == old(docs)
    {
      var refusal := CreateRefusal(schema, docs, id, fields);
      if refusal.Some? {
        return Failure(refusal.value);
      }
      CreateKeepsUnique(schema, docs, id, fields);
      docs := docs[id := fields];
      r := Success(Doc(id, fields));
    }

    /** `Model.findByIdAndUpdate(id, patch, {new: true})`: the document as it is after the update. */
    method FindByIdAndUpdate(id: Id, patch: D) returns (r: Result<Option<Doc<D>>, Error>)
      requires Valid()
      modifies this
      ensures Valid()
      ensures UpdateOutcome(schema, old(docs), id, patch) == Success(None) ==>
                r == Success(None) && docs == old(docs)
      ensures UpdateOutcome(schema, old(docs), id, patch).Failure? ==>
                r == Failure(UpdateOutcome(schema, old(docs), id, patch).error) && docs == old(docs)
      ensures UpdateOutcome(schema, old(docs), id, patch).Success? && UpdateOutcome(schema, old(docs), id, patch).value.Some? ==>
                var updated := UpdateOutcome(schema, old(docs), id, patch).value.value;
                r == Success(Some(Doc(id, updated))) && docs == old(docs)[id := updated]
    {
      var outcome := UpdateOutcome(schema, docs, id, patch);
      match outcome
      case Failure(e) =>
        r := Failure(e);
      case Success(None) =>
        r := Success(None);
      case Success(Some(updated)) =>
        UpdateKeepsUnique(schema, docs, id, patch);
        docs := docs[id := updated];
        r := Success(Some(Doc(id, updated)));
    }

    /**
     * `Model.findOneAndDelete({_id: id, ...})`: the filter always names the
     * id, so at most that one document goes; `alsoMatches` is the rest of it.
     */
    method FindOneAndDelete(id: Id, alsoMatches: D -> bool) returns (r: Option<Doc<D>>)
      requires Valid()
      modifies this
      ensures Valid()
      ensures id in old(docs) && alsoMatches(old(docs)[id]) ==>
                r == Some(Doc(id, old(docs)[id])) && docs == old(docs) - {id}
      ensures !(id in old(docs) && alsoMatches(old(docs)[id])) ==> r == None && docs == old(docs)
    {
      if id in docs && alsoMatches(docs[id]) {
        r := Some(Doc(id, docs[id]));
        DeleteKeepsUnique(schema, docs, id);
        docs := docs - {id};
      } else {
        r := None;
      }
    }
  }
}
