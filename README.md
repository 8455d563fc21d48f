# A verified model of the SSSF-ts-mongodb request handlers

This repository is a small Express/Mongoose REST API over categories, species and animals. This project models the decisions it takes on each request:

- **Middleware** (`src/middlewares.ts`):
  - the error handler's choice of status and body;
  - the 404 fallback;
  - folding validation errors into one 400 failure;
  - bearer-token authentication, including the order of its checks;
  - filling `image` into a species body from the Wikipedia thumbnail lookup.
- **Handlers** of the three controllers, over an in-memory document table per model.
- **Field constraints** of the three mongoose schemas, and the unique indexes they declare.

## Modules

- `Http` holds the shared vocabulary:
  - an error is its message plus an optional status;
  - a handler either answers (`Respond`) or passes an error on (`Forward`);
  - the `{message, data}` envelope;
  - the authenticated caller (`Principal`).
- `Strings` holds JavaScript's `split` and `join` on `seq<char>`, with the lemmas that they are inverse.
- `JsValues` holds JSON values, property reads that may throw, and template-literal stringification.
- `Middlewares` is a mix, as the source is:
  - `ErrorHandler`, `NotFound` and `ValidationErrors` are functions.
  - `authenticate` and `imageFromWikipedia` write request state, so they are methods of a class `Exchange`. Its fields are `req.headers.authorization`, `req.body` and `res.locals.user`.
  - Each method is proved equal to a pure decision function: `AuthDecision` or `Enrich`.
- `Store` models one mongoose model as a class `Collection<D>`: a `map<Id, D>` of documents plus a `Schema<D>`. The schema says four things:
  - which validators `create` runs;
  - which pairs of documents a unique index refuses;
  - how `$set` merges a body into a stored document;
  - the model name that appears in error messages.

  `Collection.Valid()` is the unique-index invariant, and every writing method keeps it.
- `CategoryModel`, `SpeciesModel` and `AnimalModel` each hold a validity predicate, the violations mongoose reports (with its messages), the unique-index relation and the merge.
- `CategoryController`, `SpeciesController` and `AnimalController` hold one method per handler.
  - The handlers with an authorization decision (`categoryDelete`, `animalPost`, `animalDelete`) are also given as pure functions of the old table, the id and the caller (`CategoryDeleteSpec`, `AnimalPostSpec`, `AnimalDeleteSpec`).
  - Their methods are proved to return exactly what those functions give and to leave the table as they say.

These inputs are parameters:

- the foreign calls: `jwt.verify` as a partial function `token, secret -> Option<Principal>`, and `fetchData` as `url -> Option<Json>`;
- the environment: `NODE_ENV`, `JWT_SECRET`, `err.stack`, and `Date.now()` at schema load;
- the ObjectId that `create` assigns.

### Where the code behaves differently from what a reader would expect

- **Animal not-found errors answer 500, not 404.**
  - `animalGet`, `animalPut` and `animalDelete` throw a plain `Error`, which carries no status.
  - So the error handler answers 500.
  - This includes a non-owner trying to delete someone else's animal, where a reader would expect 404.
- **A missing `thumbnail.source` is not an enrichment failure.**
  - When `query.pages[0].thumbnail` exists but has no `source`, `req.body.image` becomes `undefined`. The request goes on with `image` removed from the body.
  - Only a throw on that path gives the 500 "Error fetching image from Wikipedia": a failed fetch, or reading a property of `undefined` or of `null` (for example `"thumbnail": null`).
- **`categoryDelete` with no authenticated user throws a TypeError.**
  - `res.locals.user.role` is read on `undefined`, which throws a TypeError with no status.
  - The result is a 500, not a 401.
  - In the application this cannot happen: the delete route always runs `authenticate` first, and `authenticate` only continues after setting `res.locals.user`. The case arises only if the handler is mounted without `authenticate`.
- **`findByIdAndUpdate` does not run the schema validators.** The source does not pass `runValidators`, so an update can store a document that `create` would refuse. The unique indexes still apply.

## Model

| member | source | states |
|---|---|---|
| Middlewares.ErrorHandler | src/middlewares.ts:15-28 | The status is `err.status` when that is set and neither 0 nor 200, and 500 otherwise; so it is never 200 or 0. The body's message is `err.message`. The stack is the pancake placeholder in production and `err.stack` otherwise. |
| Middlewares.NotFound | src/middlewares.ts:10-13 | Always a failure with status 404 whose message is the fixed prefix followed by exactly the original URL. |
| Middlewares.NotFoundAnswers404 | src/middlewares.ts:10-28 | An unmatched route is answered with status 404 in every environment. |
| Middlewares.ValidationErrors | src/middlewares.ts:30-47 | Continues if and only if no error was collected; otherwise fails with status 400 and a message that is the `", "`-join of `msg: param` over the errors. |
| Middlewares.ValidationMessageListsEvery | src/middlewares.ts:38-41 | Every collected error appears, as `msg: param` at its computed offset in array order, followed by `", "` when it is not the last. |
| Middlewares.BearerToken | src/middlewares.ts:78-83 | The token taken is non-empty and contains no space. |
| Middlewares.BearerTokenAfterScheme | src/middlewares.ts:78 | The token is the second space-separated word, whatever follows it. |
| Middlewares.NoTokenWithoutSpace | src/middlewares.ts:78-83 | A header with no space has no token. |
| Middlewares.NoTokenAfterEmptySegment | src/middlewares.ts:78-83 | A trailing single space or a double space after the first word gives no token. |
| Middlewares.AuthDecision | src/middlewares.ts:66-102 | Checks in order: header (401), token (401), secret (500, and only after both pass), verification (401 "Not authorized"). Succeeds if and only if all pass, and the caller is then exactly the verified claims. |
| Middlewares.HeaderChecksPrecedeSecret | src/middlewares.ts:72-88 | With no header or no token, the outcome is a 401 independent of the secret and the verifier. |
| Middlewares.SchemeIsNotChecked | src/middlewares.ts:78 | Headers differing only in the first word (e.g. any word instead of `Bearer`) authenticate alike. |
| Middlewares.Exchange.Authenticate | src/middlewares.ts:66-102 | Continues and sets `res.locals.user` to the claims exactly when `AuthDecision` succeeds; otherwise fails with its error and leaves the user unchanged. |
| Middlewares.Enrich | src/middlewares.ts:49-64 | Fails with the 500 enrichment error if and only if the lookup of `query.pages[0].thumbnail.source` throws. Otherwise `image` holds the looked-up value, or is absent when that value is `undefined`. Every other body field is unchanged. |
| Middlewares.WellShapedResponseSetsImage | src/middlewares.ts:55-60 | A response of the documented shape sets `image` to its thumbnail URL and changes nothing else. |
| Middlewares.MissingPathFails | src/middlewares.ts:58-63 | No `pages`, an empty `pages`, or a first page without `thumbnail` gives the 500 enrichment error. |
| Middlewares.MissingSourceRemovesImage | src/middlewares.ts:58-60 | A first page whose thumbnail has no `source` is not a failure: the request goes on with `image` removed from the body. |
| Middlewares.WikipediaUrl | src/middlewares.ts:56 | The query URL is the fixed `titles=` prefix, the name exactly as given (no escaping), then the fixed size suffix; the name can be read back from between them. |
| Middlewares.ThumbnailSource | src/middlewares.ts:58 | The chain `imageData.query.pages[0].thumbnail.source`: a missing or `null` response throws, and a source is found only when `query` is an object holding `pages`. |
| Middlewares.MissingNameLooksUpUndefined | src/middlewares.ts:55-56 | A body without `species_name` interpolates `undefined`, so its lookup is the same as for a species literally named "undefined". |
| Middlewares.Exchange.ImageFromWikipedia | src/middlewares.ts:49-64 | Continues with `req.body` replaced by the enriched body when `Enrich` succeeds; otherwise fails with the enrichment error and leaves the body unchanged. |
| Strings.Split | src/api/controllers/speciesController.ts:113-114 | `split` yields at least one segment and no segment contains the separator. |
| Strings.JoinSplit | src/api/controllers/speciesController.ts:113-114 | Joining the segments of a split with its separator gives back the original string. |
| Strings.SplitJoin | src/api/controllers/speciesController.ts:113-114 | Splitting a join of separator-free parts gives back the parts. |
| JsValues.Member | src/middlewares.ts:58 | A property read `a.b` throws exactly when `a` is `undefined` or `null`; on an object holding the key it yields that field. For the keys the lookup reads (`query`, `pages`, `thumbnail`, `source`, `"0"`), a value is found only there, and otherwise the read gives `undefined`. |
| JsValues.Element | src/middlewares.ts:58 | An index read `a[0]` throws exactly when `a` is `undefined` or `null`; on an array it yields the element, or `undefined` past the end. |
| JsValues.TemplateText | src/middlewares.ts:56 | `${v}` inserts a string as it is and turns `undefined` into the word "undefined". |
| JsValues.NatText | src/middlewares.ts:58 | The text of an index, as `pages[0]` reads it from an object: non-empty decimal digits, starting with `0` only for zero. |
| JsValues.NatTextReadsBack | src/middlewares.ts:58 | The digits denote exactly the number: reading them back gives it. |
| Strings.JoinListsEveryPart | src/middlewares.ts:38-41 | In a join, each part sits at its offset. |
| Strings.JoinSeparatesParts | src/middlewares.ts:38-41 | In a join, the separator sits between consecutive parts. |
| Store.CreateRefusal | src/api/controllers/categoryController.ts:42 | `create` succeeds if and only if the document passes every validator, its id is new, and no unique index clashes. A validation failure reports the ValidationError message; an index failure reports E11000. Neither carries a status. |
| Store.UpdateOutcome | src/api/controllers/categoryController.ts:59-63 | `findByIdAndUpdate` gives `null` for an unknown id. Otherwise it gives the merged document, or E11000 when the merge breaks a unique index; no validator runs. |
| Store.CreateKeepsUnique | src/api/models/categoryModel.ts:5-11 | A create that succeeds keeps every unique index. |
| Store.UpdateKeepsUnique | src/api/models/categoryModel.ts:5-11 | An update that succeeds keeps every unique index. |
| Store.DeleteKeepsUnique | src/api/models/categoryModel.ts:5-11 | A delete keeps every unique index. |
| Store.Collection.Find | src/api/controllers/categoryController.ts:13 | Returns every stored document exactly once, with its stored fields, and changes nothing. |
| Store.Collection.FindById | src/api/controllers/categoryController.ts:26 | Returns the stored document if and only if the id is present. |
| Store.Collection.Create | src/api/controllers/categoryController.ts:42 | Inserts exactly the new document when `CreateRefusal` is none; otherwise fails with that refusal and changes nothing. Keeps the unique indexes. |
| Store.Collection.FindByIdAndUpdate | src/api/controllers/categoryController.ts:59-63 | Writes exactly the `UpdateOutcome` document at that id and returns it as it is after the update. On `null` or an error nothing changes. |
| Store.Collection.FindOneAndDelete | src/api/controllers/animalController.ts:110 | Removes and returns the document with that id exactly when it also matches the rest of the filter; otherwise nothing changes. |
| CategoryModel.Violations | src/api/models/categoryModel.ts:5-11 | Empty if and only if a present name has at least 2 characters; an absent name is no violation; every violation is the min-length message on `category_name`. |
| CategoryModel.CreatedCategoryIsValidAndUnique | src/api/models/categoryModel.ts:5-11 | A created category is valid, and its name (or its absence) is shared with no stored category. |
| CategoryModel.TakenNameRefused | src/api/models/categoryModel.ts:7 | A valid category whose name another category already has (two absent names included) is refused with E11000. |
| CategoryModel.UniqueMeansDistinctNames | src/api/models/categoryModel.ts:7 | The unique-index invariant holds if and only if stored names are pairwise distinct. |
| SpeciesModel.Violations | src/api/models/speciesModel.ts:4-30 | Empty if and only if all of these hold: the name, when present, has at least 2 characters; the category is present; the image is a non-empty string; the location type is `Point`; the coordinates are present. At most five entries. |
| SpeciesModel.ViolationsReportEachPathOnce | src/api/models/speciesModel.ts:4-30 | No path is reported twice. |
| SpeciesModel.ViolationMessages | src/api/models/speciesModel.ts:4-30 | Each failing path is reported with the schema's message, or with mongoose's default for `required` and `enum` on `location`. |
| SpeciesModel.CreatedSpeciesIsValidAndUnique | src/api/models/speciesModel.ts:4-30 | A created species is valid and no stored species has its name. |
| SpeciesModel.LocationMustBePoint | src/api/models/speciesModel.ts:19-24 | Any location tag other than `Point`, or none, yields a violation on `location.type`. |
| SpeciesModel.MergeChangesOnlySupplied | src/api/controllers/speciesController.ts:65-69 | An update changes exactly the supplied fields; a supplied `location` replaces the stored one whole. |
| AnimalModel.Violations | src/api/models/animalModel.ts:5-30 | Empty if and only if all of these hold: a present name has at least 2 characters; species and owner are present; a birthdate is present and no later than the load time; gender is `male` or `female`. At most five entries. |
| AnimalModel.ViolationsReportEachPathOnce | src/api/models/animalModel.ts:5-30 | No path is reported twice. |
| AnimalModel.ViolationMessages | src/api/models/animalModel.ts:5-30 | Each failing path is reported with the schema's message (e.g. a birthdate after the load time gives "Birthdate cannot be in the future."), or with mongoose's default for `gender`. |
| AnimalModel.MergeChangesOnlySupplied | src/api/controllers/animalController.ts:73-77 | An update changes exactly the supplied fields and keeps every other one. |
| AnimalModel.BirthdateBoundIsLoadTime | src/api/models/animalModel.ts:15-19 | With the other fields valid, a birthdate passes exactly when it is no later than the time the schema was loaded. |
| AnimalModel.GenderIsEnum | src/api/models/animalModel.ts:20-24 | A valid animal's gender is `male` or `female`. |
| AnimalModel.AnimalCreateRefusal | src/api/models/animalModel.ts:5-30 | Creating an animal succeeds if and only if it is valid and its id is new (animals have no unique index). |
| AnimalModel.UpdateSkipsValidators | src/api/controllers/animalController.ts:73-77 | A valid animal can be updated into one with a one-character name and a future birthdate. |
| CategoryController.CategoryListGet | src/api/controllers/categoryController.ts:7-18 | Returns every stored category exactly once with its stored fields. |
| CategoryController.CategoryGet | src/api/controllers/categoryController.ts:20-34 | Returns the stored document unchanged, or 404 "No categories found" for an unknown id. |
| CategoryController.CategoryPost | src/api/controllers/categoryController.ts:36-51 | On success, inserts exactly the body and answers `{message: "Category added", data}`. Otherwise it forwards the model's refusal and changes nothing. |
| CategoryController.CategoryPut | src/api/controllers/categoryController.ts:53-75 | Answers the post-update document in the "Category updated" envelope. An unknown id gives 404 with no change; a name clash gives E11000 with no change. |
| CategoryController.CategoryDeleteSpec | src/api/controllers/categoryController.ts:77-101 | Succeeds if and only if the caller is an admin and the id exists. It then removes exactly that document and returns it in the "Category deleted" envelope. A non-admin gets 401 before any lookup; an admin gets 404 for an unknown id; every failure leaves the table unchanged. |
| CategoryController.CategoryDelete | src/api/controllers/categoryController.ts:77-101 | Returns and leaves the table exactly as `CategoryDeleteSpec` says. |
| CategoryController.CategoryDeleteStatuses | src/api/controllers/categoryController.ts:86-92 | A non-admin's delete is answered 401; an admin's delete of an unknown id is answered 404. |
| SpeciesController.PopulateSpecies | src/api/controllers/speciesController.ts:13-16 | Replaces `category` by the referenced category document (or `null` when it does not resolve) and keeps every other field. |
| SpeciesController.PopulateRoundTrip | src/api/controllers/speciesController.ts:13-16 | When the reference resolves, populating loses nothing: the stored document can be read back. |
| SpeciesController.SpeciesListGet | src/api/controllers/speciesController.ts:7-21 | Returns every stored species exactly once, each populated. |
| SpeciesController.SpeciesGet | src/api/controllers/speciesController.ts:23-40 | Returns the populated stored species, or 404 "No species found". |
| SpeciesController.SpeciesPost | src/api/controllers/speciesController.ts:42-57 | On success, inserts exactly the body and answers "Species added". Otherwise it forwards the model's refusal and changes nothing. |
| SpeciesController.SpeciesPut | src/api/controllers/speciesController.ts:59-81 | Answers the merged post-update document in the "Species updated" envelope. An unknown id gives 404 with no change; a name clash gives E11000 with no change. |
| SpeciesController.SpeciesDelete | src/api/controllers/speciesController.ts:83-101 | Removes exactly the document with that id and returns it in the "Species deleted" envelope, or gives 404 with no change. |
| SpeciesController.SplitCorner | src/api/controllers/speciesController.ts:113-114 | Succeeds if and only if the parameter was given once, with its `','`-segments. A missing or repeated parameter throws a status-less TypeError. |
| SpeciesController.BoundsBox | src/api/controllers/speciesController.ts:112-121 | The box is `[bottomLeft segments, topRight segments]` in that order, and exists exactly when both parameters were given once. `topRight` is split first, so its error wins. |
| SpeciesController.BoundsBoxCorners | src/api/controllers/speciesController.ts:112-121 | Each corner holds its parameter's comma-free segments and joins back to the parameter, with no check on count or form. |
| SpeciesController.CornerOfPair | src/api/controllers/speciesController.ts:113 | `lon,lat` gives the corner `[lon, lat]`. |
| AnimalController.PopulateAnimal | src/api/controllers/animalController.ts:13-23 | Replaces `species` by the referenced species, itself with `category` populated (or `null` when it does not resolve), and keeps every other field. |
| AnimalController.AnimalListGet | src/api/controllers/animalController.ts:7-28 | Returns every stored animal exactly once, each with species and nested category populated. |
| AnimalController.AnimalGet | src/api/controllers/animalController.ts:30-44 | Returns the stored document unpopulated, or the status-less "No animals found". |
| AnimalController.OwnedBy | src/api/controllers/animalController.ts:55 | The stored owner is the caller's id, and nothing else in the body changes. |
| AnimalController.AnimalPostSpec | src/api/controllers/animalController.ts:46-65 | With no caller: 401 and no change. Otherwise it succeeds if and only if the body with the caller as owner passes `create`. It then inserts exactly that document and answers "Animal added". A refusal by `create` is forwarded unchanged, and every failure leaves the table unchanged. |
| AnimalController.AnimalPost | src/api/controllers/animalController.ts:46-65 | Returns and leaves the table exactly as `AnimalPostSpec` says. |
| AnimalController.BodyOwnerIgnored | src/api/controllers/animalController.ts:55-56 | Whatever `owner` the body names, the outcome is the same. |
| AnimalController.AnimalPut | src/api/controllers/animalController.ts:67-89 | Answers the merged post-update document in the "Animal updated" envelope. An unknown id gives "No animals found" with no change. |
| AnimalController.AnimalDeleteSpec | src/api/controllers/animalController.ts:91-123 | Succeeds if and only if there is a caller, the id exists, and the caller is an admin or the animal's owner. It then removes exactly that animal and returns it in the "Animal deleted" envelope. With no caller: 401; any other failure is "No animals found"; every failure leaves the table unchanged. |
| AnimalController.AnimalDelete | src/api/controllers/animalController.ts:91-123 | Builds the owner-scoped filter, drops `owner` for an admin, and returns and leaves the table exactly as `AnimalDeleteSpec` says. |
| AnimalController.DeleteRemovesAtMostOne | src/api/controllers/animalController.ts:110-114 | A delete removes at most the one animal with that id, and every remaining animal is unchanged. |
| AnimalController.ForeignDeleteAnswers500 | src/api/controllers/animalController.ts:101-114 | A non-admin deleting another user's animal removes nothing and gets the same reply as for an unknown id, which the error handler answers with 500. |
| AnimalController.NotFoundAnswers500 | src/api/controllers/animalController.ts:38 | The animal not-found error is answered with 500 and its message. |

## Left out

- Routing and app wiring are not modelled: the middleware order per route and the mounting in `src/api/index.ts`. Consequences that fall outside the model:
  - The species and animal routes never run `validationErrors`, so their express-validator checks never stop a request.
  - On the species routes the enrichment runs before validation.
- The express-validator predicates and sanitisers (`isMongoId`, `isURL`, `isDate`, `escape`, …) are a foreign library. `ValidationErrors` takes their collected errors as input.
- `jwt.verify` (signature and expiry checking) and `fetchData` (the HTTP call to Wikipedia) are foreign calls. They enter as function parameters.
- Mongoose's casting of request bodies to schema types, including the CastError for a malformed id, is not modelled. Bodies arrive already typed, and ids are plain strings.
- The `$geoWithin`/`$box` query and the `2dsphere` index are evaluated by MongoDB over floating-point coordinates. Only the query-string split that feeds them is modelled, and `speciesGetByBounds` is modelled by `BoundsBox` alone.
- Store.CreateRefusal: the E11000 error's message is only the start of the MongoDB driver's message, which goes on to name the collection, the index and the duplicated key. The error handler sends the whole message to the client, so the model's error body is shorter than the real one.
- The version key `__v` that mongoose writes into every document `create` inserts is not modelled, and neither is `select('-__v')`. The species reads and the animal list strip it, while `categoryListGet`, `categoryGet`, `animalGet` and the `{message, data}` envelopes return it; the model does not capture that difference between the read paths.
- Store.CreateRefusal: the order of the paths in a ValidationError message is taken as the order of the schema's paths. Mongoose builds that list in its own order (it may list the required paths the body left unset before the paths it set), so for a document with several violations the model's message may list the same parts in a different order.
- The order in which `find` returns documents is left unspecified: the natural order of the collection is not modelled.
- Property reads model only an object's own fields. Prototype properties (`constructor`, …) and the `length` of strings and arrays are not modelled; the enrichment lookup reads none of them.
- String lengths count Dafny characters, not JavaScript UTF-16 code units.
- Numbers are integers (birthdates in milliseconds), and coordinates are reals without validation of numeric form.
- SpeciesModel.Violations treats `coordinates` as required when it is absent. It does not model mongoose's rule for `required` on an array path with an empty array.
- `console.log` and the reads of `process.env` are not modelled. The environment values are parameters.
- The `CustomError` class (src/classes/CustomError.ts) is not part of this model. It is taken to carry its message and status.
- `userController` and `authController` (users and login) are not part of this model.
- Concurrency between requests is not modelled. Each handler is one sequential operation on its table.
- The express-validator field checks that the category routes run before `categoryPost` and `categoryPut` are not modelled, so those handlers are modelled on any typed body.
