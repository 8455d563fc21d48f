/**
 * The Express middleware of `src/middlewares.ts`: the terminal error handler,
 * the 404 fallback, the validation gate, bearer-token authentication and the
 * Wikipedia image enrichment. `jwt.verify` and `fetchData` are foreign calls
 * and enter as function parameters; `process.env` values are parameters too.
 */
module Middlewares {
  import opened Wrappers
  import opened Strings
  import opened JsValues
  import opened Http

  /** What a middleware does: call `next()` or `next(error)`. */
  datatype Outcome = Next | Fail(error: Error)

  // ---------------------------------------------------------------- errorHandler

  /** The JSON body of an error response. */
  datatype ErrorBody = ErrorBody(message: string, stack: Option<string>)

  datatype ErrorResponse = ErrorResponse(status: int, body: ErrorBody)

  /** The placeholder that replaces the stack trace in production. */
  const ProductionStack: string := "\U{1F95E}"

  /**
   * errorHandler. `trace` is `err.stack`, captured by the runtime where the
   * error was constructed; `nodeEnv` is `process.env.NODE_ENV`.
   * The status is `err.status` unless that is missing, 0 or 200.
   */
  function ErrorHandler(err: Error, trace: Option<string>, nodeEnv: Option<string>): (r: ErrorResponse)
    ensures r.status != 200 && r.status != 0
    ensures err.status.Some? && err.status.value != 0 && err.status.value != 200 ==> r.status == err.status.value
    ensures err.status.None? || err.status == Some(0) || err.status == Some(200) ==> r.status == 500
    ensures r.body.message == err.message
    ensures nodeEnv == Some("production") ==> r.body.stack == Some(ProductionStack)
    ensures nodeEnv != Some("production") ==> r.body.stack == trace
  {
    var code := if err.status != Some(200) then (if err.status.Some? && err.status.value != 0 then err.status.value else 500) else 500;
    ErrorResponse(code, ErrorBody(err.message, if nodeEnv == Some("production") then Some(ProductionStack) else trace))
  }

  // ---------------------------------------------------------------- notFound

  const NotFoundPrefix: string := "\U{1F50D} - Not Found - "

  /** notFound: the fallback for a route nothing matched. */
  function NotFound(originalUrl: string): (r: Outcome)
    ensures r.Fail? && r.error.status == Some(404)
    ensures |r.error.message| == |NotFoundPrefix| + |originalUrl|
    ensures r.error.message[..|NotFoundPrefix|] == NotFoundPrefix
    ensures r.error.message[|NotFoundPrefix|..] == originalUrl
  {
    Fail(CustomError(NotFoundPrefix + originalUrl, 404))
  }

  /** An unmatched route is answered with status 404, whatever the environment. */
  lemma NotFoundAnswers404(originalUrl: string, trace: Option<string>, nodeEnv: Option<string>)
    ensures ErrorHandler(NotFound(originalUrl).error, trace, nodeEnv).status == 404
  {
  }

  // ---------------------------------------------------------------- validationErrors

  /** One entry of `validationResult(req).array()`: the check's message and the field it was about. */
  datatype FieldError = FieldError(msg: string, param: string)

  /** `${error.msg}: ${error.param}` */
  function Describe(e: FieldError): string
  {
    e.msg + ": " + e.param
  }

  function Descriptions(errors: seq<FieldError>): seq<string>
  {
    seq(|errors|, i requires 0 <= i < |errors| => Describe(errors[i]))
  }

  /** validationErrors: no collected error lets the request through; otherwise one 400 failure. */
  function ValidationErrors(errors: seq<FieldError>): (r: Outcome)
    ensures r.Next? <==> errors == []
    ensures r.Fail? ==> r.error.status == Some(400)
    ensures r.Fail? ==> r.error.message == Join(Descriptions(errors), ", ")
  {
    if errors != [] then Fail(CustomError(Join(Descriptions(errors), ", "), 400)) else Next
  }

  /**
   * The 400 message lists every collected error, in array order, each as
   * `msg: param`, with `", "` between neighbours.
   */
  lemma ValidationMessageListsEvery(errors: seq<FieldError>, i: nat)
    requires i < |errors|
    ensures ValidationErrors(errors).Fail?
    ensures var m := ValidationErrors(errors).error.message;
            var o := Offset(Descriptions(errors), ", ", i);
            && o + |Describe(errors[i])| <= |m|
            && m[o..o + |Describe(errors[i])|] == Describe(errors[i])
            && (i + 1 < |errors| ==>
                  && o + |Describe(errors[i])| + 2 <= |m|
                  && m[o + |Describe(errors[i])|..o + |Describe(errors[i])| + 2] == ", ")
  {
    JoinListsEveryPart(Descriptions(errors), ", ", i);
    if i + 1 < |errors| {
      JoinSeparatesParts(Descriptions(errors), ", ", i);
    }
  }

  // ---------------------------------------------------------------- authenticate

  const NoAuthHeader: Error := CustomError("No auth header provided", 401)
  const NoToken: Error := CustomError("No token provided", 401)
  const NoSecret: Error := CustomError("JWT secret not set", 500)

  /** JavaScript truthiness of a string that may be `undefined`. */
  predicate Truthy(s: Option<string>)
  {
    s.Some? && s.value != ""
  }

  /** `jwt.verify(token, secret)`: the decoded claims, or `None` where it throws. */
  type Verifier = (string, string) -> Option<Principal>

  /** `authHeader.split(' ')[1]`, taken only when it is truthy. */
  function BearerToken(header: string): (t: Option<string>)
    ensures t.Some? ==> t.value != "" && ' ' !in t.value
  {
    var parts := Split(header, ' ');
    if |parts| >= 2 && parts[1] != "" then Some(parts[1]) else None
  }

  /** The token is the second space-separated word; the first word is not looked at. */
  lemma BearerTokenAfterScheme(scheme: string, token: string, rest: string)
    requires ' ' !in scheme && ' ' !in token && token != ""
    ensures BearerToken(scheme + " " + token) == Some(token)
    ensures BearerToken(scheme + " " + token + " " + rest) == Some(token)
  {
    SplitAtFirst(scheme, token, ' ');
    SplitWithoutSeparator(token, ' ');
    assert scheme + " " + token + " " + rest == scheme + [' '] + (token + [' '] + rest);
    SplitAtFirst(scheme, token + [' '] + rest, ' ');
    SplitAtFirst(token, rest, ' ');
  }

  /** A header without a space has no token. */
  lemma NoTokenWithoutSpace(header: string)
    requires ' ' !in header
    ensures BearerToken(header) == None
  {
    SplitWithoutSeparator(header, ' ');
  }

  /** A header whose first space is followed by the end or by another space has no token. */
  lemma NoTokenAfterEmptySegment(scheme: string, rest: string)
    requires ' ' !in scheme
    ensures BearerToken(scheme + " ") == None
    ensures BearerToken(scheme + "  " + rest) == None
  {
    SplitAtFirst(scheme, "", ' ');
    assert scheme + " " == scheme + [' '] + "";
    assert scheme + "  " + rest == scheme + [' '] + ([' '] + rest);
    SplitAtFirst(scheme, [' '] + rest, ' ');
    SplitAtFirst("", rest, ' ');
    assert "" + [' '] + rest == [' '] + rest;
  }

  /**
   * The decision authenticate takes, in its order: header, then token, then
   * the secret, then verification. On success the claims are the caller.
   */
  function AuthDecision(header: Option<string>, secret: Option<string>, verify: Verifier): (r: Result<Principal, Error>)
    ensures !Truthy(header) ==> r == Failure(NoAuthHeader)
    ensures Truthy(header) && BearerToken(header.value).None? ==> r == Failure(NoToken)
    ensures r.Failure? ==> r.error.status == Some(401) || r.error == NoSecret
    ensures r.Failure? && r.error == NoSecret <==>
              Truthy(header) && BearerToken(header.value).Some? && !Truthy(secret)
    ensures (&& Truthy(header) && BearerToken(header.value).Some? && Truthy(secret)
             && verify(BearerToken(header.value).value, secret.value).None?) ==> r == Failure(NotAuthorized)
    ensures r.Success? <==>
              && Truthy(header) && BearerToken(header.value).Some? && Truthy(secret)
              && verify(BearerToken(header.value).value, secret.value).Some?
    ensures r.Success? ==> Some(r.value) == verify(BearerToken(header.value).value, secret.value)
  {
    if !Truthy(header) then Failure(NoAuthHeader)
    else
      var token := BearerToken(header.value);
      if token.None? then Failure(NoToken)
      else if !Truthy(secret) then Failure(NoSecret)
      else match verify(token.value, secret.value)
        case None => Failure(NotAuthorized)
        case Some(claims) => Success(claims)
  }

  /** A missing header or token is a 401 whatever the secret and the verifier are. */
  lemma HeaderChecksPrecedeSecret(header: Option<string>, secret: Option<string>, verify: Verifier,
                                  secret': Option<string>, verify': Verifier)
    requires !Truthy(header) || BearerToken(header.value).None?
    ensures AuthDecision(header, secret, verify) == AuthDecision(header, secret', verify')
    ensures AuthDecision(header, secret, verify).Failure?
    ensures AuthDecision(header, secret, verify).error.status == Some(401)
  {
  }

  /** Two headers that differ only in their first word authenticate alike. */
  lemma SchemeIsNotChecked(scheme: string, scheme': string, token: string, secret: Option<string>, verify: Verifier)
    requires ' ' !in scheme && ' ' !in scheme' && ' ' !in token && token != ""
    ensures AuthDecision(Some(scheme + " " + token), secret, verify)
         == AuthDecision(Some(scheme' + " " + token), secret, verify)
    ensures AuthDecision(Some(scheme + " " + token), secret, verify)
         == AuthDecision(Some("Bearer " + token), secret, verify)
  {
    BearerTokenAfterScheme(scheme, token, "");
    BearerTokenAfterScheme(scheme', token, "");
    BearerTokenAfterScheme("Bearer", token, "");
    assert "Bearer" + " " + token == "Bearer " + token;
  }

  // ---------------------------------------------------------------- imageFromWikipedia

  /** `fetchData(url)`: the parsed JSON body, or `None` where it throws. */
  type Fetcher = string -> Option<Json>

  const EnrichmentFailed: Error := CustomError("Error fetching image from Wikipedia", 500)

  const TitlesQuery := "https://en.wikipedia.org/w/api.php?action=query&format=json&prop=pageimages&titles="
  const SizeQuery := "&pithumbsize=640&formatversion=2"

  /** The query URL; the name is interpolated as it is, without escaping, so it can be read back. */
  function WikipediaUrl(name: string): (url: string)
    ensures |url| == |TitlesQuery| + |name| + |SizeQuery|
    ensures url[..|TitlesQuery|] == TitlesQuery && url[|url| - |SizeQuery|..] == SizeQuery
    ensures url[|TitlesQuery|..|url| - |SizeQuery|] == name
  {
    TitlesQuery + name + SizeQuery
  }

  /**
   * `imageData.query.pages[0].thumbnail.source`. A missing or `null` response
   * throws, and a source is found only under an object `query` holding `pages`.
   */
  function ThumbnailSource(imageData: Option<Json>): (r: Read)
    ensures imageData.None? || imageData == Some(JNull) ==> r.Throws?
    ensures r.Yields? && r.value.Some? ==>
              && imageData.Some? && imageData.value.JObject? && "query" in imageData.value.fields
              && imageData.value.fields["query"].JObject? && "pages" in imageData.value.fields["query"].fields
  {
    var pages := ThenMember(Member(imageData, "query"), "pages");
    var first := if pages.Throws? then Throws else Element(pages.value, 0);
    ThenMember(ThenMember(first, "thumbnail"), "source")
  }

  function SpeciesName(body: map<string, Json>): Option<Json>
  {
    if "species_name" in body then Some(body["species_name"]) else None
  }

  /** The lookup for the body's species name, with a failed fetch counted as a throw. */
  function Thumbnail(body: map<string, Json>, fetch: Fetcher): Read
  {
    var imageData := fetch(WikipediaUrl(TemplateText(SpeciesName(body))));
    if imageData.None? then Throws else ThumbnailSource(imageData)
  }

  /**
   * The body imageFromWikipedia passes on: `image` replaced by the thumbnail
   * source (removed when that is `undefined`), every other field as it was.
   */
  function Enrich(body: map<string, Json>, fetch: Fetcher): (r: Result<map<string, Json>, Error>)
    ensures r.Failure? <==> Thumbnail(body, fetch).Throws?
    ensures r.Failure? ==> r.error == EnrichmentFailed
    ensures r.Success? ==> ("image" in r.value <==> Thumbnail(body, fetch).value.Some?)
    ensures r.Success? && "image" in r.value ==> r.value["image"] == Thumbnail(body, fetch).value.value
    ensures r.Success? ==> forall k :: k != "image" ==> (k in r.value <==> k in body)
    ensures r.Success? ==> forall k :: k != "image" && k in body ==> r.value[k] == body[k]
  {
    match Thumbnail(body, fetch)
    case Throws => Failure(EnrichmentFailed)
    case Yields(None) => Success(body - {"image"})
    case Yields(Some(source)) => Success(body["image" := source])
  }

  /** A response of the documented shape puts its thumbnail URL into `image`. */
  lemma WellShapedResponseSetsImage(body: map<string, Json>, fetch: Fetcher, url: string,
                                    top: map<string, Json>, query: map<string, Json>, pages: seq<Json>,
                                    page: map<string, Json>, thumbnail: map<string, Json>)
    requires fetch(WikipediaUrl(TemplateText(SpeciesName(body)))) == Some(JObject(top))
    requires "query" in top && top["query"] == JObject(query)
    requires "pages" in query && query["pages"] == JArray(pages)
    requires |pages| > 0 && pages[0] == JObject(page)
    requires "thumbnail" in page && page["thumbnail"] == JObject(thumbnail)
    requires "source" in thumbnail && thumbnail["source"] == JString(url)
    ensures Enrich(body, fetch) == Success(body["image" := JString(url)])
  {
  }

  /** A response without pages, or whose first page has no thumbnail, is an enrichment failure. */
  lemma MissingPathFails(body: map<string, Json>, fetch: Fetcher, top: map<string, Json>, query: map<string, Json>)
    requires fetch(WikipediaUrl(TemplateText(SpeciesName(body)))) == Some(JObject(top))
    requires "query" in top && top["query"] == JObject(query)
    requires "pages" !in query || query["pages"] == JArray([])
             || (&& query["pages"].JArray? && |query["pages"].items| > 0
                 && query["pages"].items[0].JObject? && "thumbnail" !in query["pages"].items[0].fields)
    ensures Enrich(body, fetch) == Failure(EnrichmentFailed)
  {
  }

  /**
   * A first page whose thumbnail has no `source` is not a failure: `image`
   * becomes `undefined`, so it leaves the body, and the request goes on.
   */
  lemma MissingSourceRemovesImage(body: map<string, Json>, fetch: Fetcher, top: map<string, Json>,
                                  query: map<string, Json>, pages: seq<Json>, page: map<string, Json>,
                                  thumbnail: map<string, Json>)
    requires fetch(WikipediaUrl(TemplateText(SpeciesName(body)))) == Some(JObject(top))
    requires "query" in top && top["query"] == JObject(query)
    requires "pages" in query && query["pages"] == JArray(pages)
    requires |pages| > 0 && pages[0] == JObject(page)
    requires "thumbnail" in page && page["thumbnail"] == JObject(thumbnail)
    requires "source" !in thumbnail
    ensures Enrich(body, fetch) == Success(body - {"image"})
  {
  }

  /**
   * A body without `species_name` interpolates `undefined`, so it looks up the
   * species literally named "undefined".
   */
  lemma MissingNameLooksUpUndefined(body: map<string, Json>, fetch: Fetcher)
    requires "species_name" !in body
    ensures Thumbnail(body, fetch) == Thumbnail(body["species_name" := JString("undefined")], fetch)
  {
  }

  // ---------------------------------------------------------------- request state

  /** The parts of one request/response pair the middleware reads and writes. */
  class Exchange {
    /** `req.headers.authorization` */
    const authorization: Option<string>
    /** `req.body` */
    var body: map<string, Json>
    /** `res.locals.user` */
    var user: Option<Principal>

    constructor (authorization: Option<string>, body: map<string, Json>)
      ensures this.authorization == authorization && this.body == body && user == None
    {
      this.authorization := authorization;
      this.body := body;
      user := None;
    }

    /** authenticate: on success the claims become `res.locals.user`; on failure nothing changes. */
    method Authenticate(secret: Option<string>, verify: Verifier) returns (o: Outcome)
      modifies this`user
      ensures AuthDecision(authorization, secret, verify).Success? ==>
                o == Next && user == Some(AuthDecision(authorization, secret, verify).value)
      ensures AuthDecision(authorization, secret, verify).Failure? ==>
                o == Fail(AuthDecision(authorization, secret, verify).error) && user == old(user)
    {
      if authorization.None? || authorization.value == "" {
        return Fail(NoAuthHeader);
      }
      var token := BearerToken(authorization.value);
      if token.None? {
        return Fail(NoToken);
      }
      if secret.None? || secret.value == "" {
        return Fail(NoSecret);
      }
      var tokenContent := verify(token.value, secret.value);
      if tokenContent.None? {
        return Fail(NotAuthorized);
      }
      user := tokenContent;
      o := Next;
    }

    /** imageFromWikipedia: on success `req.body` becomes the enriched body; on failure it is unchanged. */
    method ImageFromWikipedia(fetch: Fetcher) returns (o: Outcome)
      modifies this`body
      ensures Enrich(old(body), fetch).Success? ==> o == Next && body == Enrich(old(body), fetch).value
      ensures Enrich(old(body), fetch).Failure? ==> o == Fail(EnrichmentFailed) && body == old(body)
    {
      var name := SpeciesName(body);
      var url := WikipediaUrl(TemplateText(name));
      var imageData := fetch(url);
      if imageData.None? {
        return Fail(EnrichmentFailed);
      }
      var thumbnail := ThumbnailSource(imageData);
      if thumbnail.Throws? {
        return Fail(EnrichmentFailed);
      }
      if thumbnail.value.Some? {
        body := body["image" := thumbnail.value.value];
      } else {
        body := body - {"image"};
      }
      o := Next;
    }
  }
}
