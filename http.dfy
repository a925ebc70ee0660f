/** The few pieces of actix-web the handlers rely on, as values: a response is a status
    and a body; an actix `Error` is the response it renders; a `Result<impl Responder>`
    renders 200 with its body on `Ok`, and the error's response on `Err`; a route is a
    method, a path pattern and a handler, and `web::scope` prefixes the patterns. */
module Http {
  import opened Outcomes
  import opened SiteModel

  const StatusOk: int := 200
  const StatusNotFound: int := 404
  const StatusInternalServerError: int := 500

  datatype Body =
    | Empty
    | SiteJson(site: Site)           // Json(site)
    | SitesJson(sites: seq<Site>)    // Json(sites)
    | PlainText(text: string)        // a String responder
    | CauseText(cause: StoreError)   // an internal error's rendering of its cause

  datatype Response = Response(status: int, body: Body)

  /** `actix_web::Error`: whatever `ResponseError` it wraps, it renders this response. */
  datatype HttpError = HttpError(response: Response)

  /** `ErrorInternalServerError(e)`: wraps the cause and renders status 500. */
  function ErrorInternalServerError(cause: StoreError): (e: HttpError)
    ensures e.response.status == StatusInternalServerError
    ensures e.response.body.CauseText? && e.response.body.cause == cause
  {
    HttpError(Response(StatusInternalServerError, CauseText(cause)))
  }

  /** How a handler's `Result<impl Responder>` becomes the response sent. */
  function Respond(handled: Result<Body, HttpError>): Response
  {
    match handled
    case Ok(body) => Response(StatusOk, body)
    case Err(e) => e.response
  }

  datatype HttpMethod = Get | Post | Put | Delete

  /** One segment of a path pattern: literal text, or a `{name}` placeholder. */
  datatype Segment = Lit(text: string) | Param(name: string)

  datatype Handler = GetSitesHandler | CreateSiteHandler | UpdateSiteHandler | DeleteSiteHandler | IndexHandler

  datatype Route = Route(verb: HttpMethod, pattern: seq<Segment>, handler: Handler)

  /** `web::scope(prefix)` around `routes`: each pattern gains the prefix, nothing else changes. */
  function Scope(prefix: seq<Segment>, routes: seq<Route>): (scoped: seq<Route>)
    ensures |scoped| == |routes|
    ensures forall i :: 0 <= i < |routes| ==>
      scoped[i] == Route(routes[i].verb, prefix + routes[i].pattern, routes[i].handler)
  {
    if routes == [] then []
    else [Route(routes[0].verb, prefix + routes[0].pattern, routes[0].handler)] + Scope(prefix, routes[1..])
  }

  /** A request path, split at its slashes, fits a pattern: a literal segment must be equal
      to its text, and a `{name}` placeholder takes one or more characters (`[^/]+`). */
  predicate Fits(pattern: seq<Segment>, path: seq<string>)
  {
    |pattern| == |path| && forall i :: 0 <= i < |path| ==>
      (pattern[i].Lit? ==> pattern[i].text == path[i]) && (pattern[i].Param? ==> path[i] != "")
  }

  /** The handler of the first route that takes the request, if any. */
  function Resolve(routes: seq<Route>, verb: HttpMethod, path: seq<string>): Option<Handler>
  {
    if routes == [] then None
    else if routes[0].verb == verb && Fits(routes[0].pattern, path) then Some(routes[0].handler)
    else Resolve(routes[1..], verb, path)
  }

  /** A request fits a prefixed pattern exactly when it splits into a part that fits the
      prefix and a part that fits the rest. */
  lemma FitsConcat(prefix: seq<Segment>, pattern: seq<Segment>, path: seq<string>)
    ensures Fits(prefix + pattern, path) <==>
      |path| >= |prefix| && Fits(prefix, path[..|prefix|]) && Fits(pattern, path[|prefix|..])
  {
  }

  /** Inside `web::scope(prefix)` a request reaches what its remainder reaches without the
      scope, if it starts with the prefix, and nothing otherwise. */
  lemma {:induction false} ResolveScoped(prefix: seq<Segment>, routes: seq<Route>, verb: HttpMethod, path: seq<string>)
    ensures Resolve(Scope(prefix, routes), verb, path) ==
      if |path| >= |prefix| && Fits(prefix, path[..|prefix|]) then Resolve(routes, verb, path[|prefix|..]) else None
  {
    if routes != [] {
      var scoped := Scope(prefix, routes);
      assert scoped[1..] == Scope(prefix, routes[1..]);
      FitsConcat(prefix, routes[0].pattern, path);
      ResolveScoped(prefix, routes[1..], verb, path);
    }
  }

  /** The text of a pattern as written in the source: "/sites/{site_id}". */
  function PatternText(pattern: seq<Segment>): string
  {
    if pattern == [] then "" else "/" + SegmentText(pattern[0]) + PatternText(pattern[1..])
  }

  function SegmentText(segment: Segment): string
  {
    match segment
    case Lit(t) => t
    case Param(n) => "{" + n + "}"
  }

  /** The text of a prefixed pattern is the prefix's text before the pattern's. */
  lemma {:induction false} PatternTextConcat(prefix: seq<Segment>, pattern: seq<Segment>)
    ensures PatternText(prefix + pattern) == PatternText(prefix) + PatternText(pattern)
  {
    if prefix != [] {
      assert (prefix + pattern)[1..] == prefix[1..] + pattern;
      PatternTextConcat(prefix[1..], pattern);
    } else {
      assert prefix + pattern == pattern;
    }
  }
}
