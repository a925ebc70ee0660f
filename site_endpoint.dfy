/** `src/endpoint/site.rs`: the route table of the site handlers and the handlers, each of
    which is one service call followed by `?` (and `ok_or(NotFoundError::new())?` for the
    optional answers). A handler is modelled from the service's answer to its
    `Result<impl Responder>`; `Respond` turns that into the response sent. */
module SiteEndpoint {
  import opened Outcomes
  import opened SiteModel
  import opened Http
  import opened Service
  import opened Endpoint

  const SitesScope: seq<Segment> := [Lit("sites")]
  const SiteIdScope: seq<Segment> := [Param("site_id")]

  /** `get_service`: GET and POST on the scope itself, PUT and DELETE on `/{site_id}` below it. */
  function GetService(): seq<Route>
  {
    Scope(SitesScope,
      [Route(Get, [], GetSitesHandler), Route(Post, [], CreateSiteHandler)]
      + Scope(SiteIdScope, [Route(Put, [], UpdateSiteHandler), Route(Delete, [], DeleteSiteHandler)]))
  }

  /** The route table, written out: four routes on two paths. */
  lemma RouteTable()
    ensures GetService() == [
      Route(Get, [Lit("sites")], GetSitesHandler),
      Route(Post, [Lit("sites")], CreateSiteHandler),
      Route(Put, [Lit("sites"), Param("site_id")], UpdateSiteHandler),
      Route(Delete, [Lit("sites"), Param("site_id")], DeleteSiteHandler)]
    ensures PatternText(GetService()[0].pattern) == "/sites"
    ensures PatternText(GetService()[2].pattern) == "/sites/{site_id}"
  {
    var inner := [Route(Put, [], UpdateSiteHandler), Route(Delete, [], DeleteSiteHandler)];
    var scopedInner := Scope(SiteIdScope, inner);
    assert SiteIdScope + [] == SiteIdScope && SitesScope + [] == SitesScope;
    assert scopedInner[0] == Route(Put, SiteIdScope, UpdateSiteHandler);
    assert scopedInner[1] == Route(Delete, SiteIdScope, DeleteSiteHandler);
    var outer := [Route(Get, [], GetSitesHandler), Route(Post, [], CreateSiteHandler)] + scopedInner;
    assert SitesScope + SiteIdScope == [Lit("sites"), Param("site_id")];
    var routes := Scope(SitesScope, outer);
    assert routes[0] == Route(Get, [Lit("sites")], GetSitesHandler);
    assert routes[1] == Route(Post, [Lit("sites")], CreateSiteHandler);
    assert routes[2] == Route(Put, [Lit("sites"), Param("site_id")], UpdateSiteHandler);
    assert routes[3] == Route(Delete, [Lit("sites"), Param("site_id")], DeleteSiteHandler);
  }

  /** No other routes exist: a request reaches a handler exactly when it is GET or POST on
      `/sites`, or PUT or DELETE on `/sites/{site_id}` with a non-empty id, and each reaches
      its own handler. */
  lemma RoutesResolve(verb: HttpMethod, path: seq<string>)
    ensures Resolve(GetService(), verb, path) ==
      if path == ["sites"] then
        (match verb
         case Get => Some(GetSitesHandler)
         case Post => Some(CreateSiteHandler)
         case _ => None)
      else if |path| == 2 && path[0] == "sites" && path[1] != "" then
        (match verb
         case Put => Some(UpdateSiteHandler)
         case Delete => Some(DeleteSiteHandler)
         case _ => None)
      else None
  {
    RouteTable();
    var routes := GetService();
    assert Fits(routes[0].pattern, path) <==> path == ["sites"];
    assert Fits(routes[2].pattern, path) <==> |path| == 2 && path[0] == "sites" && path[1] != "";
    assert routes[3..][1..] == [];
    assert Resolve(routes[3..], verb, path) == if verb == Delete && Fits(routes[3].pattern, path) then Some(DeleteSiteHandler) else None;
    assert Resolve(routes[2..], verb, path) == if verb == Put && Fits(routes[2].pattern, path) then Some(UpdateSiteHandler) else Resolve(routes[3..], verb, path) by {
      assert routes[2..][1..] == routes[3..];
    }
    assert Resolve(routes[1..], verb, path) == if verb == Post && Fits(routes[1].pattern, path) then Some(CreateSiteHandler) else Resolve(routes[2..], verb, path) by {
      assert routes[1..][1..] == routes[2..];
    }
  }

  /** `get_sites`: the service's Sites as the JSON body, or its error. */
  function GetSites(service: Result<seq<Site>, HttpError>): Result<Body, HttpError>
  {
    match service
    case Ok(sites) => Ok(SitesJson(sites))
    case Err(e) => Err(e)
  }

  /** `create_site`: the created Site as the JSON body, or the service's error. */
  function CreateSite(service: Result<Site, HttpError>): Result<Body, HttpError>
  {
    match service
    case Ok(site) => Ok(SiteJson(site))
    case Err(e) => Err(e)
  }

  /** `...await?.ok_or(NotFoundError::new())?`, shared by `update_site` and `delete_site`. */
  function FoundOrNotFound(service: Result<Option<Site>, HttpError>): Result<Body, HttpError>
  {
    match service
    case Ok(Some(site)) => Ok(SiteJson(site))
    case Ok(None) => Err(NotFoundError.New.Into())
    case Err(e) => Err(e)
  }

  function UpdateSite(service: Result<Option<Site>, HttpError>): Result<Body, HttpError>
  {
    FoundOrNotFound(service)
  }

  function DeleteSite(service: Result<Option<Site>, HttpError>): Result<Body, HttpError>
  {
    FoundOrNotFound(service)
  }

  /** `get_sites` answers 200 with the list (an empty one included), and passes an error's
      own response through. */
  lemma GetSitesResponse(service: Result<seq<Site>, HttpError>)
    ensures service.Ok? ==> Respond(GetSites(service)) == Response(200, SitesJson(service.value))
    ensures service.Err? ==> Respond(GetSites(service)) == service.error.response
  {
  }

  /** `create_site` answers 200, not 201, with the created Site, and passes an error's own
      response through. */
  lemma CreateSiteResponse(service: Result<Site, HttpError>)
    ensures service.Ok? ==> Respond(CreateSite(service)) == Response(200, SiteJson(service.value))
    ensures service.Err? ==> Respond(CreateSite(service)) == service.error.response
  {
  }

  /** `update_site` and `delete_site`: a Site answers 200 with it as body, an absent Site
      answers 404 with an empty body, and an error's own response is passed through. */
  lemma FoundOrNotFoundResponse(service: Result<Option<Site>, HttpError>)
    ensures service.Ok? && service.value.Some? ==>
      Respond(UpdateSite(service)) == Respond(DeleteSite(service)) == Response(200, SiteJson(service.value.value))
    ensures service == Ok(None) ==>
      Respond(UpdateSite(service)) == Respond(DeleteSite(service)) == Response(404, Empty)
    ensures service.Err? ==>
      Respond(UpdateSite(service)) == Respond(DeleteSite(service)) == service.error.response
  {
  }

  /** From the repository's answer through the service to the response of `update_site`
      or `delete_site`: failure is 500, absence is 404, a Site is 200, and nothing else. */
  lemma OptionalAnswerStatus(answer: Result<Option<Site>, StoreError>)
    ensures var status := Respond(FoundOrNotFound(MapInternal(answer))).status;
      && (status == 500 <==> answer.Err?)
      && (status == 404 <==> answer == Ok(None))
      && (status == 200 <==> answer.Ok? && answer.value.Some?)
  {
  }

  /** From the repository's answer through the service to the response of `get_sites` or
      `create_site`: failure is 500, any value is 200. */
  lemma ValueAnswerStatus(listed: Result<seq<Site>, StoreError>, created: Result<Site, StoreError>)
    ensures Respond(GetSites(MapInternal(listed))).status == (if listed.Ok? then 200 else 500)
    ensures Respond(CreateSite(MapInternal(created))).status == (if created.Ok? then 200 else 500)
  {
  }

  /** The handler tests: a service answering an empty list gives GET /sites a 200; one
      answering no Site gives PUT /sites/3 and DELETE /sites/3 a 404. */
  lemma TestHandlers()
    ensures Resolve(GetService(), Get, ["sites"]) == Some(GetSitesHandler)
    ensures Respond(GetSites(Ok([]))).status == 200
    ensures Resolve(GetService(), Put, ["sites", "3"]) == Some(UpdateSiteHandler)
    ensures Respond(UpdateSite(Ok(None))).status == 404
    ensures Resolve(GetService(), Delete, ["sites", "3"]) == Some(DeleteSiteHandler)
    ensures Respond(DeleteSite(Ok(None))).status == 404
  {
    RoutesResolve(Get, ["sites"]);
    RoutesResolve(Put, ["sites", "3"]);
    RoutesResolve(Delete, ["sites", "3"]);
  }
}
