/** `configure` of `src/endpoint/mod.rs`: the index route at the root and the site routes
    under the `/api/v1` scope. */
module EndpointRoutes {
  import opened Outcomes
  import opened Http
  import opened SiteEndpoint
  import opened Endpoint

  const ApiScope: seq<Segment> := [Lit("api"), Lit("v1")]

  /** `#[get("/{id}/{name}/")]`: the trailing slash is an empty last segment. */
  const IndexRoute := Route(Get, [Param("id"), Param("name"), Lit("")], IndexHandler)

  function Configure(): seq<Route>
  {
    [IndexRoute] + Scope(ApiScope, GetService())
  }

  /** The application's routes: the index, and the four site routes with `/api/v1` before them. */
  lemma ConfiguredRoutes()
    ensures Configure() == [
      IndexRoute,
      Route(Get, [Lit("api"), Lit("v1"), Lit("sites")], GetSitesHandler),
      Route(Post, [Lit("api"), Lit("v1"), Lit("sites")], CreateSiteHandler),
      Route(Put, [Lit("api"), Lit("v1"), Lit("sites"), Param("site_id")], UpdateSiteHandler),
      Route(Delete, [Lit("api"), Lit("v1"), Lit("sites"), Param("site_id")], DeleteSiteHandler)]
  {
    RouteTable();
    var scoped := Scope(ApiScope, GetService());
    assert scoped[0] == Route(Get, [Lit("api"), Lit("v1"), Lit("sites")], GetSitesHandler);
    assert scoped[1] == Route(Post, [Lit("api"), Lit("v1"), Lit("sites")], CreateSiteHandler);
    assert scoped[2] == Route(Put, [Lit("api"), Lit("v1"), Lit("sites"), Param("site_id")], UpdateSiteHandler);
    assert scoped[3] == Route(Delete, [Lit("api"), Lit("v1"), Lit("sites"), Param("site_id")], DeleteSiteHandler);
  }

  /** The scope's text is `/api/v1`. */
  lemma ApiScopeText()
    ensures PatternText(ApiScope) == "/api/v1"
  {
  }

  /** The full paths of the site routes are `/api/v1/sites` and `/api/v1/sites/{site_id}`. */
  lemma SitePathsText()
    ensures PatternText(ApiScope + SitesScope) == "/api/v1/sites"
    ensures PatternText(ApiScope + SitesScope + SiteIdScope) == "/api/v1/sites/{site_id}"
  {
    ApiScopeText();
    PatternTextConcat(ApiScope, SitesScope);
    PatternTextConcat(ApiScope + SitesScope, SiteIdScope);
  }

  /** The index's path is `/{id}/{name}/`. */
  lemma IndexPathText()
    ensures PatternText(IndexRoute.pattern) == "/{id}/{name}/"
  {
  }

  /** A site request reaches a handler only with the prefix: for every method, a request on
      `/api/v1/sites` or `/api/v1/sites/{id}` reaches what `get_service` gives the same request
      without the prefix, and `/sites/{id}` without the prefix reaches nothing. */
  lemma PrefixRequired(verb: HttpMethod, id: string)
    ensures Resolve(Configure(), verb, ["api", "v1", "sites"]) == Resolve(GetService(), verb, ["sites"])
    ensures Resolve(Configure(), verb, ["api", "v1", "sites", id]) == Resolve(GetService(), verb, ["sites", id])
    ensures Resolve(Configure(), verb, ["sites", id]) == None
  {
    var routes := Configure();
    assert routes[1..] == Scope(ApiScope, GetService());
    ResolveScoped(ApiScope, GetService(), verb, ["api", "v1", "sites", id]);
    ResolveScoped(ApiScope, GetService(), verb, ["api", "v1", "sites"]);
    ResolveScoped(ApiScope, GetService(), verb, ["sites", id]);
    assert ["api", "v1", "sites", id][2..] == ["sites", id];
    assert ["api", "v1", "sites"][2..] == ["sites"];
    assert ["sites", id][..2][0] != "api";
    RoutesResolve(verb, ["sites", id]);
    RoutesResolve(verb, ["sites"]);
    assert !Fits(IndexRoute.pattern, ["api", "v1", "sites"]) by {
      assert IndexRoute.pattern[2] == Lit("") && "" != "sites";
    }
  }

  /** The index test: on an application holding only `index`, GET /1/test/ reaches it and
      answers 200 with the text "Hello test! id:1". */
  lemma TestIndexOk()
    ensures Resolve([IndexRoute], Get, ["1", "test", ""]) == Some(IndexHandler)
    ensures Index(1, "test") == "Hello test! id:1"
    ensures Respond(Ok(PlainText(Index(1, "test")))).status == 200
  {
  }
}
