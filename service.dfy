/** `SiteServiceImpl` of `src/service/mod.rs`: each operation makes one repository call,
    passes the arguments and the value through untouched, and turns any repository error
    into an internal server error. */
module Service {
  import opened Outcomes
  import opened SiteModel
  import opened Http
  import opened Postgres
  import PostgresProperties

  /** `.map_err(|e| ErrorInternalServerError(e))`: a value stays the same value (an absent
      Site stays absent), and only an error changes, into a 500 that carries it. */
  function MapInternal<T>(answer: Result<T, StoreError>): (r: Result<T, HttpError>)
    ensures r.Ok? <==> answer.Ok?
    ensures r.Ok? ==> r.value == answer.value
    ensures r.Err? ==> (&& r.error.response.status == StatusInternalServerError
                        && r.error.response.body == CauseText(answer.error))
  {
    match answer
    case Ok(v) => Ok(v)
    case Err(e) => Err(ErrorInternalServerError(e))
  }

  /** The service over its repository. Each method also returns, as a ghost, the answer the
      repository gave it, which is what a mock of the repository would have returned. */
  class SiteServiceImpl {
    const siteRepo: PostgresDatabaseRepository

    constructor (siteRepo: PostgresDatabaseRepository)
      ensures this.siteRepo == siteRepo
    {
      this.siteRepo := siteRepo;
    }

    method GetSites(fault: Option<StoreError>)
      returns (r: Result<seq<Site>, HttpError>, ghost answer: Result<seq<Site>, StoreError>)
      requires siteRepo.Valid()
      modifies siteRepo`calls
      ensures siteRepo.Valid() && siteRepo.Performed(AllCall(answer))
      ensures answer.Err? <==> fault.Some?
      ensures answer.Err? ==> answer.error == fault.value
      ensures r == MapInternal(answer)
    {
      var repoAnswer := siteRepo.All(fault);
      answer := repoAnswer;
      r := MapInternal(repoAnswer);
    }

    method CreateSite(newSite: NewSite, fault: Option<StoreError>)
      returns (r: Result<Site, HttpError>, ghost answer: Result<Site, StoreError>)
      requires siteRepo.Valid()
      modifies siteRepo
      ensures siteRepo.Valid() && siteRepo.Performed(CreateCall(newSite, answer))
      ensures answer.Ok? <==> fault.None? && !old(siteRepo.Exhausted())
      ensures answer.Err? ==> answer.error == if fault.Some? then fault.value else SequenceExhausted
      ensures answer.Ok? ==> siteRepo.nextId == old(siteRepo.nextId) + 1
      ensures r == MapInternal(answer)
    {
      var repoAnswer := siteRepo.Create(newSite, fault);
      answer := repoAnswer;
      r := MapInternal(repoAnswer);
    }

    method UpdateSite(siteId: SiteId, site: NewSite, fault: Option<StoreError>)
      returns (r: Result<Option<Site>, HttpError>, ghost answer: Result<Option<Site>, StoreError>)
      requires siteRepo.Valid()
      modifies siteRepo`rows, siteRepo`calls
      ensures siteRepo.Valid() && siteRepo.Performed(UpdateCall(siteId, site, answer))
      ensures answer.Err? <==> fault.Some?
      ensures answer.Err? ==> answer.error == fault.value
      ensures r == MapInternal(answer)
    {
      var repoAnswer := siteRepo.Update(siteId, site, fault);
      answer := repoAnswer;
      r := MapInternal(repoAnswer);
    }

    method DeleteSite(siteId: SiteId, fault: Option<StoreError>)
      returns (r: Result<Option<Site>, HttpError>, ghost answer: Result<Option<Site>, StoreError>)
      requires siteRepo.Valid()
      modifies siteRepo`rows, siteRepo`calls
      ensures siteRepo.Valid() && siteRepo.Performed(DeleteCall(siteId, answer))
      ensures answer.Err? <==> fault.Some?
      ensures answer.Err? ==> answer.error == fault.value
      ensures r == MapInternal(answer)
    {
      var repoAnswer := siteRepo.Delete(siteId, fault);
      answer := repoAnswer;
      r := MapInternal(repoAnswer);
    }
  }

  /** The service test: a repository stub answering two factory Sites with ids 0 and 1;
      the service answers the same two, in the same order. */
  lemma TestGetSites()
    ensures var sites := MapInternal(Ok([SiteFactory(0), SiteFactory(1)]));
      sites.Ok? && |sites.value| == 2 && sites.value[0].id == 0 && sites.value[1].id == 1
  {
  }

  /** Through the service: a created Site is answered with the caller's fields, and a
      following `get_sites` answers exactly that one Site. */
  method ScenarioCreateThenList() returns (created: Result<Site, HttpError>, listed: Result<seq<Site>, HttpError>)
    ensures created.Ok? && Fields(created.value) == NewSite("Street 1", "59", "58")
    ensures listed.Ok? && listed.value == [created.value]
  {
    var repo := new PostgresDatabaseRepository();
    var service := new SiteServiceImpl(repo);
    ghost var a1, a2;
    created, a1 := service.CreateSite(NewSite("Street 1", "59", "58"), None);
    listed, a2 := service.GetSites(None);
    var only := listed.value;
    PostgresProperties.ListingOfOne(only, repo.rows, created.value);
  }

  /** Through the service: deleting the same Site twice answers it, then absence,
      and neither is an error. */
  method ScenarioDeleteTwice() returns (created: Result<Site, HttpError>, first: Result<Option<Site>, HttpError>, second: Result<Option<Site>, HttpError>)
    ensures created.Ok? && Fields(created.value) == NewSiteFactory()
    ensures first == Ok(Some(created.value))
    ensures second == Ok(None)
  {
    var repo := new PostgresDatabaseRepository();
    var service := new SiteServiceImpl(repo);
    ghost var a1, a2, a3;
    created, a1 := service.CreateSite(NewSiteFactory(), None);
    first, a2 := service.DeleteSite(created.value.id, None);
    second, a3 := service.DeleteSite(created.value.id, None);
  }

  /** Through the service: a store that fails `create` surfaces as a 500 carrying the
      store's error, not as the store's own error type. */
  method ScenarioCreateFails(cause: StoreError) returns (created: Result<Site, HttpError>)
    ensures created.Err? && created.error.response.status == StatusInternalServerError
    ensures created.error.response.body == CauseText(cause)
  {
    var repo := new PostgresDatabaseRepository();
    var service := new SiteServiceImpl(repo);
    ghost var a;
    created, a := service.CreateSite(NewSiteFactory(), Some(cause));
  }
}
