/** What the SQL statements of `src/infra/postgres.rs` promise, proved on the value-level
    statement model (Allowed, After), and the file's tests replayed on the repository class. */
module PostgresProperties {
  import opened Outcomes
  import opened SiteModel
  import opened Postgres

  // ---------------------------------------------------------------------------------
  // Listings

  lemma {:induction false} IdsOfMembers(s: seq<Site>)
    ensures forall id :: id in IdsOf(s) <==> exists i :: 0 <= i < |s| && s[i].id == id
  {
    if s != [] {
      var init := s[..|s| - 1];
      IdsOfMembers(init);
      assert forall i :: 0 <= i < |init| ==> init[i] == s[i];
    }
  }

  /** Distinct ids make as many ids as rows. */
  lemma {:induction false} IdsOfDistinct(s: seq<Site>)
    requires forall i, j :: 0 <= i < j < |s| ==> s[i].id != s[j].id
    ensures |IdsOf(s)| == |s|
  {
    if s != [] {
      var init := s[..|s| - 1];
      IdsOfDistinct(init);
      IdsOfMembers(init);
      assert s[|s| - 1].id !in IdsOf(init);
    }
  }

  /** `all` answers exactly as many rows as the table holds. */
  lemma ListingLength(s: seq<Site>, t: Table)
    requires Listing(s, t)
    ensures |s| == |t|
  {
    IdsOfDistinct(s);
    assert |t| == |t.Keys|;
  }

  /** A listing holds a row of the table exactly when its id is a key of the table. */
  lemma ListingMembers(s: seq<Site>, t: Table)
    requires Listing(s, t)
    ensures forall id :: id in t <==> exists i :: 0 <= i < |s| && s[i].id == id
  {
    IdsOfMembers(s);
  }

  /** The only listing of a one-row table is that row. */
  lemma ListingOfOne(s: seq<Site>, t: Table, site: Site)
    requires t == map[site.id := site] && Listing(s, t)
    ensures s == [site]
  {
    ListingLength(s, t);
  }

  // ---------------------------------------------------------------------------------
  // One statement

  /** Every successful statement keeps each row under its own id. */
  lemma AfterWellKeyed(t: Table, x: Exchange)
    requires WellKeyed(t) && Allowed(t, x) && x.Succeeded()
    ensures WellKeyed(After(t, x))
  {
  }

  /** `create` returns the caller's fields under an id no row had, and adds exactly that row. */
  lemma CreateAddsRow(t: Table, site: NewSite, s: Site)
    requires Allowed(t, CreateCall(site, Ok(s)))
    ensures s.address == site.address && s.lat == site.lat && s.lng == site.lng
    ensures s.id !in t
    ensures After(t, CreateCall(site, Ok(s))).Keys == t.Keys + {s.id}
    ensures |After(t, CreateCall(site, Ok(s)))| == |t| + 1
    ensures After(t, CreateCall(site, Ok(s)))[s.id] == s
    ensures forall id :: id in t ==> After(t, CreateCall(site, Ok(s)))[id] == t[id]
  {
  }

  /** `get` finds a row exactly when its id is a key, and the row it finds carries that id. */
  lemma GetAnswer(t: Table, id: SiteId, o: Option<Site>)
    requires WellKeyed(t) && Allowed(t, GetCall(id, Ok(o)))
    ensures o.Some? <==> id in t
    ensures o.Some? ==> o.value == t[id] && o.value.id == id
  {
  }

  /** `delete` of a present id answers the row as it was and removes it, one row fewer;
      of an absent id it answers none and leaves the table as it was. */
  lemma DeleteAnswer(t: Table, id: SiteId, o: Option<Site>)
    requires WellKeyed(t) && Allowed(t, DeleteCall(id, Ok(o)))
    ensures o.Some? <==> id in t
    ensures o.Some? ==> o.value == t[id] && o.value.id == id
    ensures o.Some? ==> (After(t, DeleteCall(id, Ok(o))).Keys == t.Keys - {id}
                         && |After(t, DeleteCall(id, Ok(o)))| == |t| - 1)
    ensures o.None? ==> After(t, DeleteCall(id, Ok(o))) == t
    ensures forall k :: k in After(t, DeleteCall(id, Ok(o))) ==> After(t, DeleteCall(id, Ok(o)))[k] == t[k]
  {
  }

  /** A second `delete` of the same id answers none, not an error. */
  lemma DeleteTwice(t: Table, id: SiteId, first: Option<Site>, second: Option<Site>)
    requires Allowed(t, DeleteCall(id, Ok(first)))
    requires Allowed(After(t, DeleteCall(id, Ok(first))), DeleteCall(id, Ok(second)))
    ensures second == None
  {
  }

  /** `update` of a present id replaces the three fields wholesale, keeps the id and
      answers the new row; no other row and no key changes. Of an absent id it answers
      none and changes nothing. */
  lemma UpdateAnswer(t: Table, id: SiteId, site: NewSite, o: Option<Site>)
    requires WellKeyed(t) && Allowed(t, UpdateCall(id, site, Ok(o)))
    ensures o.Some? <==> id in t
    ensures o.Some? ==> o.value.id == id && Fields(o.value) == site
    ensures o.Some? ==> (&& After(t, UpdateCall(id, site, Ok(o))).Keys == t.Keys
                         && |After(t, UpdateCall(id, site, Ok(o)))| == |t|
                         && After(t, UpdateCall(id, site, Ok(o)))[id] == o.value)
    ensures forall k :: k in t && k != id ==> After(t, UpdateCall(id, site, Ok(o)))[k] == t[k]
    ensures o.None? ==> After(t, UpdateCall(id, site, Ok(o))) == t
  {
  }

  // ---------------------------------------------------------------------------------
  // Several statements

  /** `xs` is a run of successful statements, each allowed on the table the previous left. */
  ghost predicate Accepts(t: Table, xs: seq<Exchange>)
    decreases |xs|
  {
    xs == [] || (xs[0].Succeeded() && Allowed(t, xs[0]) && Accepts(After(t, xs[0]), xs[1..]))
  }

  /** The table a run leaves. */
  ghost function Final(t: Table, xs: seq<Exchange>): Table
    requires Accepts(t, xs)
    decreases |xs|
  {
    if xs == [] then t else Final(After(t, xs[0]), xs[1..])
  }

  /** A run keeps every row under its own id. */
  lemma {:induction false} FinalWellKeyed(t: Table, xs: seq<Exchange>)
    requires WellKeyed(t) && Accepts(t, xs)
    ensures WellKeyed(Final(t, xs))
    decreases |xs|
  {
    if xs != [] {
      AfterWellKeyed(t, xs[0]);
      FinalWellKeyed(After(t, xs[0]), xs[1..]);
    }
  }

  /** Each successful `create` adds one row. */
  lemma {:induction false} CreatesAddRows(t: Table, xs: seq<Exchange>)
    requires Accepts(t, xs)
    requires forall i :: 0 <= i < |xs| ==> xs[i].CreateCall?
    ensures |Final(t, xs)| == |t| + |xs|
    decreases |xs|
  {
    if xs != [] {
      CreateAddsRow(t, xs[0].site, xs[0].created.value);
      CreatesAddRows(After(t, xs[0]), xs[1..]);
    }
  }

  /** After n successful `create` calls on an empty table, `all` answers exactly n rows. */
  lemma CountAfterCreates(xs: seq<Exchange>, listed: seq<Site>)
    requires Accepts(map[], xs)
    requires forall i :: 0 <= i < |xs| ==> xs[i].CreateCall?
    requires Allowed(Final(map[], xs), AllCall(Ok(listed)))
    ensures |listed| == |xs|
  {
    CreatesAddRows(map[], xs);
    ListingLength(listed, Final(map[], xs));
  }

  /** A created row that is then updated reads back, by `get` and in `all`, with the new
      fields and its original id. */
  lemma CreateUpdateRead(t: Table, site: NewSite, s: Site, changed: NewSite, o: Option<Site>,
                         got: Option<Site>, listed: seq<Site>)
    requires WellKeyed(t)
    requires Accepts(t, [CreateCall(site, Ok(s)), UpdateCall(s.id, changed, Ok(o))])
    requires Allowed(Final(t, [CreateCall(site, Ok(s)), UpdateCall(s.id, changed, Ok(o))]), GetCall(s.id, Ok(got)))
    requires Allowed(Final(t, [CreateCall(site, Ok(s)), UpdateCall(s.id, changed, Ok(o))]), AllCall(Ok(listed)))
    ensures o == Some(WithId(s.id, changed))
    ensures got == Some(WithId(s.id, changed))
    ensures exists i :: 0 <= i < |listed| && listed[i] == WithId(s.id, changed)
  {
    var xs := [CreateCall(site, Ok(s)), UpdateCall(s.id, changed, Ok(o))];
    var t1 := After(t, xs[0]);
    var rest := [UpdateCall(s.id, changed, Ok(o))];
    assert xs[1..] == rest && rest[1..] == [];
    assert Final(t, xs) == Final(t1, rest) == Final(After(t1, rest[0]), []);
    ListingMembers(listed, Final(t, xs));
  }

  /** A created row that is then deleted is gone: `get` answers none and `all` leaves it out. */
  lemma CreateDeleteRead(t: Table, site: NewSite, s: Site, o: Option<Site>,
                         got: Option<Site>, listed: seq<Site>)
    requires WellKeyed(t)
    requires Accepts(t, [CreateCall(site, Ok(s)), DeleteCall(s.id, Ok(o))])
    requires Allowed(Final(t, [CreateCall(site, Ok(s)), DeleteCall(s.id, Ok(o))]), GetCall(s.id, Ok(got)))
    requires Allowed(Final(t, [CreateCall(site, Ok(s)), DeleteCall(s.id, Ok(o))]), AllCall(Ok(listed)))
    ensures o == Some(s) && got == None
    ensures forall i :: 0 <= i < |listed| ==> listed[i].id != s.id
  {
    var xs := [CreateCall(site, Ok(s)), DeleteCall(s.id, Ok(o))];
    var t1 := After(t, xs[0]);
    var rest := [DeleteCall(s.id, Ok(o))];
    assert xs[1..] == rest && rest[1..] == [];
    assert Final(t, xs) == Final(t1, rest) == Final(After(t1, rest[0]), []);
  }

  // ---------------------------------------------------------------------------------
  // The tests of the repository, on an empty table and with no store failure

  method TestCreateSites() returns (newSite: NewSite, site: Site)
    ensures newSite == NewSiteFactory()
    ensures site.address == newSite.address && site.lat == newSite.lat && site.lng == newSite.lng
  {
    var repo := new PostgresDatabaseRepository();
    newSite := NewSiteFactory();
    var r := repo.Create(newSite, None);
    site := r.value;
  }

  method TestGetSites() returns (count: nat)
    ensures count == 3
  {
    var repo := new PostgresDatabaseRepository();
    var i := 0;
    while i < 3
      invariant 0 <= i <= 3
      invariant repo.Valid() && repo.nextId == i + 1 && |repo.rows| == i
    {
      ghost var before := repo.rows;
      var r := repo.Create(NewSiteFactory(), None);
      CreateAddsRow(before, NewSiteFactory(), r.value);
      i := i + 1;
    }
    var sites := repo.All(None);
    ListingLength(sites.value, repo.rows);
    count := |sites.value|;
  }

  method TestGetSite() returns (site: Site, gotSite: Site)
    ensures gotSite.id == site.id && gotSite.address == site.address
    ensures gotSite.lat == site.lat && gotSite.lng == site.lng
  {
    var repo := new PostgresDatabaseRepository();
    var created := repo.Create(NewSiteFactory(), None);
    site := created.value;
    var got := repo.Get(site.id, None);
    gotSite := got.value.value;
  }

  method TestGetNonExistingSite() returns (gotSite: Result<Option<Site>, StoreError>)
    ensures gotSite == Ok(None)
  {
    var repo := new PostgresDatabaseRepository();
    gotSite := repo.Get(0, None);
  }

  method TestDeleteSite() returns (site: Site, deletedSite: Site, siteCount: nat)
    ensures deletedSite == site
    ensures deletedSite.address == site.address
    ensures siteCount == 0
  {
    var repo := new PostgresDatabaseRepository();
    var created := repo.Create(NewSiteFactory(), None);
    site := created.value;
    var deleted := repo.Delete(site.id, None);
    deletedSite := deleted.value.value;
    var sites := repo.All(None);
    ListingLength(sites.value, repo.rows);
    siteCount := |sites.value|;
  }

  method TestDeleteNonExistingSiteReturnsNone() returns (deletedSite: Result<Option<Site>, StoreError>, siteCount: nat)
    ensures deletedSite == Ok(None)
    ensures siteCount == 1
  {
    var repo := new PostgresDatabaseRepository();
    var created := repo.Create(NewSiteFactory(), None);
    var site := created.value;
    deletedSite := repo.Delete(site.id + 1, None);
    var sites := repo.All(None);
    ListingLength(sites.value, repo.rows);
    siteCount := |sites.value|;
  }

  method TestUpdateSite() returns (site: Site, updatedSite: Result<Option<Site>, StoreError>)
    ensures updatedSite.Ok? && updatedSite.value.Some?
    ensures updatedSite.value.value.address == "New Street"
    ensures updatedSite.value.value.lat == site.lat && updatedSite.value.value.lng == site.lng
  {
    var repo := new PostgresDatabaseRepository();
    var created := repo.Create(NewSiteFactory(), None);
    site := created.value;
    updatedSite := repo.Update(site.id, NewSite("New Street", site.lat, site.lng), None);
  }

  method TestUpdateNonExistingSiteFails() returns (result: Result<Option<Site>, StoreError>)
    ensures result == Ok(None)
  {
    var repo := new PostgresDatabaseRepository();
    result := repo.Update(0, NewSiteFactory(), None);
  }
}
