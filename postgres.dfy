/** `PostgresDatabaseRepository` of `src/infra/postgres.rs`: each operation is one SQL
    statement on the `site` table. The table is modelled as a map from id to row; the
    statements' meaning is stated once, on values (Allowed, After), and the class below
    performs the statements in place and is proved against that statement. */
module Postgres {
  import opened Outcomes
  import opened SiteModel

  /** The `site` table: each row under its own id. */
  type Table = map<SiteId, Site>

  /** Every row is stored under the id it carries (`id` is the primary key). */
  ghost predicate WellKeyed(t: Table)
  {
    forall id :: id in t ==> t[id].id == id
  }

  /** `SELECT * FROM site WHERE id = $1` and `DELETE ... WHERE id = $1 RETURNING *`:
      the matching row, or none. */
  function Lookup(t: Table, id: SiteId): Option<Site>
  {
    if id in t then Some(t[id]) else None
  }

  /** The set of ids of a sequence of rows. */
  function IdsOf(s: seq<Site>): set<SiteId>
  {
    if s == [] then {} else IdsOf(s[..|s| - 1]) + {s[|s| - 1].id}
  }

  /** `s` is an answer of `SELECT * FROM site`: every row of `t` exactly once, in an
      order the statement does not fix (there is no ORDER BY). */
  ghost predicate Listing(s: seq<Site>, t: Table)
  {
    && (forall i :: 0 <= i < |s| ==> s[i].id in t && t[s[i].id] == s[i])
    && (forall i, j :: 0 <= i < j < |s| ==> s[i].id != s[j].id)
    && IdsOf(s) == t.Keys
  }

  /** The answers each statement may give on table `t`. A failure may always happen: it
      is decided by the store, not by the code. */
  ghost predicate Allowed(t: Table, x: Exchange)
  {
    match x
    case GetCall(id, Ok(o)) => o == Lookup(t, id)
    case AllCall(Ok(s)) => Listing(s, t)
    case DeleteCall(id, Ok(o)) => o == Lookup(t, id)
    // INSERT ... RETURNING *: the store picks an id no row has
    case CreateCall(site, Ok(s)) => s.id !in t && Fields(s) == site
    // UPDATE ... WHERE id = $4 RETURNING *: the new row, or none
    case UpdateCall(id, site, Ok(o)) => o == if id in t then Some(WithId(id, site)) else None
    case _ => true
  }

  /** The table after a successful statement. */
  function After(t: Table, x: Exchange): Table
    requires x.Succeeded()
  {
    match x
    case CreateCall(_, Ok(s)) => t[s.id := s]
    case UpdateCall(id, _, Ok(Some(s))) => t[id := s]
    case DeleteCall(id, Ok(Some(_))) => t - {id}
    case _ => t
  }

  /** `fetch_all`: collect every row of the table, one at a time. */
  method CollectRows(t: Table) returns (s: seq<Site>)
    requires WellKeyed(t)
    ensures Listing(s, t)
  {
    s := [];
    var pending := t.Keys;
    while pending != {}
      invariant pending <= t.Keys
      invariant forall i :: 0 <= i < |s| ==> s[i].id in t && t[s[i].id] == s[i] && s[i].id !in pending
      invariant forall i, j :: 0 <= i < j < |s| ==> s[i].id != s[j].id
      invariant IdsOf(s) == t.Keys - pending
      decreases pending
    {
      var id :| id in pending;
      ghost var before := s;
      s := s + [t[id]];
      assert s[..|s| - 1] == before;
      pending := pending - {id};
    }
  }

  /** The repository over one `site` table. `nextId` is the table's id sequence (a SERIAL
      column: it hands out 1, 2, 3, ... and fails once past `MaxSiteId`); `calls` records
      every call made on the repository, with its arguments and answer. `fault` arguments
      stand for the store's own decision to fail a statement. */
  class PostgresDatabaseRepository {
    var rows: Table
    var nextId: int
    ghost var calls: seq<Exchange>

    ghost predicate Valid()
      reads this
    {
      && WellKeyed(rows)
      && 1 <= nextId <= MaxSiteId + 1
      && forall id :: id in rows ==> id as int < nextId
    }

    /** The id sequence has no value left. */
    predicate Exhausted()
      reads this
    {
      nextId > MaxSiteId
    }

    /** Between the pre-state and now, exactly the call `x` was made, its answer is one the
        statement allows, and if it succeeded the table is what the statement leaves. */
    twostate predicate Performed(x: Exchange)
      reads this
    {
      && calls == old(calls) + [x]
      && Allowed(old(rows), x)
      && (x.Succeeded() ==> rows == After(old(rows), x))
    }

    /** A freshly migrated, empty table. */
    constructor ()
      ensures Valid() && rows == map[] && nextId == 1 && calls == []
    {
      rows := map[];
      nextId := 1;
      calls := [];
    }

    method Get(id: SiteId, fault: Option<StoreError>) returns (r: Result<Option<Site>, StoreError>)
      requires Valid()
      modifies this`calls
      ensures Valid() && Performed(GetCall(id, r))
      ensures r.Err? <==> fault.Some?
      ensures r.Err? ==> r.error == fault.value
    {
      if fault.Some? {
        r := Err(fault.value);
      } else {
        r := Ok(Lookup(rows, id));
      }
      calls := calls + [GetCall(id, r)];
    }

    method All(fault: Option<StoreError>) returns (r: Result<seq<Site>, StoreError>)
      requires Valid()
      modifies this`calls
      ensures Valid() && Performed(AllCall(r))
      ensures r.Err? <==> fault.Some?
      ensures r.Err? ==> r.error == fault.value
    {
      if fault.Some? {
        r := Err(fault.value);
      } else {
        var s := CollectRows(rows);
        r := Ok(s);
      }
      calls := calls + [AllCall(r)];
    }

    method Delete(id: SiteId, fault: Option<StoreError>) returns (r: Result<Option<Site>, StoreError>)
      requires Valid()
      modifies this`rows, this`calls
      ensures Valid() && Performed(DeleteCall(id, r)) && nextId == old(nextId)
      ensures r.Err? <==> fault.Some?
      ensures r.Err? ==> r.error == fault.value
    {
      if fault.Some? {
        r := Err(fault.value);
      } else {
        r := Ok(Lookup(rows, id));
        rows := rows - {id};
      }
      calls := calls + [DeleteCall(id, r)];
    }

    method Create(site: NewSite, fault: Option<StoreError>) returns (r: Result<Site, StoreError>)
      requires Valid()
      modifies this
      ensures Valid() && Performed(CreateCall(site, r))
      ensures r.Ok? <==> fault.None? && !old(Exhausted())
      ensures r.Err? ==> r.error == if fault.Some? then fault.value else SequenceExhausted
      // the id is the sequence's next value, and the sequence moves on
      ensures r.Ok? ==> r.value.id as int == old(nextId) && nextId == old(nextId) + 1
    {
      if fault.Some? {
        r := Err(fault.value);
      } else if Exhausted() {
        r := Err(SequenceExhausted);
      } else {
        var s := WithId(nextId as SiteId, site);
        rows := rows[s.id := s];
        nextId := nextId + 1;
        r := Ok(s);
      }
      calls := calls + [CreateCall(site, r)];
    }

    method Update(id: SiteId, site: NewSite, fault: Option<StoreError>) returns (r: Result<Option<Site>, StoreError>)
      requires Valid()
      modifies this`rows, this`calls
      ensures Valid() && Performed(UpdateCall(id, site, r)) && nextId == old(nextId)
      ensures r.Err? <==> fault.Some?
      ensures r.Err? ==> r.error == fault.value
    {
      if fault.Some? {
        r := Err(fault.value);
      } else if id in rows {
        var s := WithId(id, site);
        rows := rows[id := s];
        r := Ok(Some(s));
      } else {
        r := Ok(None);
      }
      calls := calls + [UpdateCall(id, site, r)];
    }
  }
}
