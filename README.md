# Site records service: a Dafny model of its layered contract

The service keeps "site" records (`id`, `address`, `lat`, `lng`) in a Postgres table. It is
built in layers: HTTP handlers, then a service, then a repository trait, then a Postgres
implementation that runs one SQL statement per operation. Almost no computation happens in
these layers. What they do have is a contract that runs through all of them:

- absence (`Ok(None)`) and failure (`Err`) are separate outcomes all the way up;
- the service forwards values untouched and turns every repository error into a 500;
- the handlers turn absence into a 404 with an empty body and a value into a 200 with a JSON body.

This project models that contract and proves it. It is a contract model of a thin wrapper;
there is no algorithm at its centre.

## Files and modules

| file | module | models |
|---|---|---|
| `outcomes.dfy` | `Outcomes` | Rust's `Option` and `Result` |
| `site.dfy` | `SiteModel` | `src/repo/site.rs`: `SiteId` (an `i32`), `Site`, `NewSite`, the test factory defaults, and `Exchange`. An `Exchange` is one call of the `SiteRepository` trait with its arguments and its answer. |
| `postgres.dfy` | `Postgres` | `src/infra/postgres.rs`, in two parts. First, what each SQL statement may answer (`Allowed`) and the table it leaves (`After`), as values; the table is `map<SiteId, Site>`. Second, the class `PostgresDatabaseRepository`, which runs the statements in place and is proved against the value model. |
| `postgres_properties.dfy` | `PostgresProperties` | What the statements promise, as lemmas, and the file's eight tests replayed on the class. |
| `http.dfy` | `Http` | The parts of actix-web the handlers rely on: responses, `Error` as the response it renders, `web::scope`, and route lookup. |
| `service.dfy` | `Service` | `src/service/mod.rs`: `map_err(ErrorInternalServerError)` and `SiteServiceImpl`. |
| `endpoint.dfy` | `Endpoint` | `src/endpoint/mod.rs`: `NotFoundError`, and `index` with its decimal formatting. |
| `site_endpoint.dfy` | `SiteEndpoint` | `src/endpoint/site.rs`: the `get_service` route table and the four handlers. |
| `endpoint_routes.dfy` | `EndpointRoutes` | `configure` from `src/endpoint/mod.rs`. It is in a module of its own because Dafny modules cannot import each other in a cycle, and `configure` needs the site routes, which need `NotFoundError`. |

How the pieces are modelled:

- **Store failure is an input.** The code does not decide when the store fails. Every repository operation therefore takes a `fault: Option<StoreError>` argument standing for the store's decision. `None` means the statement runs; `Some(e)` means it answers `Err(e)`.
- **Ids come from a sequence.** The class draws ids the way a SERIAL column does: `1, 2, 3, …`. Once the sequence is past `i32::MAX`, `create` fails with `SequenceExhausted`. The value model promises less: it only requires that the id is not already a key in the table.
- **Calls are logged.** Every repository method appends its `Exchange` to a ghost log, `calls`. This is what a mock of the trait would observe. Each service method is proved to add exactly one entry to this log, holding the arguments it was given and the answer it passed on.
- **Handlers are pure.** Each handler is a function from the service's answer to the handler's `Result<impl Responder>`. `Respond` turns that into the response that is sent.

Two behaviours of the code worth noting, which the model follows:

- `create_site` answers 200, not 201.
- An internal error's response is actix's `InternalError` response. That response renders its cause as the body (modelled as `CauseText(cause)`), so the body is not empty.

## Model

| member | source | states |
|---|---|---|
| Postgres.CollectRows | src/infra/postgres.rs:21-26 | Collecting the table's rows gives a listing: each row of the table exactly once, in no promised order. |
| Postgres.PostgresDatabaseRepository.constructor | src/infra/postgres.rs:99-120 | A freshly migrated repository has an empty table, a fresh id sequence and no calls. |
| Postgres.PostgresDatabaseRepository.Get | src/infra/postgres.rs:14-19 | Makes exactly one logged `get` call. The answer is the row under the id or none, and is an error only when the store fails. The table is unchanged. |
| Postgres.PostgresDatabaseRepository.All | src/infra/postgres.rs:21-26 | Makes one logged `all` call. The answer is a listing of the table (each row once, any order), or the store's error. The table is unchanged. |
| Postgres.PostgresDatabaseRepository.Delete | src/infra/postgres.rs:28-33 | Answers the row as it stood before, or none. A present row is removed and nothing else changes. An absent id leaves the table as it was. |
| Postgres.PostgresDatabaseRepository.Create | src/infra/postgres.rs:35-49 | Succeeds exactly when the store does not fail and ids remain. The Site it answers has the caller's three fields and the sequence's next id, which is not yet a key. The table gains exactly that row. |
| Postgres.PostgresDatabaseRepository.Update | src/infra/postgres.rs:51-66 | For a present id, replaces all three fields, keeps the id and answers the new row. For an absent id, answers none and changes nothing. It errs only when the store fails. |
| PostgresProperties.ListingLength | src/infra/postgres.rs:21-26 | Any answer of `all` has exactly as many Sites as the table has rows. |
| PostgresProperties.ListingMembers | src/infra/postgres.rs:21-26 | An id occurs in an answer of `all` exactly when it is a key of the table. |
| PostgresProperties.AfterWellKeyed | src/infra/postgres.rs:35-66 | Every successful statement keeps each row under its own id. |
| PostgresProperties.CreateAddsRow | src/infra/postgres.rs:35-49 | `create` returns the input's address, lat and lng under an id that was not a key. It adds exactly that Site under its id and leaves every other row as it was. |
| PostgresProperties.GetAnswer | src/infra/postgres.rs:14-19 | `get` finds a Site exactly when the id is a key. The Site it finds is that row and carries the queried id. |
| PostgresProperties.DeleteAnswer | src/infra/postgres.rs:28-33 | Deleting a present id answers the row as it was, removes that key and leaves one row fewer. Deleting an absent id answers none and leaves the table unchanged. |
| PostgresProperties.DeleteTwice | src/infra/postgres.rs:28-33 | A second delete of the same id answers none, not an error. |
| PostgresProperties.UpdateAnswer | src/infra/postgres.rs:51-66 | Updating a present id answers the row with the new fields and the same id. The keys, the count and every other row are unchanged. Updating an absent id answers none and changes nothing. |
| PostgresProperties.FinalWellKeyed | src/infra/postgres.rs:35-66 | Any run of successful statements keeps each row under its own id. |
| PostgresProperties.CreatesAddRows | src/infra/postgres.rs:35-49 | Each of n successful creates adds one row. |
| PostgresProperties.CountAfterCreates | src/infra/postgres.rs:136-146 | After n successful creates on an empty table, `all` answers exactly n Sites. |
| PostgresProperties.CreateUpdateRead | src/infra/postgres.rs:14-66 | After create and then update, `get` and `all` show the new fields under the original id. |
| PostgresProperties.CreateDeleteRead | src/infra/postgres.rs:14-33 | After create and then delete, `get` answers none and `all` leaves the id out. |
| PostgresProperties.TestCreateSites | src/infra/postgres.rs:122-134 | A created factory Site has the factory's address, lat and lng. |
| PostgresProperties.TestGetSites | src/infra/postgres.rs:136-146 | Three creates, then `all` answers three Sites. |
| PostgresProperties.TestGetSite | src/infra/postgres.rs:149-159 | `get` of a created id answers that Site: same id, address, lat and lng. |
| PostgresProperties.TestGetNonExistingSite | src/infra/postgres.rs:161-167 | `get(0)` on an empty table answers `Ok(None)`. |
| PostgresProperties.TestDeleteSite | src/infra/postgres.rs:169-179 | Deleting the created Site answers exactly that Site, and `all` then answers none. |
| PostgresProperties.TestDeleteNonExistingSiteReturnsNone | src/infra/postgres.rs:181-191 | Deleting `site.id + 1` answers `Ok(None)`, and `all` still answers one Site. |
| PostgresProperties.TestUpdateSite | src/infra/postgres.rs:193-215 | Updating with "New Street" answers a Site with that address and the old lat and lng. |
| PostgresProperties.TestUpdateNonExistingSiteFails | src/infra/postgres.rs:217-224 | `update(0, …)` on an empty table answers `Ok(None)`, not an error. |
| Service.MapInternal | src/service/mod.rs:26-52 | A value, absent Site included, passes through unchanged. Only an error changes: it becomes a 500 whose body carries the repository's error. |
| Service.SiteServiceImpl.constructor | src/service/mod.rs:17-19 | The service holds the repository it is given. |
| Service.SiteServiceImpl.GetSites | src/service/mod.rs:26-31 | Exactly one repository call, `all`. Returns that call's answer, with an error mapped to a 500. |
| Service.SiteServiceImpl.CreateSite | src/service/mod.rs:33-38 | Exactly one call, `create`, with the NewSite unchanged. Returns its Site unchanged, or a 500 carrying the error. |
| Service.SiteServiceImpl.UpdateSite | src/service/mod.rs:40-45 | Exactly one call, `update`, with `(site_id, site)` unchanged. `Ok(None)` and `Ok(Some(s))` are returned as they are; an error becomes a 500. |
| Service.SiteServiceImpl.DeleteSite | src/service/mod.rs:47-52 | Exactly one call, `delete`, with `site_id` unchanged. Both `Some` and `None` are kept; an error becomes a 500. |
| Service.TestGetSites | src/service/mod.rs:61-75 | A stub repository answers two Sites with ids 0 and 1. The service answers two Sites with ids 0 and 1, in that order. |
| Service.ScenarioCreateThenList | src/service/mod.rs:26-38 | Through the service, a created Site carries the caller's fields, and `get_sites` then answers exactly that Site. |
| Service.ScenarioDeleteTwice | src/service/mod.rs:47-52 | Through the service, deleting a created Site twice answers exactly that Site (same id and fields) and then `Ok(None)`. |
| Service.ScenarioCreateFails | src/service/mod.rs:33-38 | When the store fails `create`, the service answers a 500 carrying the store's error. |
| Http.ResolveScoped | src/endpoint/mod.rs:13 | Inside a scope, a request reaches what its remainder reaches without the scope, and reaches nothing without the prefix. |
| Endpoint.NotFoundRendering | src/endpoint/mod.rs:36-59 | `NotFoundError` has status 404, its response is a 404 with an empty body, `?` keeps that response, and `Display` writes nothing. |
| Endpoint.Decimal | src/endpoint/mod.rs:19 | `{}` of an id is a non-empty run of decimal digits with no leading zero. |
| Endpoint.DecimalRoundTrip | src/endpoint/mod.rs:19 | Reading the digits back gives the id. |
| Endpoint.GreetingRoundTrip | src/endpoint/mod.rs:16-20 | `Hello {name}! id:{id}` determines its name and its id: parsing the greeting gives both back. |
| Endpoint.IndexResponds | src/endpoint/mod.rs:16-20 | The greeting is answered as text with status 200. |
| EndpointRoutes.TestIndexOk | src/endpoint/mod.rs:27-33 | On an application holding only `index`, `GET /1/test/` reaches `index`, which answers "Hello test! id:1" with status 200. |
| SiteEndpoint.RouteTable | src/endpoint/site.rs:7-16 | `get_service` has exactly four routes: GET and POST on `/sites`, PUT and DELETE on `/sites/{site_id}`. |
| SiteEndpoint.RoutesResolve | src/endpoint/site.rs:7-16 | A request reaches a handler exactly when it is GET or POST on `/sites`, or PUT or DELETE on `/sites/{x}` with a non-empty `x` (a placeholder matches `[^/]+`). Each such request reaches its own handler; nothing else reaches any handler. |
| SiteEndpoint.GetSitesResponse | src/endpoint/site.rs:18-22 | `Ok(list)` answers 200 with the list as body, an empty list included. An error's response passes through unchanged. |
| SiteEndpoint.CreateSiteResponse | src/endpoint/site.rs:24-31 | A created Site answers 200 (not 201) with the Site as body. An error's response passes through unchanged. |
| SiteEndpoint.FoundOrNotFoundResponse | src/endpoint/site.rs:33-54 | For update and delete: `Ok(Some(s))` answers 200 with `s` as body, and `Ok(None)` answers 404 with an empty body. An error's response passes through unchanged. |
| SiteEndpoint.OptionalAnswerStatus | src/endpoint/site.rs:33-54 | From repository answer to response, update and delete answer 500 exactly on failure, 404 exactly on absence and 200 exactly on a Site. |
| SiteEndpoint.ValueAnswerStatus | src/endpoint/site.rs:18-31 | From repository answer to response, `get_sites` and `create_site` answer 500 exactly on failure and 200 otherwise. |
| SiteEndpoint.TestHandlers | src/endpoint/site.rs:64-114 | GET `/sites` with an empty list is a 200. PUT and DELETE on `/sites/3` with an absent Site are each a 404. |
| EndpointRoutes.ConfiguredRoutes | src/endpoint/mod.rs:7-14 | The application's routes are the index at the root, and the four site routes under `/api/v1`. |
| EndpointRoutes.ApiScopeText | src/endpoint/mod.rs:13 | The scope's path is `/api/v1`. |
| EndpointRoutes.SitePathsText | src/endpoint/site.rs:8-12 | The full paths are `/api/v1/sites` and `/api/v1/sites/{site_id}`. |
| EndpointRoutes.IndexPathText | src/endpoint/mod.rs:16 | The index's path is `/{id}/{name}/`. |
| EndpointRoutes.PrefixRequired | src/endpoint/mod.rs:13 | For every method, `/api/v1/sites` and `/api/v1/sites/{id}` reach what `get_service` gives `/sites` and `/sites/{id}` (so GET/POST and PUT/DELETE for a non-empty id, and nothing else), and `/sites/{id}` without the prefix reaches nothing. |

## Left out

- Postgres.PostgresDatabaseRepository.Create: claims nothing about the table or the id sequence after a failed insert. The effects of a failed statement are a Postgres matter and are not visible in the code.
- Postgres.PostgresDatabaseRepository.Update: claims nothing about the table after a failed update, for the same reason.
- Postgres.PostgresDatabaseRepository.Delete: claims nothing about the table after a failed delete, for the same reason.
- Postgres.PostgresDatabaseRepository.All: the class returns the rows in one order, set iteration order. The contract promises only "each row once", because the statement has no ORDER BY.
- The id sequence starting at 1 is a SERIAL assumption. The migrations are not part of this model, and the general lemmas rely only on freshness.
- The `SiteService` and `SiteRepository` traits: the service is modelled over the one repository class, since Dafny traits are not used. The mockall tests become lemmas on the answer a mock would give.
- SQL text, sqlx, `PgPool`, `Arc`, `create_pool`/`connect`, and the testcontainers setup: network and database I/O.
- async/await, concurrent requests racing at the store, cancellation and timeouts.
- actix-web internals. Not modelled: JSON and path extraction, and the 404 actix gives when `web::Path<SiteId>` does not parse; serde encoding; how an internal error renders its cause as text (only the cause is kept).
- `index`'s `u32` path extraction: the model takes the id already parsed.
- `src/main.rs`: arguments, logger, CORS list, server bind and middleware. This is I/O plumbing.
  One consequence is outside the model: `src/main.rs:61` wraps the application in `NormalizePath::trim()`, which strips trailing slashes before routing. In the running server `GET /1/test/` therefore never reaches `index`, whose pattern `/{id}/{name}/` keeps its trailing slash; only the unit test, which has no middleware, reaches it. The index rows above describe the routes as `configure` declares them.
- `src/infrastructure/postgres.rs`, `src/repo/database.rs` and `src/endpoints/mod.rs`: the modules `main.rs` does not declare, and the body-less `alive` trait.
