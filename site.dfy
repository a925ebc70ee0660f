/** The model types of `src/repo/site.rs` and the shape of the `SiteRepository` trait:
    which arguments each of its five operations takes and which outcomes it can answer. */
module SiteModel {
  import opened Outcomes

  /** `SiteId` is Rust's `i32`. */
  newtype SiteId = x: int | -0x8000_0000 <= x <= 0x7FFF_FFFF

  const MaxSiteId: int := 0x7FFF_FFFF

  /** A persisted row: `lat` and `lng` are text and are never read as numbers. */
  datatype Site = Site(id: SiteId, address: string, lat: string, lng: string)

  /** What a caller supplies: the same three text fields and no `id` at all. */
  datatype NewSite = NewSite(address: string, lat: string, lng: string)

  /** The repository's error channel (`anyhow::Error`). `Backend` is any failure the store
      reports; `SequenceExhausted` is the store's id sequence having passed `MaxSiteId`. */
  datatype StoreError = Backend(detail: string) | SequenceExhausted

  /** The row a NewSite becomes under a given id. */
  function WithId(id: SiteId, site: NewSite): Site
  {
    Site(id, site.address, site.lat, site.lng)
  }

  /** The caller-supplied part of a Site. */
  function Fields(site: Site): NewSite
  {
    NewSite(site.address, site.lat, site.lng)
  }

  /** One call of the `SiteRepository` trait together with the answer it gave: exactly
      what a mock of the trait observes. `get`, `delete` and `update` answer a fallible
      optional Site, `all` a fallible sequence, `create` a fallible Site with no absent case. */
  datatype Exchange =
    | GetCall(id: SiteId, found: Result<Option<Site>, StoreError>)
    | AllCall(listed: Result<seq<Site>, StoreError>)
    | DeleteCall(id: SiteId, found: Result<Option<Site>, StoreError>)
    | CreateCall(site: NewSite, created: Result<Site, StoreError>)
    | UpdateCall(id: SiteId, site: NewSite, found: Result<Option<Site>, StoreError>)
  {
    /** The call answered `Ok`. */
    predicate Succeeded()
    {
      match this
      case GetCall(_, r) => r.Ok?
      case AllCall(r) => r.Ok?
      case DeleteCall(_, r) => r.Ok?
      case CreateCall(_, r) => r.Ok?
      case UpdateCall(_, _, r) => r.Ok?
    }
  }

  /** The test factory's defaults for a Site. */
  function SiteFactory(id: SiteId): Site
  {
    Site(id, "Address", "59.0", "58.0")
  }

  /** The test factory's defaults for a NewSite. */
  function NewSiteFactory(): NewSite
  {
    NewSite("Address", "59.0", "58.0")
  }
}
