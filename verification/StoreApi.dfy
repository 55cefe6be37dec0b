/** The Store contract (store.go) as data: one operation, its result, and the
    page arithmetic every driver shares. */
module StoreApi {
  import opened Domain
  import opened Order
  import opened Decimal

  datatype Query = Query(tenant: Str, user: Str, cursor: Option<Int64>, limit: int, unreadOnly: bool)

  datatype StoreError = NotFound | Conflict | Internal

  /** A call. `minted` is the id the store would generate during that call. */
  datatype StoreOp =
    | Create(n: Notification, minted: Str)
    | Get(tenant: Str, user: Str, id: Str)
    | Update(tenant: Str, id: Str, status: Status, at: Int64)
    | Find(q: Query)
    | Upsert(d: Device, minted: Str)
    | List(tenant: Str, user: Str)

  datatype StoreResult =
    | Created(id: Str, isNew: bool)
    | Row(n: Notification)
    | Done
    | Page(items: seq<Notification>, next: Str, unread: nat)
    | Registered(d: Device)
    | Devices(ds: seq<Device>)
    | Failure(e: StoreError)

  /** Newest first; ties broken by the larger id. */
  predicate Newer(a: Notification, b: Notification) {
    a.createdAt > b.createdAt || (a.createdAt == b.createdAt && Less(b.id, a.id))
  }

  predicate ByType(a: Device, b: Device) {
    Less(a.deviceType, b.deviceType)
  }

  lemma NewerIsStrict(s: set<Notification>)
    requires forall a, b | a in s && b in s && a.id == b.id :: a == b
    ensures StrictOrderOn(Newer, s)
  {
    forall a | a in s ensures !Newer(a, a) { LessIrreflexive(a.id); }
    forall a, b | a in s && b in s && a != b ensures Newer(a, b) || Newer(b, a) { LessTotal(a.id, b.id); }
    forall a, b, c | a in s && b in s && c in s && Newer(a, b) && Newer(b, c) ensures Newer(a, c) {
      if a.createdAt == c.createdAt { LessTransitive(c.id, b.id, a.id); }
    }
  }

  lemma ByTypeIsStrict(s: set<Device>)
    requires forall a, b | a in s && b in s && a.deviceType == b.deviceType :: a == b
    ensures StrictOrderOn(ByType, s)
  {
    forall a | a in s ensures !ByType(a, a) { LessIrreflexive(a.deviceType); }
    forall a, b | a in s && b in s && a != b ensures ByType(a, b) || ByType(b, a) {
      LessTotal(a.deviceType, b.deviceType);
    }
    forall a, b, c | a in s && b in s && c in s && ByType(a, b) && ByType(b, c) ensures ByType(a, c) {
      LessTransitive(a.deviceType, b.deviceType, c.deviceType);
    }
  }

  predicate Owned(n: Notification, tenant: Str, user: Str) {
    n.tenant == tenant && n.user == user
  }

  /** The rows a query's page is cut from. */
  predicate Wanted(n: Notification, q: Query) {
    && Owned(n, q.tenant, q.user)
    && (q.unreadOnly ==> n.status != Read)
    && (q.cursor.Some? ==> n.createdAt < q.cursor.value)
  }

  /** The rows a query's unread count counts, whatever its filter and cursor. */
  predicate Unread(n: Notification, tenant: Str, user: Str) {
    Owned(n, tenant, user) && n.status != Read
  }

  /** At most the first `limit` elements. */
  function PageItems<T>(sorted: seq<T>, limit: nat): seq<T> {
    if |sorted| > limit then sorted[..limit] else sorted
  }

  function PageCursor(sorted: seq<Notification>, limit: nat): Str
    requires limit >= 1
  {
    if |sorted| > limit then FormatInt(sorted[limit - 1].createdAt) else []
  }
}
