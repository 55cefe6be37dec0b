/** store/memory: the reference every other driver is checked against. MemStep is
    one call on the four maps; MemoryStore is the code that performs it. */
module Memory {
  import opened Domain
  import opened Order
  import opened StoreApi
  import Decimal

  datatype MemState = MemState(
    notifs: map<Str, Notification>, notifByKey: map<Key, Str>,
    devices: map<Str, Device>, deviceByKey: map<Key, Str>)

  const EMPTY := MemState(map[], map[], map[], map[])

  ghost predicate NotifsFiled(notifs: map<Str, Notification>, byKey: map<Key, Str>) {
    && (forall id | id in notifs :: notifs[id].id == id)
    && (forall id | id in notifs :: NotifKey(notifs[id]) in byKey && byKey[NotifKey(notifs[id])] == id)
    && (forall k | k in byKey :: byKey[k] in notifs)
  }

  ghost predicate DevicesFiled(devices: map<Str, Device>, byKey: map<Key, Str>) {
    && (forall id | id in devices :: devices[id].id == id)
    && (forall id | id in devices :: DeviceKey(devices[id]) in byKey && byKey[DeviceKey(devices[id])] == id)
    && (forall k | k in byKey :: byKey[k] in devices)
  }

  /** What holds in every reachable state, reused ids or not: one row per triple,
      every row found under its own triple and its own id, no dangling index. */
  ghost predicate Filed(s: MemState) {
    NotifsFiled(s.notifs, s.notifByKey) && DevicesFiled(s.devices, s.deviceByKey)
  }

  ghost predicate NotifsConsistent(notifs: map<Str, Notification>, byKey: map<Key, Str>) {
    NotifsFiled(notifs, byKey) && forall k | k in byKey :: NotifKey(notifs[byKey[k]]) == k
  }

  ghost predicate DevicesConsistent(devices: map<Str, Device>, byKey: map<Key, Str>) {
    DevicesFiled(devices, byKey) && forall k | k in byKey :: DeviceKey(devices[byKey[k]]) == k
  }

  /** Row maps and key indexes are mutual inverses. */
  ghost predicate Consistent(s: MemState) {
    NotifsConsistent(s.notifs, s.notifByKey) && DevicesConsistent(s.devices, s.deviceByKey)
  }

  function NewId(given: Str, minted: Str): (r: Str)
    ensures given != [] ==> r == given
    ensures given == [] ==> r == minted
  {
    if given == [] then minted else given
  }

  /** The call does not insert a row under an id that some other row holds. */
  predicate NoIdClash(s: MemState, op: StoreOp) {
    match op
    case Create(n, minted) => NotifKey(n) in s.notifByKey || NewId(n.id, minted) !in s.notifs
    case Upsert(d, minted) => DeviceKey(d) in s.deviceByKey || NewId(d.id, minted) !in s.devices
    case _ => true
  }

  function MemCreate(s: MemState, n: Notification, minted: Str): (MemState, StoreResult) {
    var k := NotifKey(n);
    if k in s.notifByKey then (s, Created(s.notifByKey[k], false))
    else
      var id := NewId(n.id, minted);
      (s.(notifs := s.notifs[id := n.(id := id)], notifByKey := s.notifByKey[k := id]), Created(id, true))
  }

  function MemGet(s: MemState, tenant: Str, user: Str, id: Str): StoreResult {
    if id in s.notifs && Owned(s.notifs[id], tenant, user) then Row(s.notifs[id]) else Failure(NotFound)
  }

  function MemUpdate(s: MemState, tenant: Str, id: Str, status: Status, at: Int64): (MemState, StoreResult) {
    if id in s.notifs && s.notifs[id].tenant == tenant
    then (s.(notifs := s.notifs[id := Stamp(s.notifs[id], status, at)]), Done)
    else (s, Failure(NotFound))
  }

  ghost function MatchingAmong(s: MemState, q: Query, ids: set<Str>): set<Notification> {
    set id | id in ids && id in s.notifs && Wanted(s.notifs[id], q) :: s.notifs[id]
  }

  ghost function UnreadAmong(s: MemState, tenant: Str, user: Str, ids: set<Str>): set<Str> {
    set id | id in ids && id in s.notifs && Unread(s.notifs[id], tenant, user)
  }

  ghost function Matching(s: MemState, q: Query): (r: set<Notification>) {
    MatchingAmong(s, q, s.notifs.Keys)
  }

  lemma MatchingIsOrdered(s: MemState, q: Query)
    requires Filed(s)
    ensures StrictOrderOn(Newer, Matching(s, q))
  {
    NewerIsStrict(Matching(s, q));
  }

  ghost function MemFind(s: MemState, q: Query): StoreResult
    requires Filed(s)
  {
    MatchingIsOrdered(s, q);
    var sorted := Listing(Newer, Matching(s, q));
    var limit := ClampLimit(q.limit);
    Page(PageItems(sorted, limit), PageCursor(sorted, limit),
         |UnreadAmong(s, q.tenant, q.user, s.notifs.Keys)|)
  }

  function MemUpsert(s: MemState, d: Device, minted: Str): (MemState, StoreResult)
    requires DeviceKey(d) in s.deviceByKey ==> s.deviceByKey[DeviceKey(d)] in s.devices
  {
    var k := DeviceKey(d);
    if k in s.deviceByKey then
      var id := s.deviceByKey[k];
      var row := s.devices[id].(token := d.token, lastActive := d.lastActive);
      (s.(devices := s.devices[id := row]), Registered(row))
    else
      var id := NewId(d.id, minted);
      var row := d.(id := id);
      (s.(devices := s.devices[id := row], deviceByKey := s.deviceByKey[k := id]), Registered(row))
  }

  ghost function DevicesAmong(s: MemState, tenant: Str, user: Str, ids: set<Str>): set<Device> {
    set id | id in ids && id in s.devices && s.devices[id].tenant == tenant && s.devices[id].user == user
      :: s.devices[id]
  }

  lemma DevicesAreOrdered(s: MemState, tenant: Str, user: Str)
    requires Filed(s)
    ensures StrictOrderOn(ByType, DevicesAmong(s, tenant, user, s.devices.Keys))
  {
    var ds := DevicesAmong(s, tenant, user, s.devices.Keys);
    forall a, b | a in ds && b in ds && a.deviceType == b.deviceType ensures a == b {
      assert DeviceKey(a) == DeviceKey(b);
    }
    ByTypeIsStrict(ds);
  }

  ghost function MemList(s: MemState, tenant: Str, user: Str): StoreResult
    requires Filed(s)
  {
    DevicesAreOrdered(s, tenant, user);
    Devices(Listing(ByType, DevicesAmong(s, tenant, user, s.devices.Keys)))
  }

  ghost function MemStep(s: MemState, op: StoreOp): (MemState, StoreResult)
    requires Filed(s)
  {
    match op
    case Create(n, minted) => MemCreate(s, n, minted)
    case Get(tenant, user, id) => (s, MemGet(s, tenant, user, id))
    case Update(tenant, id, status, at) => MemUpdate(s, tenant, id, status, at)
    case Find(q) => (s, MemFind(s, q))
    case Upsert(d, minted) => MemUpsert(s, d, minted)
    case List(tenant, user) => (s, MemList(s, tenant, user))
  }

  lemma CreateKeepsConsistent(s: MemState, n: Notification, minted: Str)
    requires Consistent(s)
    ensures Consistent(MemCreate(s, n, minted).0) <==> NoIdClash(s, Create(n, minted))
  {
    var t := MemCreate(s, n, minted).0;
    var id := NewId(n.id, minted);
    if !NoIdClash(s, Create(n, minted)) {
      var k := NotifKey(s.notifs[id]);
      assert t.notifByKey[k] == id && NotifKey(t.notifs[id]) != k;
    }
  }

  lemma UpdateKeepsConsistent(s: MemState, tenant: Str, id: Str, status: Status, at: Int64)
    requires Consistent(s)
    ensures Consistent(MemUpdate(s, tenant, id, status, at).0)
  {}

  lemma InsertKeepsDevices(devices: map<Str, Device>, byKey: map<Key, Str>, row: Device)
    requires DevicesConsistent(devices, byKey) && DeviceKey(row) !in byKey
    ensures DevicesConsistent(devices[row.id := row], byKey[DeviceKey(row) := row.id]) <==> row.id !in devices
  {
    if row.id in devices {
      var k := DeviceKey(devices[row.id]);
      assert byKey[DeviceKey(row) := row.id][k] == row.id && k != DeviceKey(row);
    }
  }

  lemma UpsertKeepsConsistent(s: MemState, d: Device, minted: Str)
    requires Consistent(s)
    ensures Consistent(MemUpsert(s, d, minted).0) <==> NoIdClash(s, Upsert(d, minted))
  {
    var k := DeviceKey(d);
    if k in s.deviceByKey {
      var row := s.devices[s.deviceByKey[k]].(token := d.token, lastActive := d.lastActive);
    } else {
      InsertKeepsDevices(s.devices, s.deviceByKey, d.(id := NewId(d.id, minted)));
    }
  }

  /** A call keeps the indexes consistent exactly when it does not reuse an id:
      the code overwrites the old row but leaves its key pointing at the id. */
  lemma StepKeepsConsistent(s: MemState, op: StoreOp)
    requires Consistent(s)
    ensures Consistent(MemStep(s, op).0) <==> NoIdClash(s, op)
  {
    match op
    case Create(n, minted) => CreateKeepsConsistent(s, n, minted);
    case Upsert(d, minted) => UpsertKeepsConsistent(s, d, minted);
    case Update(tenant, id, status, at) => UpdateKeepsConsistent(s, tenant, id, status, at);
    case _ =>
  }

  lemma UpsertKeepsFiled(s: MemState, d: Device, minted: Str)
    requires Filed(s)
    ensures Filed(MemUpsert(s, d, minted).0)
  {}

  lemma CreateKeepsIndexes(s: MemState, n: Notification, minted: Str)
    requires Filed(s)
    ensures var t := MemCreate(s, n, minted).0;
      Filed(t) && (Consistent(s) ==> (NoIdClash(s, Create(n, minted)) <==> Consistent(t)))
  {
    if Consistent(s) { CreateKeepsConsistent(s, n, minted); }
  }

  lemma UpsertKeepsIndexes(s: MemState, d: Device, minted: Str)
    requires Filed(s)
    ensures var t := MemUpsert(s, d, minted).0;
      Filed(t) && (Consistent(s) ==> (NoIdClash(s, Upsert(d, minted)) <==> Consistent(t)))
  {
    UpsertKeepsFiled(s, d, minted);
    if Consistent(s) { UpsertKeepsConsistent(s, d, minted); }
  }

  /** Every call, an id reused or not, keeps at most one row per triple. */
  lemma StepKeepsFiled(s: MemState, op: StoreOp)
    requires Filed(s)
    ensures Filed(MemStep(s, op).0)
  {
    match op
    case Upsert(d, minted) => UpsertKeepsFiled(s, d, minted);
    case _ =>
  }

  /** Any finite run of calls: the final state and the answers. */
  ghost function MemRun(s: MemState, ops: seq<StoreOp>): (r: (MemState, seq<StoreResult>))
    requires Filed(s)
    ensures |r.1| == |ops| && Filed(r.0)
    decreases |ops|
  {
    if ops == [] then (s, [])
    else
      StepKeepsFiled(s, ops[0]);
      var (s1, r) := MemStep(s, ops[0]);
      var (s2, rs) := MemRun(s1, ops[1..]);
      (s2, [r] + rs)
  }

  /** The run is clash-free and every state of it is consistent. */
  ghost predicate Runnable(s: MemState, ops: seq<StoreOp>)
    decreases |ops|
  {
    Consistent(s) && (ops == [] ||
      (NoIdClash(s, ops[0]) && Runnable(MemStep(s, ops[0]).0, ops[1..])))
  }

  lemma RunOfOne(s: MemState, op: StoreOp)
    requires Consistent(s) && NoIdClash(s, op)
    ensures Runnable(s, [op]) && MemRun(s, [op]).0 == MemStep(s, op).0 && MemRun(s, [op]).1 == [MemStep(s, op).1]
  {
    StepKeepsConsistent(s, op);
    assert [op][1..] == [];
  }

  lemma RunCons(s: MemState, op: StoreOp, ops: seq<StoreOp>)
    requires Consistent(s) && NoIdClash(s, op) && Runnable(MemStep(s, op).0, ops)
    ensures Runnable(s, [op] + ops)
    ensures var (s1, r) := MemStep(s, op);
      MemRun(s, [op] + ops).0 == MemRun(s1, ops).0 && MemRun(s, [op] + ops).1 == [r] + MemRun(s1, ops).1
  {
    assert ([op] + ops)[1..] == ops;
  }

  /** Runs compose: one more call after a run is a run. */
  lemma {:induction false} RunSnoc(s: MemState, ops: seq<StoreOp>, op: StoreOp)
    requires Runnable(s, ops) && NoIdClash(MemRun(s, ops).0, op)
    ensures Consistent(MemRun(s, ops).0)
    ensures Runnable(s, ops + [op])
    ensures MemRun(s, ops + [op]).0 == MemStep(MemRun(s, ops).0, op).0
    ensures MemRun(s, ops + [op]).1 == MemRun(s, ops).1 + [MemStep(MemRun(s, ops).0, op).1]
    decreases |ops|
  {
    if ops == [] {
      RunOfOne(s, op);
      assert ops + [op] == [op];
    } else {
      var s1, rest := MemStep(s, ops[0]).0, ops[1..];
      RunCons(s, ops[0], rest);
      assert [ops[0]] + rest == ops;
      RunSnoc(s1, rest, op);
      RunCons(s, ops[0], rest + [op]);
      assert [ops[0]] + (rest + [op]) == ops + [op];
    }
  }

  /** No call of ops inserts under an id that is taken when the call is made. */
  ghost predicate NoClashAlong(s: MemState, ops: seq<StoreOp>)
    requires Filed(s)
    decreases |ops|
  {
    ops == [] ||
      (NoIdClash(s, ops[0]) && (StepKeepsFiled(s, ops[0]); NoClashAlong(MemStep(s, ops[0]).0, ops[1..])))
  }

  /** From a consistent state the absence of clashes is all a run needs to stay
      consistent. */
  lemma {:induction false} RunKeepsConsistent(s: MemState, ops: seq<StoreOp>)
    requires Consistent(s)
    ensures Runnable(s, ops) <==> NoClashAlong(s, ops)
    ensures NoClashAlong(s, ops) ==> Consistent(MemRun(s, ops).0)
    decreases |ops|
  {
    if ops != [] && NoIdClash(s, ops[0]) {
      StepKeepsConsistent(s, ops[0]);
      RunKeepsConsistent(MemStep(s, ops[0]).0, ops[1..]);
    }
  }

  ghost predicate NotifsKept(rows: map<Str, Notification>, byKey: map<Key, Str>,
                             rows': map<Str, Notification>, byKey': map<Key, Str>) {
    && (forall id | id in rows :: id in rows' && SameCreation(rows[id], rows'[id]))
    && (forall k | k in byKey :: k in byKey' && byKey'[k] == byKey[k])
  }

  ghost predicate DevicesKept(rows: map<Str, Device>, byKey: map<Key, Str>,
                              rows': map<Str, Device>, byKey': map<Key, Str>) {
    && (forall id | id in rows :: id in rows' && rows'[id].id == rows[id].id
          && DeviceKey(rows'[id]) == DeviceKey(rows[id]) && rows'[id].createdAt == rows[id].createdAt)
    && (forall k | k in byKey :: k in byKey' && byKey'[k] == byKey[k])
  }

  /** No row is lost, and none changes its identity, content or creation time; a
      key once indexed keeps its id. */
  ghost predicate RowsKept(s: MemState, t: MemState) {
    && NotifsKept(s.notifs, s.notifByKey, t.notifs, t.notifByKey)
    && DevicesKept(s.devices, s.deviceByKey, t.devices, t.deviceByKey)
  }

  lemma CreateKeepsRows(s: MemState, n: Notification, minted: Str)
    requires NoIdClash(s, Create(n, minted))
    ensures RowsKept(s, MemCreate(s, n, minted).0)
  {}

  lemma UpdateKeepsRows(s: MemState, tenant: Str, id: Str, status: Status, at: Int64)
    ensures RowsKept(s, MemUpdate(s, tenant, id, status, at).0)
  {}

  lemma UpsertKeepsRows(s: MemState, d: Device, minted: Str)
    requires Filed(s) && NoIdClash(s, Upsert(d, minted))
    ensures RowsKept(s, MemUpsert(s, d, minted).0)
  {}

  lemma StepKeepsRows(s: MemState, op: StoreOp)
    requires Filed(s) && NoIdClash(s, op)
    ensures RowsKept(s, MemStep(s, op).0)
  {
    match op
    case Create(n, minted) => CreateKeepsRows(s, n, minted);
    case Update(tenant, id, status, at) => UpdateKeepsRows(s, tenant, id, status, at);
    case Upsert(d, minted) => UpsertKeepsRows(s, d, minted);
    case _ =>
  }

  lemma {:induction false} RunKeepsRows(s: MemState, ops: seq<StoreOp>)
    requires Filed(s) && NoClashAlong(s, ops)
    ensures RowsKept(s, MemRun(s, ops).0)
    decreases |ops|
  {
    if ops != [] {
      StepKeepsRows(s, ops[0]);
      StepKeepsFiled(s, ops[0]);
      RunKeepsRows(MemStep(s, ops[0]).0, ops[1..]);
    }
  }

  /** The page contains wanted rows only, newest first, and misses none that are
      newer than its last row. */
  lemma PageIsNewestPrefix(s: MemState, q: Query)
    requires Filed(s)
    ensures var page := MemFind(s, q);
      && |page.items| <= ClampLimit(q.limit)
      && Ascending(Newer, page.items)
      && (forall n | n in page.items :: n.id in s.notifs && s.notifs[n.id] == n && Wanted(n, q))
      && (forall id | id in s.notifs && Wanted(s.notifs[id], q) && s.notifs[id] !in page.items ::
            page.next != [] && forall n | n in page.items :: Newer(n, s.notifs[id]))
      && (page.next == [] <==> |page.items| == |Matching(s, q)|)
  {
    MatchingIsOrdered(s, q);
    var sorted := Listing(Newer, Matching(s, q));
    var items := MemFind(s, q).items;
    forall n | n in items ensures n.id in s.notifs && s.notifs[n.id] == n && Wanted(n, q) {
      assert n in Elements(sorted);
    }
    forall id | id in s.notifs && Wanted(s.notifs[id], q) && s.notifs[id] !in items
      ensures MemFind(s, q).next != [] && forall n | n in items :: Newer(n, s.notifs[id])
    {
      assert s.notifs[id] in Elements(sorted);
      var j :| 0 <= j < |sorted| && sorted[j] == s.notifs[id];
      assert j >= |items|;
    }
  }

  /** The page told from the stored rows: every item is a stored row of the query's
      tenant and user, not read if only unread ones are asked for, and strictly older
      than the cursor; every stored row with these properties is an item or sorts after
      all of them, and then there is a cursor. Items come newest first, ties by larger
      id first; a page with a cursor is full, and the cursor is the last item's time. */
  lemma PageContents(s: MemState, q: Query)
    requires Filed(s)
    ensures var page := MemFind(s, q);
      && (forall n | n in page.items :: InScope(s, q, n))
      && (forall n | InScope(s, q, n) && n !in page.items ::
            page.next != [] && forall m | m in page.items :: ComesBefore(m, n))
      && (forall i, j | 0 <= i < j < |page.items| :: ComesBefore(page.items[i], page.items[j]))
      && |page.items| <= ClampLimit(q.limit)
      && (page.next != [] ==>
            && |page.items| == ClampLimit(q.limit)
            && Decimal.ParseInt(page.next) == Some(page.items[|page.items| - 1].createdAt))
      && (page.next != [] ==> exists n :: InScope(s, q, n) && n !in page.items)
  {
    PageIsNewestPrefix(s, q);
    if MemFind(s, q).next != [] { CursorOfPage(s, q); }
    forall m, n ensures Newer(m, n) <==> ComesBefore(m, n) {
      LessIff(n.id, m.id);
    }
  }

  lemma CursorOfPage(s: MemState, q: Query)
    requires Filed(s) && MemFind(s, q).next != []
    ensures var page := MemFind(s, q);
      && |page.items| == ClampLimit(q.limit)
      && Decimal.ParseInt(page.next) == Some(page.items[|page.items| - 1].createdAt)
      && exists n :: InScope(s, q, n) && n !in page.items
  {
    MatchingIsOrdered(s, q);
    var sorted, l := Listing(Newer, Matching(s, q)), ClampLimit(q.limit);
    Decimal.ParseOfFormat(sorted[l - 1].createdAt);
    BeyondThePage(sorted, Matching(s, q), l);
    assert InScope(s, q, sorted[l]);
  }

  lemma BeyondThePage(sorted: seq<Notification>, rows: set<Notification>, l: nat)
    requires Lists(Newer, sorted, rows) && StrictOrderOn(Newer, rows) && l < |sorted|
    ensures sorted[l] in rows && sorted[l] !in PageItems(sorted, l)
  {
    assert sorted[l] in Elements(sorted);
    forall i | 0 <= i < l ensures sorted[i] != sorted[l] {
      assert Newer(sorted[i], sorted[l]);
    }
  }

  /** A stored row that the query asks for. */
  predicate InScope(s: MemState, q: Query, n: Notification) {
    && n.id in s.notifs && s.notifs[n.id] == n
    && n.tenant == q.tenant && n.user == q.user
    && (q.unreadOnly ==> n.status != Read)
    && (q.cursor.Some? ==> n.createdAt < q.cursor.value)
  }

  ghost predicate ComesBefore(m: Notification, n: Notification) {
    m.createdAt > n.createdAt || (m.createdAt == n.createdAt && Smaller(n.id, m.id))
  }

  /** A read by id gives exactly the row that is stored for that tenant and user. */
  lemma GetIff(s: MemState, tenant: Str, user: Str, id: Str, n: Notification)
    ensures MemGet(s, tenant, user, id) == Row(n)
      <==> id in s.notifs && s.notifs[id] == n && n.tenant == tenant && n.user == user
    ensures !MemGet(s, tenant, user, id).Row? ==> MemGet(s, tenant, user, id) == Failure(NotFound)
  {}

  /** ListDevices is strictly ascending by device type and complete. */
  lemma ListIsAscending(s: MemState, tenant: Str, user: Str)
    requires Filed(s)
    ensures var ds := MemList(s, tenant, user).ds;
      && (forall i, j | 0 <= i < j < |ds| :: Smaller(ds[i].deviceType, ds[j].deviceType))
      && (forall d :: d in ds <==> d.id in s.devices && s.devices[d.id] == d && d.tenant == tenant && d.user == user)
  {
    DevicesAreOrdered(s, tenant, user);
    var ds := MemList(s, tenant, user).ds;
    forall i, j | 0 <= i < j < |ds| ensures Smaller(ds[i].deviceType, ds[j].deviceType) {
      assert ByType(ds[i], ds[j]);
      LessIff(ds[i].deviceType, ds[j].deviceType);
    }
    forall d ensures d in ds <==> d.id in s.devices && s.devices[d.id] == d && d.tenant == tenant && d.user == user {
      assert d in ds <==> d in Elements(ds);
    }
  }

  class MemoryStore {
    var notifs: map<Str, Notification>
    var notifByKey: map<Key, Str>
    var devices: map<Str, Device>
    var deviceByKey: map<Key, Str>

    ghost function State(): MemState
      reads this
    {
      MemState(notifs, notifByKey, devices, deviceByKey)
    }

    ghost predicate Valid()
      reads this
    {
      Filed(State())
    }

    constructor ()
      ensures Valid() && State() == EMPTY
    {
      notifs := map[];
      notifByKey := map[];
      devices := map[];
      deviceByKey := map[];
    }

    /** Returns the id the caller's struct ends up with, and whether it is new. */
    method CreateNotification(n: Notification, minted: Str) returns (id: Str, created: bool)
      modifies this`notifs, this`notifByKey
      ensures (State(), Created(id, created)) == MemCreate(old(State()), n, minted)
      ensures old(Valid()) ==> Valid()
      ensures Consistent(old(State())) ==> (NoIdClash(old(State()), Create(n, minted)) <==> Consistent(State()))
    {
      if Valid() { CreateKeepsIndexes(State(), n, minted); }
      var key := NotifKey(n);
      if key in notifByKey {
        return notifByKey[key], false;
      }
      id := n.id;
      if id == [] {
        id := minted;
      }
      notifs := notifs[id := n.(id := id)];
      notifByKey := notifByKey[key := id];
      created := true;
    }

    method GetNotification(tenant: Str, user: Str, id: Str) returns (r: StoreResult)
      ensures r == MemGet(State(), tenant, user, id)
    {
      if id !in notifs || notifs[id].tenant != tenant || notifs[id].user != user {
        return Failure(NotFound);
      }
      r := Row(notifs[id]);
    }

    method UpdateStatus(tenant: Str, id: Str, status: Status, at: Int64) returns (r: StoreResult)
      modifies this`notifs
      ensures (State(), r) == MemUpdate(old(State()), tenant, id, status, at)
      ensures old(Valid()) ==> Valid()
      ensures Consistent(old(State())) ==> Consistent(State())
    {
      if Consistent(State()) { UpdateKeepsConsistent(State(), tenant, id, status, at); }
      r := WriteStatus(tenant, id, status, at);
    }

    method WriteStatus(tenant: Str, id: Str, status: Status, at: Int64) returns (r: StoreResult)
      modifies this`notifs
      ensures (State(), r) == MemUpdate(old(State()), tenant, id, status, at)
    {
      if id !in notifs || notifs[id].tenant != tenant {
        return Failure(NotFound);
      }
      var n := notifs[id];
      n := n.(status := status);
      match status {
        case Delivered => n := n.(deliveredAt := at);
        case Acked => n := n.(ackAt := at);
        case Read => n := n.(readAt := at);
        case _ =>
      }
      notifs := notifs[id := n];
      r := Done;
    }

    /** The range over the row map, whose order is arbitrary. */
    method ScanNotifications(q: Query) returns (matched: seq<Notification>, unread: nat)
      requires Valid()
      ensures Elements(matched) == Matching(State(), q) && |matched| == |Matching(State(), q)|
      ensures unread == |UnreadAmong(State(), q.tenant, q.user, notifs.Keys)|
    {
      ghost var s := State();
      matched := [];
      unread := 0;
      var todo := notifs.Keys;
      while todo != {}
        invariant todo <= notifs.Keys
        invariant Scanned(s, q, notifs.Keys - todo, matched, unread)
        decreases |todo|
      {
        var id :| id in todo;
        var n := notifs[id];
        ScanStep(s, q, notifs.Keys - todo, id, matched, unread);
        assert notifs.Keys - todo + {id} == notifs.Keys - (todo - {id});
        todo := todo - {id};
        if n.tenant == q.tenant && n.user == q.user {
          if n.status != Read {
            unread := unread + 1;
          }
          if !(q.unreadOnly && n.status == Read) && !(q.cursor.Some? && n.createdAt >= q.cursor.value) {
            matched := matched + [n];
          }
        }
      }
      assert notifs.Keys - todo == notifs.Keys;
    }

    method QueryUserNotifications(q: Query) returns (items: seq<Notification>, next: Str, unread: nat)
      requires Valid()
      ensures Page(items, next, unread) == MemFind(State(), q)
    {
      var limit := ClampLimit(q.limit);
      items, unread := ScanNotifications(q);
      MatchingIsOrdered(State(), q);
      items := Sort(Newer, items, Matching(State(), q));
      next := [];
      if |items| > limit {
        items := items[..limit];
        next := Decimal.FormatInt(items[|items| - 1].createdAt);
      }
    }

    method UpsertDevice(d: Device, minted: Str) returns (r: StoreResult)
      requires Valid()
      modifies this`devices, this`deviceByKey
      ensures Valid() && (State(), r) == MemUpsert(old(State()), d, minted)
      ensures Consistent(old(State())) ==> (NoIdClash(old(State()), Upsert(d, minted)) <==> Consistent(State()))
    {
      UpsertKeepsIndexes(State(), d, minted);
      r := WriteDevice(d, minted);
    }

    /** .. and what it does to the maps, which needs the indexed row to be there. */
    method WriteDevice(d: Device, minted: Str) returns (r: StoreResult)
      requires DeviceKey(d) in deviceByKey ==> deviceByKey[DeviceKey(d)] in devices
      modifies this`devices, this`deviceByKey
      ensures (State(), r) == MemUpsert(old(State()), d, minted)
    {
      var key := DeviceKey(d);
      if key in deviceByKey {
        var id := deviceByKey[key];
        devices := devices[id := devices[id].(token := d.token)];
        devices := devices[id := devices[id].(lastActive := d.lastActive)];
        assert devices == old(devices)[id := devices[id]];
        return Registered(devices[id]);
      }
      var id := d.id;
      if id == [] {
        id := minted;
      }
      devices := devices[id := d.(id := id)];
      deviceByKey := deviceByKey[key := id];
      r := Registered(devices[id]);
    }

    method ScanDevices(tenant: Str, user: Str) returns (out: seq<Device>)
      requires Valid()
      ensures Elements(out) == DevicesAmong(State(), tenant, user, devices.Keys)
      ensures |out| == |DevicesAmong(State(), tenant, user, devices.Keys)|
    {
      ghost var s := State();
      out := [];
      var todo := devices.Keys;
      while todo != {}
        invariant todo <= devices.Keys
        invariant DevicesScanned(s, tenant, user, devices.Keys - todo, out)
        decreases |todo|
      {
        var id :| id in todo;
        var d := devices[id];
        DeviceScanStep(s, tenant, user, devices.Keys - todo, id, out);
        assert devices.Keys - todo + {id} == devices.Keys - (todo - {id});
        todo := todo - {id};
        if d.tenant == tenant && d.user == user {
          out := out + [d];
        }
      }
      assert devices.Keys - todo == devices.Keys;
    }

    method ListDevices(tenant: Str, user: Str) returns (out: seq<Device>)
      requires Valid()
      ensures Devices(out) == MemList(State(), tenant, user)
    {
      out := ScanDevices(tenant, user);
      DevicesAreOrdered(State(), tenant, user);
      out := Sort(ByType, out, DevicesAmong(State(), tenant, user, devices.Keys));
    }
  }

  /** What a scan has gathered after visiting the rows named by ids. */
  ghost predicate Scanned(s: MemState, q: Query, ids: set<Str>, matched: seq<Notification>, unread: nat) {
    && Elements(matched) == MatchingAmong(s, q, ids)
    && |matched| == |MatchingAmong(s, q, ids)|
    && unread == |UnreadAmong(s, q.tenant, q.user, ids)|
  }

  lemma ScanStep(s: MemState, q: Query, ids: set<Str>, id: Str, matched: seq<Notification>, unread: nat)
    requires Filed(s) && id in s.notifs && id !in ids && Scanned(s, q, ids, matched, unread)
    ensures var n := s.notifs[id];
      Scanned(s, q, ids + {id},
        if Wanted(n, q) then matched + [n] else matched,
        if Unread(n, q.tenant, q.user) then unread + 1 else unread)
  {
    var n := s.notifs[id];
    MatchStep(s, q, ids, id);
    UnreadStep(s, q, ids, id);
    ElementsSnoc(matched, n);
  }

  lemma MatchStep(s: MemState, q: Query, ids: set<Str>, id: Str)
    requires Filed(s) && id in s.notifs && id !in ids
    ensures var n := s.notifs[id];
      && MatchingAmong(s, q, ids + {id}) == MatchingAmong(s, q, ids) + (if Wanted(n, q) then {n} else {})
      && n !in MatchingAmong(s, q, ids)
  {
    var n := s.notifs[id];
    forall m | m in MatchingAmong(s, q, ids) ensures m.id in ids {}
    assert n.id == id;
  }

  lemma UnreadStep(s: MemState, q: Query, ids: set<Str>, id: Str)
    requires id in s.notifs && id !in ids
    ensures UnreadAmong(s, q.tenant, q.user, ids + {id})
      == UnreadAmong(s, q.tenant, q.user, ids) + (if Unread(s.notifs[id], q.tenant, q.user) then {id} else {})
  {}

  ghost predicate DevicesScanned(s: MemState, tenant: Str, user: Str, ids: set<Str>, out: seq<Device>) {
    && Elements(out) == DevicesAmong(s, tenant, user, ids)
    && |out| == |DevicesAmong(s, tenant, user, ids)|
  }

  lemma DeviceScanStep(s: MemState, tenant: Str, user: Str, ids: set<Str>, id: Str, out: seq<Device>)
    requires Filed(s) && id in s.devices && id !in ids && DevicesScanned(s, tenant, user, ids, out)
    ensures var d := s.devices[id];
      DevicesScanned(s, tenant, user, ids + {id}, if d.tenant == tenant && d.user == user then out + [d] else out)
  {
    var d := s.devices[id];
    forall m | m in DevicesAmong(s, tenant, user, ids) ensures m.id in ids {}
    assert d.id == id && d !in DevicesAmong(s, tenant, user, ids);
    assert DevicesAmong(s, tenant, user, ids + {id})
      == DevicesAmong(s, tenant, user, ids) + (if d.tenant == tenant && d.user == user then {d} else {});
    ElementsSnoc(out, d);
  }
}
