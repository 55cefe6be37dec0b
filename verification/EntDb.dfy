/** store/entdb: nodes on a server that enforces a unique composite key. Each
    driver call is a sequence of server requests (commit, lookup by key, field
    update, read); here they run without interference, in EntDbRace and
    DeviceRace they interleave. */
module EntDb {
  import opened Domain
  import opened Order
  import opened StoreApi
  import opened Memory
  import opened CompositeKey

  /** The UserNotification payload; the node id is not part of it. */
  datatype NotifNode = NotifNode(
    notificationId: Str, tenant: Str, user: Str,
    subjectRef: Str, subjectType: Str, title: Str, body: Str,
    channel: Channel, status: Status,
    createdAt: Int64, deliveredAt: Int64, ackAt: Int64, readAt: Int64,
    compositeKey: Str)

  datatype DeviceNode = DeviceNode(
    tenant: Str, user: Str, deviceType: Str, token: Str,
    createdAt: Int64, lastActive: Int64, compositeKey: Str)

  datatype Server = Server(notifs: map<Str, NotifNode>, devices: map<Str, DeviceNode>)

  function NotifToProto(n: Notification): NotifNode {
    NotifNode(n.notificationId, n.tenant, n.user, n.subjectRef, n.subjectType, n.title, n.body,
      n.channel, n.status, n.createdAt, n.deliveredAt, n.ackAt, n.readAt, Encode(NotifKey(n)))
  }

  function NotifFromProto(id: Str, p: NotifNode): Notification {
    Notification(id, p.notificationId, p.tenant, p.user, p.subjectRef, p.subjectType, p.title, p.body,
      p.channel, p.status, p.createdAt, p.deliveredAt, p.ackAt, p.readAt)
  }

  function DeviceToProto(d: Device): DeviceNode {
    DeviceNode(d.tenant, d.user, d.deviceType, d.token, d.createdAt, d.lastActive, Encode(DeviceKey(d)))
  }

  function DeviceFromProto(id: Str, p: DeviceNode): Device {
    Device(id, p.tenant, p.user, p.deviceType, p.token, p.createdAt, p.lastActive)
  }

  /** The payload loses nothing but the caller's own id. */
  lemma PayloadRoundTrip(id: Str, n: Notification, d: Device)
    ensures NotifFromProto(id, NotifToProto(n)) == n.(id := id)
    ensures DeviceFromProto(id, DeviceToProto(d)) == d.(id := id)
  {}

  /** Create + Commit: None is the typed unique-constraint error. */
  function CommitNotif(nodes: map<Str, NotifNode>, msg: NotifNode, minted: Str): (map<Str, NotifNode>, Option<Str>) {
    if exists id | id in nodes :: nodes[id].compositeKey == msg.compositeKey then (nodes, None)
    else (nodes[minted := msg], Some(minted))
  }

  function CommitDevice(nodes: map<Str, DeviceNode>, msg: DeviceNode, minted: Str)
    : (map<Str, DeviceNode>, Option<Str>)
  {
    if exists id | id in nodes :: nodes[id].compositeKey == msg.compositeKey then (nodes, None)
    else (nodes[minted := msg], Some(minted))
  }

  /** GetByKey: the id of a node holding the key. */
  ghost function FindNotif(nodes: map<Str, NotifNode>, key: Str): (r: Option<Str>)
    ensures r.Some? ==> r.value in nodes && nodes[r.value].compositeKey == key
    ensures r.None? ==> forall id | id in nodes :: nodes[id].compositeKey != key
  {
    if exists id :: id in nodes && nodes[id].compositeKey == key then
      var id :| id in nodes && nodes[id].compositeKey == key;
      Some(id)
    else None
  }

  ghost function FindDevice(nodes: map<Str, DeviceNode>, key: Str): (r: Option<Str>)
    ensures r.Some? ==> r.value in nodes && nodes[r.value].compositeKey == key
    ensures r.None? ==> forall id | id in nodes :: nodes[id].compositeKey != key
  {
    if exists id :: id in nodes && nodes[id].compositeKey == key then
      var id :| id in nodes && nodes[id].compositeKey == key;
      Some(id)
    else None
  }

  datatype Field = FStatus | FDeliveredAt | FAckAt | FReadAt

  /** UpdateFields writes the named fields of the patch and no others. */
  function PatchNotif(node: NotifNode, patch: NotifNode, fields: set<Field>): NotifNode {
    node.(status := if FStatus in fields then patch.status else node.status,
          deliveredAt := if FDeliveredAt in fields then patch.deliveredAt else node.deliveredAt,
          ackAt := if FAckAt in fields then patch.ackAt else node.ackAt,
          readAt := if FReadAt in fields then patch.readAt else node.readAt)
  }

  const EMPTY_NODE := NotifNode([], [], [], [], [], [], [], OtherChannel([]), Unset, 0, 0, 0, 0, [])

  /** The patch and field list UpdateStatus builds. */
  function StatusPatch(status: Status, at: Int64): (NotifNode, set<Field>) {
    var patch := EMPTY_NODE.(status := status);
    match status
    case Delivered => (patch.(deliveredAt := at), {FStatus, FDeliveredAt})
    case Acked => (patch.(ackAt := at), {FStatus, FAckAt})
    case Read => (patch.(readAt := at), {FStatus, FReadAt})
    case _ => (patch, {FStatus})
  }

  function PatchStatus(node: NotifNode, status: Status, at: Int64): NotifNode {
    PatchNotif(node, StatusPatch(status, at).0, StatusPatch(status, at).1)
  }

  /** The field mask has the effect of the reference's in-place stamp. */
  lemma PatchIsStamp(n: Notification, status: Status, at: Int64)
    ensures PatchStatus(NotifToProto(n), status, at) == NotifToProto(Stamp(n, status, at))
  {}

  function RotateNode(node: DeviceNode, d: Device): DeviceNode {
    node.(token := d.token, lastActive := d.lastActive)
  }

  // ---- The driver's calls, run alone ----

  ghost function EntCreate(e: Server, n: Notification, minted: Str): (Server, StoreResult) {
    var (nodes, committed) := CommitNotif(e.notifs, NotifToProto(n), minted);
    if committed.Some? then (e.(notifs := nodes), Created(committed.value, true))
    else
      match FindNotif(e.notifs, Encode(NotifKey(n)))
      case Some(id) => (e, Created(id, false))
      case None => (e, Failure(Internal))
  }

  ghost function EntGet(e: Server, tenant: Str, user: Str, id: Str): StoreResult {
    if id in e.notifs && e.notifs[id].tenant == tenant && e.notifs[id].user == user
    then Row(NotifFromProto(id, e.notifs[id]))
    else Failure(NotFound)
  }

  ghost function EntUpdate(e: Server, tenant: Str, id: Str, status: Status, at: Int64): (Server, StoreResult) {
    if id in e.notifs && e.notifs[id].tenant == tenant
    then (e.(notifs := e.notifs[id := PatchStatus(e.notifs[id], status, at)]), Done)
    else (e, Failure(NotFound))
  }

  ghost function WantedAmong(e: Server, q: Query, ids: set<Str>): set<Notification> {
    set id | id in ids && id in e.notifs && Wanted(NotifFromProto(id, e.notifs[id]), q)
      :: NotifFromProto(id, e.notifs[id])
  }

  ghost function UnreadNodes(e: Server, tenant: Str, user: Str, ids: set<Str>): set<Str> {
    set id | id in ids && id in e.notifs && Unread(NotifFromProto(id, e.notifs[id]), tenant, user)
  }

  lemma WantedIsOrdered(e: Server, q: Query)
    ensures StrictOrderOn(Newer, WantedAmong(e, q, e.notifs.Keys))
  {
    NewerIsStrict(WantedAmong(e, q, e.notifs.Keys));
  }

  ghost function EntFind(e: Server, q: Query): StoreResult {
    WantedIsOrdered(e, q);
    var sorted := Listing(Newer, WantedAmong(e, q, e.notifs.Keys));
    var limit := ClampLimit(q.limit);
    Page(PageItems(sorted, limit), PageCursor(sorted, limit),
         |UnreadNodes(e, q.tenant, q.user, e.notifs.Keys)|)
  }

  ghost function ReadDeviceBack(e: Server, id: Str, fallback: Device): StoreResult {
    if id in e.devices then Registered(DeviceFromProto(id, e.devices[id]))
    else Registered(fallback.(id := id))
  }

  ghost function EntUpsert(e: Server, d: Device, minted: Str): (Server, StoreResult) {
    var (nodes, committed) := CommitDevice(e.devices, DeviceToProto(d), minted);
    if committed.Some? then
      var e1 := e.(devices := nodes);
      (e1, ReadDeviceBack(e1, committed.value, d))
    else
      match FindDevice(e.devices, Encode(DeviceKey(d)))
      case None => (e, Failure(Internal))
      case Some(id) =>
        var e1 := e.(devices := e.devices[id := RotateNode(e.devices[id], d)]);
        (e1, ReadDeviceBack(e1, id, d))
  }

  ghost function DevicesIn(e: Server, tenant: Str, user: Str, ids: set<Str>): set<Device> {
    set id | id in ids && id in e.devices && e.devices[id].tenant == tenant && e.devices[id].user == user
      :: DeviceFromProto(id, e.devices[id])
  }

  /** The server's own guarantee: one node per composite key, and the key is the
      encoding of the payload's triple. */
  ghost predicate ServerValid(e: Server) {
    NotifNodesValid(e.notifs) && DeviceNodesValid(e.devices)
  }

  ghost predicate NotifNodesValid(nodes: map<Str, NotifNode>) {
    && (forall id | id in nodes :: nodes[id].compositeKey == Encode(NotifKey(NotifFromProto(id, nodes[id]))))
    && (forall a, b | a in nodes && b in nodes && nodes[a].compositeKey == nodes[b].compositeKey :: a == b)
  }

  ghost predicate DeviceNodesValid(nodes: map<Str, DeviceNode>) {
    && (forall id | id in nodes :: nodes[id].compositeKey == Encode(DeviceKey(DeviceFromProto(id, nodes[id]))))
    && (forall a, b | a in nodes && b in nodes && nodes[a].compositeKey == nodes[b].compositeKey :: a == b)
  }

  lemma DevicesInAreOrdered(e: Server, tenant: Str, user: Str)
    requires ServerValid(e)
    ensures StrictOrderOn(ByType, DevicesIn(e, tenant, user, e.devices.Keys))
  {
    var ds := DevicesIn(e, tenant, user, e.devices.Keys);
    forall a, b | a in ds && b in ds && a.deviceType == b.deviceType ensures a == b {
      assert DeviceKey(a) == DeviceKey(b);
    }
    ByTypeIsStrict(ds);
  }

  ghost function EntList(e: Server, tenant: Str, user: Str): StoreResult
    requires ServerValid(e)
  {
    DevicesInAreOrdered(e, tenant, user);
    Devices(Listing(ByType, DevicesIn(e, tenant, user, e.devices.Keys)))
  }

  ghost function EntStep(e: Server, op: StoreOp): (Server, StoreResult)
    requires ServerValid(e)
  {
    match op
    case Create(n, minted) => EntCreate(e, n, minted)
    case Get(tenant, user, id) => (e, EntGet(e, tenant, user, id))
    case Update(tenant, id, status, at) => EntUpdate(e, tenant, id, status, at)
    case Find(q) => (e, EntFind(e, q))
    case Upsert(d, minted) => EntUpsert(e, d, minted)
    case List(tenant, user) => (e, EntList(e, tenant, user))
  }

  // ---- Simulation of the reference ----

  ghost predicate NotifsMirror(rows: map<Str, Notification>, nodes: map<Str, NotifNode>) {
    nodes.Keys == rows.Keys && forall id | id in rows :: nodes[id] == NotifToProto(rows[id])
  }

  ghost predicate DevicesMirror(rows: map<Str, Device>, nodes: map<Str, DeviceNode>) {
    nodes.Keys == rows.Keys && forall id | id in rows :: nodes[id] == DeviceToProto(rows[id])
  }

  /** The server holds the reference's rows, each under its encoded key. */
  ghost predicate Mirrors(s: MemState, e: Server) {
    Consistent(s) && NotifsMirror(s.notifs, e.notifs) && DevicesMirror(s.devices, e.devices)
  }

  lemma MirrorPut(rows: map<Str, Notification>, nodes: map<Str, NotifNode>, id: Str, n: Notification)
    requires NotifsMirror(rows, nodes)
    ensures NotifsMirror(rows[id := n], nodes[id := NotifToProto(n)])
  {}

  lemma MirrorPutDevice(rows: map<Str, Device>, nodes: map<Str, DeviceNode>, id: Str, d: Device)
    requires DevicesMirror(rows, nodes)
    ensures DevicesMirror(rows[id := d], nodes[id := DeviceToProto(d)])
  {}

  /** The server assigns every node id, so an id in the caller's struct is not
      sent: the call behaves as if it were empty. */
  function Cleared(op: StoreOp): StoreOp {
    match op
    case Create(n, minted) => Create(n.(id := []), minted)
    case Upsert(d, minted) => Upsert(d.(id := []), minted)
    case _ => op
  }

  /** The server mints an id no node has. */
  predicate MintsUnused(e: Server, op: StoreOp) {
    match op
    case Create(_, minted) => minted !in e.notifs
    case Upsert(_, minted) => minted !in e.devices
    case _ => true
  }

  /** The id memory would store a new row under is the one the server mints, or
      there is no new row. */
  predicate SameId(s: MemState, op: StoreOp) {
    match op
    case Create(n, minted) => NotifKey(n) in s.notifByKey || NewId(n.id, minted) == minted
    case Upsert(d, minted) => DeviceKey(d) in s.deviceByKey || NewId(d.id, minted) == minted
    case _ => true
  }

  lemma NotifMirrorValid(rows: map<Str, Notification>, byKey: map<Key, Str>, nodes: map<Str, NotifNode>)
    requires NotifsConsistent(rows, byKey) && NotifsMirror(rows, nodes)
    ensures NotifNodesValid(nodes)
  {
    forall a, b | a in nodes && b in nodes && nodes[a].compositeKey == nodes[b].compositeKey ensures a == b {
      EncodeInjective(NotifKey(rows[a]), NotifKey(rows[b]));
    }
  }

  lemma DeviceMirrorValid(rows: map<Str, Device>, byKey: map<Key, Str>, nodes: map<Str, DeviceNode>)
    requires DevicesConsistent(rows, byKey) && DevicesMirror(rows, nodes)
    ensures DeviceNodesValid(nodes)
  {
    forall a, b | a in nodes && b in nodes && nodes[a].compositeKey == nodes[b].compositeKey ensures a == b {
      EncodeInjective(DeviceKey(rows[a]), DeviceKey(rows[b]));
    }
  }

  lemma MirrorsValid(s: MemState, e: Server)
    requires Mirrors(s, e)
    ensures ServerValid(e)
  {
    NotifMirrorValid(s.notifs, s.notifByKey, e.notifs);
    DeviceMirrorValid(s.devices, s.deviceByKey, e.devices);
  }

  /** Uniqueness of the encoded string is exactly uniqueness of the triple. */
  lemma NotifKeyTaken(s: MemState, e: Server, k: Key)
    requires Mirrors(s, e)
    ensures (exists id :: id in e.notifs && e.notifs[id].compositeKey == Encode(k)) <==> k in s.notifByKey
    ensures FindNotif(e.notifs, Encode(k)) == if k in s.notifByKey then Some(s.notifByKey[k]) else None
  {
    forall id | id in e.notifs && e.notifs[id].compositeKey == Encode(k)
      ensures k in s.notifByKey && s.notifByKey[k] == id
    {
      EncodeInjective(NotifKey(s.notifs[id]), k);
    }
    if k in s.notifByKey {
      assert e.notifs[s.notifByKey[k]].compositeKey == Encode(k);
    }
  }

  lemma DeviceKeyTaken(s: MemState, e: Server, k: Key)
    requires Mirrors(s, e)
    ensures (exists id :: id in e.devices && e.devices[id].compositeKey == Encode(k)) <==> k in s.deviceByKey
    ensures FindDevice(e.devices, Encode(k)) == if k in s.deviceByKey then Some(s.deviceByKey[k]) else None
  {
    forall id | id in e.devices && e.devices[id].compositeKey == Encode(k)
      ensures k in s.deviceByKey && s.deviceByKey[k] == id
    {
      EncodeInjective(DeviceKey(s.devices[id]), k);
    }
    if k in s.deviceByKey {
      assert e.devices[s.deviceByKey[k]].compositeKey == Encode(k);
    }
  }

  lemma InsertMirrors(s: MemState, e: Server, n: Notification, minted: Str)
    requires Mirrors(s, e) && minted !in e.notifs
    ensures EntCreate(e, n, minted).1 == MemCreate(s, n.(id := []), minted).1
    ensures EntCreate(e, n, minted).0.devices == e.devices
    ensures NotifsMirror(MemCreate(s, n.(id := []), minted).0.notifs, EntCreate(e, n, minted).0.notifs)
  {
    NotifKeyTaken(s, e, NotifKey(n));
    MirrorPut(s.notifs, e.notifs, minted, n.(id := minted));
    assert NotifToProto(n.(id := minted)) == NotifToProto(n);
  }

  lemma CreateMirrors(s: MemState, e: Server, n: Notification, minted: Str)
    requires Mirrors(s, e) && minted !in e.notifs
    ensures EntCreate(e, n, minted).1 == MemCreate(s, n.(id := []), minted).1
    ensures Mirrors(MemCreate(s, n.(id := []), minted).0, EntCreate(e, n, minted).0)
  {
    CreateKeepsConsistent(s, n.(id := []), minted);
    InsertMirrors(s, e, n, minted);
  }

  lemma StampMirrors(s: MemState, e: Server, tenant: Str, id: Str, status: Status, at: Int64)
    requires NotifsMirror(s.notifs, e.notifs)
    ensures EntUpdate(e, tenant, id, status, at).1 == MemUpdate(s, tenant, id, status, at).1
    ensures EntUpdate(e, tenant, id, status, at).0.devices == e.devices
    ensures NotifsMirror(MemUpdate(s, tenant, id, status, at).0.notifs, EntUpdate(e, tenant, id, status, at).0.notifs)
  {
    if id in s.notifs && s.notifs[id].tenant == tenant {
      PatchIsStamp(s.notifs[id], status, at);
      MirrorPut(s.notifs, e.notifs, id, Stamp(s.notifs[id], status, at));
    }
  }

  lemma UpdateMirrors(s: MemState, e: Server, tenant: Str, id: Str, status: Status, at: Int64)
    requires Mirrors(s, e)
    ensures EntUpdate(e, tenant, id, status, at).1 == MemUpdate(s, tenant, id, status, at).1
    ensures Mirrors(MemUpdate(s, tenant, id, status, at).0, EntUpdate(e, tenant, id, status, at).0)
  {
    UpdateKeepsConsistent(s, tenant, id, status, at);
    StampMirrors(s, e, tenant, id, status, at);
  }

  lemma InsertDeviceMirrors(s: MemState, e: Server, d: Device, minted: Str)
    requires Mirrors(s, e) && minted !in e.devices && DeviceKey(d) !in s.deviceByKey
    ensures EntUpsert(e, d, minted).1 == Registered(d.(id := minted))
    ensures DevicesMirror(s.devices[minted := d.(id := minted)], EntUpsert(e, d, minted).0.devices)
    ensures EntUpsert(e, d, minted).0.notifs == e.notifs
  {
    DeviceKeyTaken(s, e, DeviceKey(d));
    MirrorPutDevice(s.devices, e.devices, minted, d.(id := minted));
    assert DeviceToProto(d.(id := minted)) == DeviceToProto(d);
  }

  lemma RotateDeviceMirrors(s: MemState, e: Server, d: Device, minted: Str, id: Str, row: Device)
    requires Mirrors(s, e) && DeviceKey(d) in s.deviceByKey && id == s.deviceByKey[DeviceKey(d)]
    requires row == s.devices[id].(token := d.token, lastActive := d.lastActive)
    ensures EntUpsert(e, d, minted).1 == Registered(row)
    ensures DevicesMirror(s.devices[id := row], EntUpsert(e, d, minted).0.devices)
    ensures EntUpsert(e, d, minted).0.notifs == e.notifs
  {
    DeviceKeyTaken(s, e, DeviceKey(d));
    MirrorPutDevice(s.devices, e.devices, id, row);
    assert DeviceToProto(row) == RotateNode(e.devices[id], d);
  }

  lemma UpsertMirrors(s: MemState, e: Server, d: Device, minted: Str)
    requires Mirrors(s, e) && minted !in e.devices
    ensures EntUpsert(e, d, minted).1 == MemUpsert(s, d.(id := []), minted).1
    ensures Mirrors(MemUpsert(s, d.(id := []), minted).0, EntUpsert(e, d, minted).0)
  {
    UpsertKeepsConsistent(s, d.(id := []), minted);
    var k := DeviceKey(d);
    if k in s.deviceByKey {
      var id := s.deviceByKey[k];
      RotateDeviceMirrors(s, e, d, minted, id, s.devices[id].(token := d.token, lastActive := d.lastActive));
    } else {
      InsertDeviceMirrors(s, e, d, minted);
    }
  }

  lemma FindMirrors(s: MemState, e: Server, q: Query)
    requires Mirrors(s, e)
    ensures EntFind(e, q) == MemFind(s, q)
  {
    MatchingIsOrdered(s, q);
    assert forall id | id in s.notifs :: NotifFromProto(id, e.notifs[id]) == s.notifs[id];
    assert WantedAmong(e, q, e.notifs.Keys) == Matching(s, q);
    assert UnreadNodes(e, q.tenant, q.user, e.notifs.Keys) == UnreadAmong(s, q.tenant, q.user, s.notifs.Keys);
  }

  lemma ListMirrors(s: MemState, e: Server, tenant: Str, user: Str)
    requires Mirrors(s, e)
    ensures ServerValid(e) && EntList(e, tenant, user) == MemList(s, tenant, user)
  {
    MirrorsValid(s, e);
    assert forall id | id in s.devices :: DeviceFromProto(id, e.devices[id]) == s.devices[id];
    assert DevicesIn(e, tenant, user, e.devices.Keys) == DevicesAmong(s, tenant, user, s.devices.Keys);
  }

  /** One call answers as the reference does on the call with its id cleared. */
  lemma StepMirrors(s: MemState, e: Server, op: StoreOp)
    requires Mirrors(s, e) && MintsUnused(e, op)
    ensures ServerValid(e) && NoIdClash(s, Cleared(op))
    ensures EntStep(e, op).1 == MemStep(s, Cleared(op)).1
    ensures Mirrors(MemStep(s, Cleared(op)).0, EntStep(e, op).0)
  {
    MirrorsValid(s, e);
    match op
    case Create(n, minted) => CreateMirrors(s, e, n, minted);
    case Update(tenant, id, status, at) => UpdateMirrors(s, e, tenant, id, status, at);
    case Find(q) => FindMirrors(s, e, q);
    case Upsert(d, minted) => UpsertMirrors(s, e, d, minted);
    case List(tenant, user) => ListMirrors(s, e, tenant, user);
    case Get(tenant, user, id) => GetMirrors(s, e, tenant, user, id);
  }

  lemma GetMirrors(s: MemState, e: Server, tenant: Str, user: Str, id: Str)
    requires Mirrors(s, e)
    ensures EntGet(e, tenant, user, id) == MemGet(s, tenant, user, id)
  {}

  /** It answers as the reference does on the call itself exactly when both store
      the row under the same id. */
  lemma AgreesIffSameId(s: MemState, e: Server, op: StoreOp)
    requires Mirrors(s, e) && MintsUnused(e, op)
    ensures ServerValid(e) && (EntStep(e, op).1 == MemStep(s, op).1 <==> SameId(s, op))
  {
    StepMirrors(s, e, op);
  }

  function ClearedAll(ops: seq<StoreOp>): (r: seq<StoreOp>)
    ensures |r| == |ops| && forall i | 0 <= i < |ops| :: r[i] == Cleared(ops[i])
  {
    if ops == [] then [] else [Cleared(ops[0])] + ClearedAll(ops[1..])
  }

  /** e after ops, answering rs; the server mints unused ids throughout. */
  ghost predicate EntRuns(e: Server, ops: seq<StoreOp>, rs: seq<StoreResult>, final: Server)
    decreases |ops|
  {
    if ops == [] then rs == [] && final == e
    else
      && rs != [] && ServerValid(e) && MintsUnused(e, ops[0]) && EntStep(e, ops[0]).1 == rs[0]
      && EntRuns(EntStep(e, ops[0]).0, ops[1..], rs[1..], final)
  }

  lemma EntRunsTail(e: Server, ops: seq<StoreOp>, rs: seq<StoreResult>, final: Server)
    requires EntRuns(e, ops, rs, final) && ops != []
    ensures ServerValid(e) && MintsUnused(e, ops[0]) && EntRuns(EntStep(e, ops[0]).0, ops[1..], rs[1..], final)
    ensures rs == [EntStep(e, ops[0]).1] + rs[1..]
  {}

  lemma ClearedRunCons(s: MemState, ops: seq<StoreOp>)
    requires ops != [] && Consistent(s) && NoIdClash(s, Cleared(ops[0]))
    requires Runnable(MemStep(s, Cleared(ops[0])).0, ClearedAll(ops[1..]))
    ensures Runnable(s, ClearedAll(ops))
    ensures var (s1, r) := MemStep(s, Cleared(ops[0]));
      && MemRun(s, ClearedAll(ops)).0 == MemRun(s1, ClearedAll(ops[1..])).0
      && MemRun(s, ClearedAll(ops)).1 == [r] + MemRun(s1, ClearedAll(ops[1..])).1
  {
    RunCons(s, Cleared(ops[0]), ClearedAll(ops[1..]));
    assert ClearedAll(ops) == [Cleared(ops[0])] + ClearedAll(ops[1..]);
  }

  /** Every run of the driver gets the reference's answers, row for row. */
  lemma {:induction false} RunMirrors(s: MemState, e: Server, ops: seq<StoreOp>, rs: seq<StoreResult>, final: Server)
    requires Mirrors(s, e) && EntRuns(e, ops, rs, final)
    ensures Runnable(s, ClearedAll(ops))
    ensures rs == MemRun(s, ClearedAll(ops)).1
    ensures Mirrors(MemRun(s, ClearedAll(ops)).0, final)
    decreases |ops|
  {
    if ops != [] {
      StepMirrors(s, e, ops[0]);
      EntRunsTail(e, ops, rs, final);
      RunMirrors(MemStep(s, Cleared(ops[0])).0, EntStep(e, ops[0]).0, ops[1..], rs[1..], final);
      ClearedRunCons(s, ops);
    }
  }

  // ---- The driver ----

  class EntDbStore {
    var notifs: map<Str, NotifNode>
    var devices: map<Str, DeviceNode>

    ghost function State(): Server
      reads this
    {
      Server(notifs, devices)
    }

    constructor ()
      ensures State() == Server(map[], map[])
    {
      notifs := map[];
      devices := map[];
    }

    method CreateNotification(n: Notification, minted: Str) returns (r: StoreResult)
      requires ServerValid(State())
      modifies this`notifs
      ensures (State(), r) == EntCreate(old(State()), n, minted)
    {
      var msg := NotifToProto(n);
      var (nodes, committed) := CommitNotif(notifs, msg, minted);
      notifs := nodes;
      if committed.Some? {
        return Created(committed.value, true);
      }
      var key := Encode(NotifKey(n));
      if id :| id in notifs && notifs[id].compositeKey == key {
        r := Created(id, false);
      } else {
        r := Failure(Internal);
      }
    }

    /** The first read, under the user's own actor, may be denied the row. */
    method GetNotification(tenant: Str, user: Str, id: Str) returns (r: StoreResult)
      ensures r == EntGet(State(), tenant, user, id)
    {
      var got: Option<NotifNode> := None;
      if * {
        if id in notifs { got := Some(notifs[id]); }
      }
      if got.None? {
        if id in notifs { got := Some(notifs[id]); }
        if got.None? {
          return Failure(NotFound);
        }
      }
      if got.value.tenant != tenant || got.value.user != user {
        return Failure(NotFound);
      }
      r := Row(NotifFromProto(id, got.value));
    }

    method UpdateStatus(tenant: Str, id: Str, status: Status, at: Int64) returns (r: StoreResult)
      modifies this`notifs
      ensures (State(), r) == EntUpdate(old(State()), tenant, id, status, at)
    {
      if id !in notifs || notifs[id].tenant != tenant {
        return Failure(NotFound);
      }
      var patch := EMPTY_NODE.(status := status);
      var fields := {FStatus};
      match status {
        case Delivered =>
          patch := patch.(deliveredAt := at);
          fields := fields + {FDeliveredAt};
        case Acked =>
          patch := patch.(ackAt := at);
          fields := fields + {FAckAt};
        case Read =>
          patch := patch.(readAt := at);
          fields := fields + {FReadAt};
        case _ =>
      }
      notifs := notifs[id := PatchNotif(notifs[id], patch, fields)];
      r := Done;
    }

    /** Nodes come back in no particular order and are read again one by one. */
    method ScanNodes(q: Query) returns (rows: seq<Notification>, unread: nat)
      ensures NodesScanned(State(), q, notifs.Keys, rows, unread)
    {
      ghost var e := State();
      rows := [];
      unread := 0;
      var nodes := set id | id in notifs && notifs[id].tenant == q.tenant && notifs[id].user == q.user;
      SkipOthers(e, q, nodes);
      ghost var all := nodes;
      while nodes != {}
        invariant nodes <= all <= notifs.Keys
        invariant NodesScanned(e, q, all - nodes, rows, unread)
        decreases |nodes|
      {
        var id :| id in nodes;
        var msg := notifs[id];
        NodeScanStep(e, q, all - nodes, id, rows, unread);
        assert all - nodes + {id} == all - (nodes - {id});
        nodes := nodes - {id};
        if msg.tenant == q.tenant && msg.user == q.user {
          if msg.status != Read {
            unread := unread + 1;
          }
          if !(q.unreadOnly && msg.status == Read) && !(q.cursor.Some? && msg.createdAt >= q.cursor.value) {
            rows := rows + [NotifFromProto(id, msg)];
          }
        }
      }
      assert all - nodes == all;
    }

    method QueryUserNotifications(q: Query) returns (items: seq<Notification>, next: Str, unread: nat)
      ensures Page(items, next, unread) == EntFind(State(), q)
    {
      var limit := ClampLimit(q.limit);
      items, unread := ScanNodes(q);
      WantedIsOrdered(State(), q);
      items := Sort(Newer, items, WantedAmong(State(), q, notifs.Keys));
      next := [];
      if |items| > limit {
        items := items[..limit];
        next := Decimal.FormatInt(items[|items| - 1].createdAt);
      }
    }

    method UpsertDevice(d: Device, minted: Str) returns (r: StoreResult)
      requires ServerValid(State())
      modifies this`devices
      ensures (State(), r) == EntUpsert(old(State()), d, minted)
    {
      var (nodes, committed) := CommitDevice(devices, DeviceToProto(d), minted);
      devices := nodes;
      if committed.Some? {
        r := ReadBack(committed.value, d);
        return;
      }
      var key := Encode(DeviceKey(d));
      if id :| id in devices && devices[id].compositeKey == key {
        devices := devices[id := RotateNode(devices[id], d)];
        r := ReadBack(id, d);
      } else {
        r := Failure(Internal);
      }
    }

    method ReadBack(id: Str, fallback: Device) returns (r: StoreResult)
      ensures r == ReadDeviceBack(State(), id, fallback)
    {
      if id in devices {
        r := Registered(DeviceFromProto(id, devices[id]));
      } else {
        r := Registered(fallback.(id := id));
      }
    }

    method ScanDeviceNodes(tenant: Str, user: Str) returns (out: seq<Device>)
      ensures DeviceNodesScanned(State(), tenant, user, devices.Keys, out)
    {
      ghost var e := State();
      out := [];
      var nodes := set id | id in devices && devices[id].tenant == tenant && devices[id].user == user;
      SkipOtherDevices(e, tenant, user, nodes);
      ghost var all := nodes;
      while nodes != {}
        invariant nodes <= all <= devices.Keys
        invariant DeviceNodesScanned(e, tenant, user, all - nodes, out)
        decreases |nodes|
      {
        var id :| id in nodes;
        DeviceNodeStep(e, tenant, user, all - nodes, id, out);
        assert all - nodes + {id} == all - (nodes - {id});
        nodes := nodes - {id};
        if devices[id].tenant == tenant && devices[id].user == user {
          out := out + [DeviceFromProto(id, devices[id])];
        }
      }
      assert all - nodes == all;
    }

    method ListDevices(tenant: Str, user: Str) returns (out: seq<Device>)
      requires ServerValid(State())
      ensures Devices(out) == EntList(State(), tenant, user)
    {
      out := ScanDeviceNodes(tenant, user);
      DevicesInAreOrdered(State(), tenant, user);
      out := Sort(ByType, out, DevicesIn(State(), tenant, user, devices.Keys));
    }
  }

  ghost predicate NodesScanned(e: Server, q: Query, ids: set<Str>, rows: seq<Notification>, unread: nat) {
    && Elements(rows) == WantedAmong(e, q, ids)
    && |rows| == |WantedAmong(e, q, ids)|
    && unread == |UnreadNodes(e, q.tenant, q.user, ids)|
  }

  /** The transport's filter drops only nodes the scan would drop. */
  lemma SkipOthers(e: Server, q: Query, ids: set<Str>)
    requires ids == set id | id in e.notifs && e.notifs[id].tenant == q.tenant && e.notifs[id].user == q.user
    ensures WantedAmong(e, q, ids) == WantedAmong(e, q, e.notifs.Keys)
    ensures UnreadNodes(e, q.tenant, q.user, ids) == UnreadNodes(e, q.tenant, q.user, e.notifs.Keys)
  {}

  lemma NodeScanStep(e: Server, q: Query, ids: set<Str>, id: Str, rows: seq<Notification>, unread: nat)
    requires id in e.notifs && id !in ids && NodesScanned(e, q, ids, rows, unread)
    ensures var n := NotifFromProto(id, e.notifs[id]);
      NodesScanned(e, q, ids + {id},
        if Wanted(n, q) then rows + [n] else rows,
        if Unread(n, q.tenant, q.user) then unread + 1 else unread)
  {
    var n := NotifFromProto(id, e.notifs[id]);
    WantedStep(e, q, ids, id);
    UnreadNodeStep(e, q, ids, id);
    AddSize(WantedAmong(e, q, ids), n);
    AddSize(UnreadNodes(e, q.tenant, q.user, ids), id);
    ElementsSnoc(rows, n);
  }

  lemma AddSize<T>(s: set<T>, x: T)
    requires x !in s
    ensures |s + {x}| == |s| + 1 && s + {} == s
  {}

  lemma WantedStep(e: Server, q: Query, ids: set<Str>, id: Str)
    requires id in e.notifs && id !in ids
    ensures var n := NotifFromProto(id, e.notifs[id]);
      && WantedAmong(e, q, ids + {id}) == WantedAmong(e, q, ids) + (if Wanted(n, q) then {n} else {})
      && n !in WantedAmong(e, q, ids)
  {
    forall m | m in WantedAmong(e, q, ids) ensures m.id in ids {}
  }

  lemma UnreadNodeStep(e: Server, q: Query, ids: set<Str>, id: Str)
    requires id in e.notifs && id !in ids
    ensures UnreadNodes(e, q.tenant, q.user, ids + {id}) == UnreadNodes(e, q.tenant, q.user, ids)
      + (if Unread(NotifFromProto(id, e.notifs[id]), q.tenant, q.user) then {id} else {})
  {}

  lemma SkipOtherDevices(e: Server, tenant: Str, user: Str, ids: set<Str>)
    requires ids == set id | id in e.devices && e.devices[id].tenant == tenant && e.devices[id].user == user
    ensures DevicesIn(e, tenant, user, ids) == DevicesIn(e, tenant, user, e.devices.Keys)
  {}

  ghost predicate DeviceNodesScanned(e: Server, tenant: Str, user: Str, ids: set<Str>, out: seq<Device>) {
    Elements(out) == DevicesIn(e, tenant, user, ids) && |out| == |DevicesIn(e, tenant, user, ids)|
  }

  lemma DeviceNodeStep(e: Server, tenant: Str, user: Str, ids: set<Str>, id: Str, out: seq<Device>)
    requires id in e.devices && id !in ids && DeviceNodesScanned(e, tenant, user, ids, out)
    ensures var node := e.devices[id];
      DeviceNodesScanned(e, tenant, user, ids + {id},
        if node.tenant == tenant && node.user == user then out + [DeviceFromProto(id, node)] else out)
  {
    var d := DeviceFromProto(id, e.devices[id]);
    forall m | m in DevicesIn(e, tenant, user, ids) ensures m.id in ids {}
    assert d !in DevicesIn(e, tenant, user, ids);
    assert DevicesIn(e, tenant, user, ids + {id})
      == DevicesIn(e, tenant, user, ids) + (if d.tenant == tenant && d.user == user then {d} else {});
    ElementsSnoc(out, d);
  }
}
