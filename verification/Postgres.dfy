/** store/postgres: two tables with a primary key and a unique triple, and one
    atomic SQL statement per step. Every statement is a function of the table. */
module Postgres {
  import opened Domain
  import opened Order
  import opened StoreApi
  import opened Memory

  datatype PgState = PgState(notifs: set<Notification>, devices: set<Device>)

  datatype InsertOutcome = Inserted | NoRows | UniqueViolation

  /** INSERT .. ON CONFLICT (tenant_id, user_id, notification_id) DO NOTHING. */
  function InsertNotif(rows: set<Notification>, n: Notification): (set<Notification>, InsertOutcome) {
    if exists r | r in rows :: NotifKey(r) == NotifKey(n) then (rows, NoRows)
    else if exists r | r in rows :: r.id == n.id then (rows, UniqueViolation)
    else (rows + {n}, Inserted)
  }

  /** UPDATE .. WHERE tenant_id = $1 AND id = $2. */
  function UpdateNotifs(rows: set<Notification>, tenant: Str, id: Str, status: Status, at: Int64): set<Notification> {
    set r | r in rows :: if r.tenant == tenant && r.id == id then Stamp(r, status, at) else r
  }

  /** INSERT .. ON CONFLICT (tenant_id, user_id, device_type) DO UPDATE. */
  function RotateDevices(rows: set<Device>, d: Device): set<Device> {
    set r | r in rows :: if DeviceKey(r) == DeviceKey(d) then r.(token := d.token, lastActive := d.lastActive) else r
  }

  /** What the two constraints of each table guarantee. */
  ghost predicate Constrained(p: PgState) {
    && (forall a, b | a in p.notifs && b in p.notifs && (a.id == b.id || NotifKey(a) == NotifKey(b)) :: a == b)
    && (forall a, b | a in p.devices && b in p.devices && (a.id == b.id || DeviceKey(a) == DeviceKey(b)) :: a == b)
  }

  ghost function PgCreate(p: PgState, n: Notification, minted: Str): (PgState, StoreResult) {
    var m := n.(id := NewId(n.id, minted));
    var (rows, outcome) := InsertNotif(p.notifs, m);
    match outcome
    case Inserted => (p.(notifs := rows), Created(m.id, true))
    case NoRows => (p, SelectId(rows, NotifKey(n)))
    case UniqueViolation => (p, Failure(Conflict))
  }

  /** The follow-up SELECT id .. WHERE <triple>. */
  ghost function SelectId(rows: set<Notification>, k: Key): StoreResult {
    if exists r :: r in rows && NotifKey(r) == k then
      var r :| r in rows && NotifKey(r) == k;
      Created(r.id, false)
    else Failure(Internal)
  }

  ghost function PgGet(p: PgState, tenant: Str, user: Str, id: Str): StoreResult {
    if exists r :: r in p.notifs && Owned(r, tenant, user) && r.id == id then
      var r :| r in p.notifs && Owned(r, tenant, user) && r.id == id;
      Row(r)
    else Failure(NotFound)
  }

  ghost function PgUpdate(p: PgState, tenant: Str, id: Str, status: Status, at: Int64): (PgState, StoreResult) {
    var affected := set r | r in p.notifs && r.tenant == tenant && r.id == id;
    (p.(notifs := UpdateNotifs(p.notifs, tenant, id, status, at)),
     if |affected| == 0 then Failure(NotFound) else Done)
  }

  predicate Names(n: Notification, tenant: Str, id: Str) {
    n.tenant == tenant && n.id == id
  }

  lemma ReplaceRow(rows: set<Notification>, tenant: Str, id: Str, status: Status, at: Int64, n: Notification)
    requires n in rows && Names(n, tenant, id) && forall o | o in rows && Names(o, tenant, id) :: o == n
    ensures UpdateNotifs(rows, tenant, id, status, at) == rows - {n} + {Stamp(n, status, at)}
  {
    var after := UpdateNotifs(rows, tenant, id, status, at);
    forall r | r in rows - {n} + {Stamp(n, status, at)} ensures r in after {
      if r in rows && r != n { assert !Names(r, tenant, id); }
    }
  }

  lemma ReplaceNone(rows: set<Notification>, tenant: Str, id: Str, status: Status, at: Int64)
    requires forall o | o in rows :: !Names(o, tenant, id)
    ensures UpdateNotifs(rows, tenant, id, status, at) == rows
  {
    var after := UpdateNotifs(rows, tenant, id, status, at);
    forall r | r in rows ensures r in after { assert !Names(r, tenant, id); }
  }

  lemma StampKeepsConstrained(p: PgState, n: Notification, status: Status, at: Int64)
    requires Constrained(p) && n in p.notifs
    ensures Constrained(p.(notifs := p.notifs - {n} + {Stamp(n, status, at)}))
  {}

  /** The statement replaces at most one row, the tenant's row with that id, by its
      stamp; it keeps the constraints. */
  lemma UpdateReplacesOne(p: PgState, tenant: Str, id: Str, status: Status, at: Int64)
    requires Constrained(p)
    ensures var (t, r) := PgUpdate(p, tenant, id, status, at);
      && Constrained(t)
      && (forall n | n in p.notifs && Names(n, tenant, id) ::
            r == Done && t == p.(notifs := p.notifs - {n} + {Stamp(n, status, at)}))
      && ((forall n | n in p.notifs :: !Names(n, tenant, id)) ==> r == Failure(NotFound) && t == p)
  {
    var affected := set r | r in p.notifs && r.tenant == tenant && r.id == id;
    if n :| n in p.notifs && Names(n, tenant, id) {
      assert n in affected;
      ReplaceRow(p.notifs, tenant, id, status, at, n);
      StampKeepsConstrained(p, n, status, at);
    } else {
      assert affected == {};
      ReplaceNone(p.notifs, tenant, id, status, at);
    }
  }

  /** An insert is refused exactly when the triple is new and the id is taken: a
      notification with a conflict, a device with an internal error. */
  lemma RefusedIff(p: PgState, n: Notification, d: Device, minted: Str)
    requires Constrained(p)
    ensures PgCreate(p, n, minted) == (p, Failure(Conflict)) <==> (
      && (forall r | r in p.notifs :: NotifKey(r) != NotifKey(n))
      && exists r :: r in p.notifs && r.id == if n.id != [] then n.id else minted)
    ensures PgUpsert(p, d, minted) == (p, Failure(Internal)) <==> (
      && (forall r | r in p.devices :: DeviceKey(r) != DeviceKey(d))
      && exists r :: r in p.devices && r.id == if d.id != [] then d.id else minted)
  {}

  ghost function Where(p: PgState, q: Query): set<Notification> {
    set r | r in p.notifs && Wanted(r, q)
  }

  ghost function UnreadRows(p: PgState, tenant: Str, user: Str): set<Notification> {
    set r | r in p.notifs && Unread(r, tenant, user)
  }

  lemma WhereIsOrdered(p: PgState, q: Query)
    requires Constrained(p)
    ensures StrictOrderOn(Newer, Where(p, q))
  {
    NewerIsStrict(Where(p, q));
  }

  ghost function PgFind(p: PgState, q: Query): StoreResult
    requires Constrained(p)
  {
    WhereIsOrdered(p, q);
    var limit := ClampLimit(q.limit);
    var fetched := PageItems(Listing(Newer, Where(p, q)), limit + 1);
    Page(PageItems(fetched, limit), PageCursor(fetched, limit), |UnreadRows(p, q.tenant, q.user)|)
  }

  ghost function PgUpsert(p: PgState, d: Device, minted: Str): (PgState, StoreResult) {
    var m := d.(id := NewId(d.id, minted));
    if exists r :: r in p.devices && DeviceKey(r) == DeviceKey(d) then
      var r :| r in p.devices && DeviceKey(r) == DeviceKey(d);
      (p.(devices := RotateDevices(p.devices, d)), Registered(r.(token := d.token, lastActive := d.lastActive)))
    else if exists r :: r in p.devices && r.id == m.id then (p, Failure(Internal))
    else (p.(devices := p.devices + {m}), Registered(m))
  }

  ghost function UserDevices(p: PgState, tenant: Str, user: Str): set<Device> {
    set d | d in p.devices && d.tenant == tenant && d.user == user
  }

  lemma UserDevicesAreOrdered(p: PgState, tenant: Str, user: Str)
    requires Constrained(p)
    ensures StrictOrderOn(ByType, UserDevices(p, tenant, user))
  {
    var ds := UserDevices(p, tenant, user);
    forall a, b | a in ds && b in ds && a.deviceType == b.deviceType ensures a == b {
      assert DeviceKey(a) == DeviceKey(b);
    }
    ByTypeIsStrict(ds);
  }

  ghost function PgList(p: PgState, tenant: Str, user: Str): StoreResult
    requires Constrained(p)
  {
    UserDevicesAreOrdered(p, tenant, user);
    Devices(Listing(ByType, UserDevices(p, tenant, user)))
  }

  ghost function PgStep(p: PgState, op: StoreOp): (PgState, StoreResult)
    requires Constrained(p)
  {
    match op
    case Create(n, minted) => PgCreate(p, n, minted)
    case Get(tenant, user, id) => (p, PgGet(p, tenant, user, id))
    case Update(tenant, id, status, at) => PgUpdate(p, tenant, id, status, at)
    case Find(q) => (p, PgFind(p, q))
    case Upsert(d, minted) => PgUpsert(p, d, minted)
    case List(tenant, user) => (p, PgList(p, tenant, user))
  }

  ghost function Rows<T>(m: map<Str, T>): set<T> {
    set id | id in m :: m[id]
  }

  /** The tables hold exactly the reference's rows. */
  ghost predicate Matches(s: MemState, p: PgState) {
    Consistent(s) && p.notifs == Rows(s.notifs) && p.devices == Rows(s.devices)
  }

  lemma MatchesConstrained(s: MemState, p: PgState)
    requires Matches(s, p)
    ensures Constrained(p)
  {
    forall a, b | a in p.notifs && b in p.notifs && (a.id == b.id || NotifKey(a) == NotifKey(b)) ensures a == b {
      assert a == s.notifs[a.id] && b == s.notifs[b.id];
    }
    forall a, b | a in p.devices && b in p.devices && (a.id == b.id || DeviceKey(a) == DeviceKey(b)) ensures a == b {
      assert a == s.devices[a.id] && b == s.devices[b.id];
    }
  }

  lemma RowsAfterPut<T>(m: map<Str, T>, id: Str, row: T)
    requires id !in m
    ensures Rows(m[id := row]) == Rows(m) + {row}
  {
    var t := m[id := row];
    forall r | r in Rows(m) + {row} ensures r in Rows(t) {
      if r == row {
        assert id in t && t[id] == r;
      } else {
        var i :| i in m && m[i] == r;
        assert i in t && t[i] == r;
      }
    }
  }

  lemma CreateAgrees(s: MemState, p: PgState, n: Notification, minted: Str)
    requires Matches(s, p)
    ensures PgCreate(p, n, minted).1 == MemCreate(s, n, minted).1 <==> NoIdClash(s, Create(n, minted))
    ensures NoIdClash(s, Create(n, minted)) ==> Matches(MemCreate(s, n, minted).0, PgCreate(p, n, minted).0)
  {
    CreateKeepsConsistent(s, n, minted);
    var k := NotifKey(n);
    var m := n.(id := NewId(n.id, minted));
    if k in s.notifByKey {
      var row := s.notifs[s.notifByKey[k]];
      assert row in p.notifs && NotifKey(row) == k;
      forall r | r in p.notifs && NotifKey(r) == k ensures r == row {}
    } else {
      assert forall r | r in p.notifs :: NotifKey(r) in s.notifByKey;
      if m.id in s.notifs {
        assert s.notifs[m.id] in p.notifs;
      } else {
        RowsAfterPut(s.notifs, m.id, m);
      }
    }
  }

  lemma RowsAfterReplace(m: map<Str, Notification>, id: Str, row: Notification)
    requires id in m && row.id == id && forall i | i in m :: m[i].id == i
    ensures Rows(m[id := row]) == Rows(m) - {m[id]} + {row}
  {
    var t := m[id := row];
    forall r | r in Rows(m) - {m[id]} + {row} ensures r in Rows(t) {
      if r == row {
        assert t[id] == r;
      } else {
        assert m[r.id] == r && t[r.id] == r;
      }
    }
    forall r | r in Rows(t) ensures r in Rows(m) - {m[id]} + {row} {
      if r != row { assert m[r.id] == r && r.id != id; }
    }
  }

  lemma StampAgrees(s: MemState, p: PgState, tenant: Str, id: Str, status: Status, at: Int64)
    requires Matches(s, p) && id in s.notifs && s.notifs[id].tenant == tenant
    ensures PgUpdate(p, tenant, id, status, at)
      == (p.(notifs := Rows(s.notifs[id := Stamp(s.notifs[id], status, at)])), Done)
  {
    var n := s.notifs[id];
    MatchesConstrained(s, p);
    assert n in p.notifs && Names(n, tenant, id);
    UpdateReplacesOne(p, tenant, id, status, at);
    RowsAfterReplace(s.notifs, id, Stamp(n, status, at));
  }

  lemma MissAgrees(s: MemState, p: PgState, tenant: Str, id: Str, status: Status, at: Int64)
    requires Matches(s, p) && (id !in s.notifs || s.notifs[id].tenant != tenant)
    ensures PgUpdate(p, tenant, id, status, at) == (p, Failure(NotFound))
  {
    MatchesConstrained(s, p);
    forall n | n in p.notifs ensures !Names(n, tenant, id) {
      assert n == s.notifs[n.id];
    }
    UpdateReplacesOne(p, tenant, id, status, at);
  }

  lemma UpdateAgrees(s: MemState, p: PgState, tenant: Str, id: Str, status: Status, at: Int64)
    requires Matches(s, p)
    ensures PgUpdate(p, tenant, id, status, at).1 == MemUpdate(s, tenant, id, status, at).1
    ensures Matches(MemUpdate(s, tenant, id, status, at).0, PgUpdate(p, tenant, id, status, at).0)
  {
    UpdateKeepsConsistent(s, tenant, id, status, at);
    if id in s.notifs && s.notifs[id].tenant == tenant {
      StampAgrees(s, p, tenant, id, status, at);
    } else {
      MissAgrees(s, p, tenant, id, status, at);
    }
  }

  lemma GetAgrees(s: MemState, p: PgState, tenant: Str, user: Str, id: Str)
    requires Matches(s, p)
    ensures PgGet(p, tenant, user, id) == MemGet(s, tenant, user, id)
  {
    if id in s.notifs && Owned(s.notifs[id], tenant, user) {
      assert s.notifs[id] in p.notifs && s.notifs[id].id == id;
    }
  }

  lemma UnreadCountAgrees(s: MemState, p: PgState, tenant: Str, user: Str)
    requires Matches(s, p)
    ensures |UnreadRows(p, tenant, user)| == |UnreadAmong(s, tenant, user, s.notifs.Keys)|
  {
    var rows := UnreadRows(p, tenant, user);
    forall a, b | a in rows && b in rows && a.id == b.id ensures a == b {
      assert a == s.notifs[a.id] && b == s.notifs[b.id];
    }
    var idOf := (n: Notification) => n.id;
    ImageSize(rows, idOf);
    forall id | id in UnreadAmong(s, tenant, user, s.notifs.Keys) ensures id in Image(rows, idOf) {
      assert s.notifs[id] in rows && idOf(s.notifs[id]) == id;
    }
    assert Image(rows, idOf) == UnreadAmong(s, tenant, user, s.notifs.Keys);
  }

  /** Fetching limit + 1 ordered rows gives the page and the cursor that sorting
      everything gives, and the separate count gives the same unread number. */
  lemma FindAgrees(s: MemState, p: PgState, q: Query)
    requires Matches(s, p)
    ensures Constrained(p) && PgFind(p, q) == MemFind(s, q)
  {
    MatchesConstrained(s, p);
    WhereIsOrdered(p, q);
    MatchingIsOrdered(s, q);
    assert Where(p, q) == Matching(s, q);
    UnreadCountAgrees(s, p, q.tenant, q.user);
  }

  lemma UpsertAgrees(s: MemState, p: PgState, d: Device, minted: Str)
    requires Matches(s, p)
    ensures PgUpsert(p, d, minted).1 == MemUpsert(s, d, minted).1 <==> NoIdClash(s, Upsert(d, minted))
    ensures NoIdClash(s, Upsert(d, minted)) ==> Matches(MemUpsert(s, d, minted).0, PgUpsert(p, d, minted).0)
  {
    UpsertKeepsConsistent(s, d, minted);
    var k := DeviceKey(d);
    var m := d.(id := NewId(d.id, minted));
    if k in s.deviceByKey {
      RotateAgrees(s, p, d, minted);
    } else {
      assert forall r | r in p.devices :: DeviceKey(r) in s.deviceByKey;
      if m.id in s.devices {
        assert s.devices[m.id] in p.devices;
      } else {
        RowsAfterPut(s.devices, m.id, m);
      }
    }
  }

  lemma RotateAgrees(s: MemState, p: PgState, d: Device, minted: Str)
    requires Matches(s, p) && DeviceKey(d) in s.deviceByKey
    ensures PgUpsert(p, d, minted).1 == MemUpsert(s, d, minted).1
    ensures PgUpsert(p, d, minted).0.notifs == p.notifs
    ensures PgUpsert(p, d, minted).0.devices == Rows(MemUpsert(s, d, minted).0.devices)
  {
    var k := DeviceKey(d);
    var id := s.deviceByKey[k];
    var row := s.devices[id];
    assert row in p.devices && DeviceKey(row) == k;
    forall r | r in p.devices && DeviceKey(r) == k ensures r == row {}
    var t := MemUpsert(s, d, minted).0;
    var after := RotateDevices(p.devices, d);
    forall r | r in Rows(t.devices) ensures r in after {
      var i :| i in t.devices && t.devices[i] == r;
      assert s.devices[i] in p.devices;
    }
    forall r | r in after ensures r in Rows(t.devices) {
      var o :| o in p.devices && r == if DeviceKey(o) == k then o.(token := d.token, lastActive := d.lastActive) else o;
      assert o.id in t.devices && t.devices[o.id] == r;
    }
  }

  lemma ListAgrees(s: MemState, p: PgState, tenant: Str, user: Str)
    requires Matches(s, p)
    ensures Constrained(p) && PgList(p, tenant, user) == MemList(s, tenant, user)
  {
    MatchesConstrained(s, p);
    UserDevicesAreOrdered(p, tenant, user);
    DevicesAreOrdered(s, tenant, user);
    assert UserDevices(p, tenant, user) == DevicesAmong(s, tenant, user, s.devices.Keys);
  }

  /** One call: the drivers answer alike exactly when no id is reused, and then
      the tables still hold the reference's rows. */
  lemma StepAgrees(s: MemState, p: PgState, op: StoreOp)
    requires Matches(s, p)
    ensures Constrained(p)
    ensures PgStep(p, op).1 == MemStep(s, op).1 <==> NoIdClash(s, op)
    ensures NoIdClash(s, op) ==> Matches(MemStep(s, op).0, PgStep(p, op).0)
  {
    MatchesConstrained(s, p);
    match op
    case Create(n, minted) => CreateAgrees(s, p, n, minted);
    case Get(tenant, user, id) => GetAgrees(s, p, tenant, user, id);
    case Update(tenant, id, status, at) => UpdateAgrees(s, p, tenant, id, status, at);
    case Find(q) => FindAgrees(s, p, q);
    case Upsert(d, minted) => UpsertAgrees(s, p, d, minted);
    case List(tenant, user) => ListAgrees(s, p, tenant, user);
  }

  /** p after ops, answering rs. */
  ghost predicate PgRuns(p: PgState, ops: seq<StoreOp>, rs: seq<StoreResult>, final: PgState)
    decreases |ops|
  {
    if ops == [] then rs == [] && final == p
    else
      && rs != [] && Constrained(p) && PgStep(p, ops[0]).1 == rs[0]
      && PgRuns(PgStep(p, ops[0]).0, ops[1..], rs[1..], final)
  }

  /** The calls, run from p, are answered with rs. */
  ghost predicate Answers(p: PgState, ops: seq<StoreOp>, rs: seq<StoreResult>) {
    exists final :: PgRuns(p, ops, rs, final)
  }

  /** Every finite run that reuses no id gets the reference's answers and ends on the
      reference's rows. */
  lemma {:induction false} RunAgrees(s: MemState, p: PgState, ops: seq<StoreOp>) returns (final: PgState)
    requires Matches(s, p) && NoClashAlong(s, ops)
    ensures PgRuns(p, ops, MemRun(s, ops).1, final)
    ensures Matches(MemRun(s, ops).0, final)
    decreases |ops|
  {
    if ops == [] {
      final := p;
    } else {
      StepAgrees(s, p, ops[0]);
      final := RunAgrees(MemStep(s, ops[0]).0, PgStep(p, ops[0]).0, ops[1..]);
      assert MemRun(s, ops).1[1..] == MemRun(MemStep(s, ops[0]).0, ops[1..]).1;
    }
  }

  lemma {:induction false} AgreeingRunIsClean(s: MemState, p: PgState, ops: seq<StoreOp>, final: PgState)
    requires Matches(s, p) && PgRuns(p, ops, MemRun(s, ops).1, final)
    ensures NoClashAlong(s, ops)
    decreases |ops|
  {
    if ops != [] {
      StepAgrees(s, p, ops[0]);
      assert MemRun(s, ops).1[1..] == MemRun(MemStep(s, ops[0]).0, ops[1..]).1;
      AgreeingRunIsClean(MemStep(s, ops[0]).0, PgStep(p, ops[0]).0, ops[1..], final);
    }
  }

  /** A run gets the reference's answers throughout exactly when it reuses no id. */
  lemma RunAgreesIff(s: MemState, p: PgState, ops: seq<StoreOp>)
    requires Matches(s, p)
    ensures Answers(p, ops, MemRun(s, ops).1) <==> NoClashAlong(s, ops)
  {
    var rs := MemRun(s, ops).1;
    if NoClashAlong(s, ops) {
      var final := RunAgrees(s, p, ops);
      assert PgRuns(p, ops, rs, final);
    }
    if Answers(p, ops, rs) {
      var final :| PgRuns(p, ops, rs, final);
      AgreeingRunIsClean(s, p, ops, final);
    }
  }

  class PostgresStore {
    var notifs: set<Notification>
    var devices: set<Device>

    ghost function State(): PgState
      reads this
    {
      PgState(notifs, devices)
    }

    constructor ()
      ensures State() == PgState({}, {})
    {
      notifs := {};
      devices := {};
    }

    method CreateNotification(n: Notification, minted: Str) returns (r: StoreResult)
      requires Constrained(State())
      modifies this`notifs
      ensures (State(), r) == PgCreate(old(State()), n, minted)
    {
      var m := if n.id == [] then n.(id := minted) else n;
      var (rows, outcome) := InsertNotif(notifs, m);
      notifs := rows;
      match outcome {
        case Inserted => r := Created(m.id, true);
        case UniqueViolation => r := Failure(Conflict);
        case NoRows =>
          var existing :| existing in notifs && NotifKey(existing) == NotifKey(m);
          r := Created(existing.id, false);
      }
    }

    method GetNotification(tenant: Str, user: Str, id: Str) returns (r: StoreResult)
      requires Constrained(State())
      ensures r == PgGet(State(), tenant, user, id)
    {
      if n :| n in notifs && n.tenant == tenant && n.user == user && n.id == id {
        r := Row(n);
      } else {
        r := Failure(NotFound);
      }
    }

    method UpdateStatus(tenant: Str, id: Str, status: Status, at: Int64) returns (r: StoreResult)
      requires Constrained(State())
      modifies this`notifs
      ensures (State(), r) == PgUpdate(old(State()), tenant, id, status, at) && Constrained(State())
      ensures forall n | n in old(notifs) && Names(n, tenant, id) ::
        r == Done && notifs == old(notifs) - {n} + {Stamp(n, status, at)}
      ensures (forall n | n in old(notifs) :: !Names(n, tenant, id)) ==> r == Failure(NotFound) && notifs == old(notifs)
    {
      UpdateReplacesOne(State(), tenant, id, status, at);
      var affected := |set n | n in notifs && n.tenant == tenant && n.id == id|;
      notifs := UpdateNotifs(notifs, tenant, id, status, at);
      r := if affected == 0 then Failure(NotFound) else Done;
    }

    /** The page statement: WHERE grows with the optional filters. */
    method SelectPage(q: Query, k: nat) returns (rows: seq<Notification>)
      requires Constrained(State())
      ensures StrictOrderOn(Newer, Where(State(), q))
      ensures rows == PageItems(Listing(Newer, Where(State(), q)), k)
    {
      WhereIsOrdered(State(), q);
      var where := set n | n in notifs && n.tenant == q.tenant && n.user == q.user;
      if q.cursor.Some? {
        where := set n | n in where && n.createdAt < q.cursor.value;
      }
      if q.unreadOnly {
        where := set n | n in where && n.status != Read;
      }
      assert where == Where(State(), q);
      rows := OrderBy(Newer, where);
      rows := PageItems(rows, k);
    }

    /** The count statement. */
    method CountUnread(tenant: Str, user: Str) returns (unread: nat)
      ensures unread == |UnreadRows(State(), tenant, user)|
    {
      var rows := set n | n in notifs && n.tenant == tenant && n.user == user && n.status != Read;
      assert rows == UnreadRows(State(), tenant, user);
      unread := |rows|;
    }

    method QueryUserNotifications(q: Query) returns (items: seq<Notification>, next: Str, unread: nat)
      requires Constrained(State())
      ensures Page(items, next, unread) == PgFind(State(), q)
    {
      var limit := ClampLimit(q.limit);
      items := SelectPage(q, limit + 1);
      next := [];
      if |items| > limit {
        items := items[..limit];
        next := Decimal.FormatInt(items[|items| - 1].createdAt);
      }
      unread := CountUnread(q.tenant, q.user);
    }

    method UpsertDevice(d: Device, minted: Str) returns (r: StoreResult)
      requires Constrained(State())
      modifies this`devices
      ensures (State(), r) == PgUpsert(old(State()), d, minted)
    {
      var m := if d.id == [] then d.(id := minted) else d;
      if e :| e in devices && DeviceKey(e) == DeviceKey(m) {
        devices := RotateDevices(devices, m);
        r := Registered(e.(token := m.token, lastActive := m.lastActive));
      } else if exists e | e in devices :: e.id == m.id {
        r := Failure(Internal);
      } else {
        devices := devices + {m};
        r := Registered(m);
      }
    }

    method ListDevices(tenant: Str, user: Str) returns (out: seq<Device>)
      requires Constrained(State())
      ensures Devices(out) == PgList(State(), tenant, user)
    {
      UserDevicesAreOrdered(State(), tenant, user);
      var mine := set d | d in devices && d.tenant == tenant && d.user == user;
      assert mine == UserDevices(State(), tenant, user);
      out := OrderBy(ByType, mine);
    }
  }
}
