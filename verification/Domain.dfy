/** The platform's domain types (model.go, channel.go) and the store contract's
    shared pieces (store.go). */
module Domain {

  type Byte = b: int | 0 <= b < 256

  /** A Go string is a sequence of bytes. */
  type Str = seq<Byte>

  type Int64 = x: int | -0x8000_0000_0000_0000 <= x < 0x8000_0000_0000_0000

  datatype Option<+T> = None | Some(value: T)

  /** DeliveryStatus is a string type, so values outside the five constants exist. */
  datatype Status = Unset | Pending | Delivered | Acked | Read | Failed | OtherStatus(text: Str)

  datatype Channel = InApp | Email | WebPush | MobilePush | Sms | WhatsApp | OtherChannel(name: Str)

  datatype Notification = Notification(
    id: Str, notificationId: Str, tenant: Str, user: Str,
    subjectRef: Str, subjectType: Str, title: Str, body: Str,
    channel: Channel, status: Status,
    createdAt: Int64, deliveredAt: Int64, ackAt: Int64, readAt: Int64)

  datatype Device = Device(
    id: Str, tenant: Str, user: Str, deviceType: Str, token: Str,
    createdAt: Int64, lastActive: Int64)

  /** The unique triple: the last part is a notification id or a device type. */
  datatype Key = Key(tenant: Str, user: Str, part: Str)

  function NotifKey(n: Notification): Key {
    Key(n.tenant, n.user, n.notificationId)
  }

  function DeviceKey(d: Device): Key {
    Key(d.tenant, d.user, d.deviceType)
  }

  /** The columns an UpdateStatus call may write: the status, and the one
      timestamp that matches it. */
  function Stamp(n: Notification, status: Status, at: Int64): (r: Notification)
    ensures SameCreation(n, r) && r.status == status
    ensures r.deliveredAt == if status == Delivered then at else n.deliveredAt
    ensures r.ackAt == if status == Acked then at else n.ackAt
    ensures r.readAt == if status == Read then at else n.readAt
  {
    var m := n.(status := status);
    match status
    case Delivered => m.(deliveredAt := at)
    case Acked => m.(ackAt := at)
    case Read => m.(readAt := at)
    case _ => m
  }

  /** The columns no store call may change once a row exists. */
  predicate SameCreation(a: Notification, b: Notification) {
    && a.id == b.id && NotifKey(a) == NotifKey(b)
    && a.subjectRef == b.subjectRef && a.subjectType == b.subjectType
    && a.title == b.title && a.body == b.body
    && a.channel == b.channel && a.createdAt == b.createdAt
  }

  const DEFAULT_PAGE_LIMIT := 20
  const MAX_PAGE_LIMIT := 100

  function ClampLimit(limit: int): (r: nat)
    ensures 1 <= r <= 100
    ensures 1 <= limit <= 100 ==> r == limit
    ensures limit <= 0 ==> r == 20
    ensures limit > 100 ==> r == 100
  {
    if limit <= 0 then DEFAULT_PAGE_LIMIT
    else if limit > MAX_PAGE_LIMIT then MAX_PAGE_LIMIT
    else limit
  }

  /** Byte-wise string order, Go's `<` on strings. */
  predicate Less(a: Str, b: Str) {
    if b == [] then false
    else if a == [] then true
    else a[0] < b[0] || (a[0] == b[0] && Less(a[1..], b[1..]))
  }

  /** The strings agree up to position i; there a ends, or its byte is the smaller. */
  predicate SmallerAt(a: Str, b: Str, i: int) {
    && 0 <= i <= |a| && i <= |b| && a[..i] == b[..i]
    && (i == |a| < |b| || (i < |a| && i < |b| && a[i] < b[i]))
  }

  /** Byte-wise order, by the first position where the strings differ. */
  ghost predicate Smaller(a: Str, b: Str) {
    exists i :: SmallerAt(a, b, i)
  }

  lemma SameHead(a: Str, b: Str, i: int)
    requires SmallerAt(a, b, i) && i > 0
    ensures a[0] == b[0]
  {
    assert a[..i][0] == b[..i][0];
  }

  lemma {:induction false} LessIff(a: Str, b: Str)
    ensures Less(a, b) <==> Smaller(a, b)
  {
    if a == [] || b == [] || a[0] != b[0] {
      if Less(a, b) { assert SmallerAt(a, b, 0); }
      if i :| SmallerAt(a, b, i) {
        if i > 0 { SameHead(a, b, i); }
      }
    } else {
      LessIff(a[1..], b[1..]);
      if i :| SmallerAt(a[1..], b[1..], i) {
        assert a[..i + 1] == [a[0]] + a[1..][..i] && b[..i + 1] == [b[0]] + b[1..][..i];
        assert SmallerAt(a, b, i + 1);
      }
      if i :| SmallerAt(a, b, i) {
        assert a[1..][..i - 1] == a[..i][1..] && b[1..][..i - 1] == b[..i][1..];
        assert SmallerAt(a[1..], b[1..], i - 1);
      }
    }
  }

  lemma {:induction false} LessIrreflexive(a: Str)
    ensures !Less(a, a)
  {
    if a != [] { LessIrreflexive(a[1..]); }
  }

  lemma {:induction false} LessTransitive(a: Str, b: Str, c: Str)
    requires Less(a, b) && Less(b, c)
    ensures Less(a, c)
  {
    if a != [] && a[0] == b[0] == c[0] { LessTransitive(a[1..], b[1..], c[1..]); }
  }

  lemma {:induction false} LessTotal(a: Str, b: Str)
    ensures a == b || Less(a, b) || Less(b, a)
  {
    if a != [] && b != [] && a[0] == b[0] {
      LessTotal(a[1..], b[1..]);
      if a[1..] == b[1..] {
        assert a == [a[0]] + a[1..] && b == [b[0]] + b[1..];
      }
    }
  }

  /** There is always an id that is not in use. */
  lemma FreshStr(ids: set<Str>) returns (id: Str)
    ensures id !in ids
  {
    var n := LongerThanAll(ids);
    id := seq(n, _ => 0);
  }

  lemma {:induction false} LongerThanAll(ids: set<Str>) returns (n: nat)
    ensures forall id | id in ids :: |id| < n
  {
    if ids == {} {
      n := 0;
    } else {
      var id :| id in ids;
      n := LongerThanAll(ids - {id});
      n := if |id| < n then n else |id| + 1;
    }
  }
}
