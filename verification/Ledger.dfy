/** The unread count, told from the calls alone: a client that writes down what it
    created and which status it last wrote can predict every query's count. */
module Ledger {
  import opened Domain
  import opened Order
  import opened StoreApi
  import opened Memory
  import opened Postgres

  /** What the caller knows about one triple: the id it was given, and the status
      last written under that id. */
  datatype Account = Account(id: Str, status: Status)

  /** Posts one call and its answer. */
  function Post(book: map<Key, Account>, op: StoreOp, r: StoreResult): map<Key, Account> {
    if op.Create? && r.Created? && r.isNew then
      book[NotifKey(op.n) := Account(r.id, op.n.status)]
    else if op.Update? && r.Done? then
      map k | k in book :: if book[k].id == op.id then Account(op.id, op.status) else book[k]
    else book
  }

  function PostAll(book: map<Key, Account>, ops: seq<StoreOp>, rs: seq<StoreResult>): map<Key, Account>
    requires |ops| == |rs|
    decreases |ops|
  {
    if ops == [] then book else PostAll(Post(book, ops[0], rs[0]), ops[1..], rs[1..])
  }

  /** The book agrees with the store on every triple. */
  ghost predicate Balanced(book: map<Key, Account>, s: MemState) {
    && book.Keys == s.notifByKey.Keys
    && forall k | k in book :: s.notifByKey[k] in s.notifs
         && book[k] == Account(s.notifByKey[k], s.notifs[s.notifByKey[k]].status)
  }

  lemma PostUpdateBalances(book: map<Key, Account>, s: MemState, tenant: Str, id: Str, status: Status, at: Int64)
    requires Consistent(s) && Balanced(book, s)
    ensures Balanced(Post(book, Update(tenant, id, status, at), MemUpdate(s, tenant, id, status, at).1),
                     MemUpdate(s, tenant, id, status, at).0)
  {}

  lemma PostBalances(book: map<Key, Account>, s: MemState, op: StoreOp)
    requires Consistent(s) && Balanced(book, s) && NoIdClash(s, op)
    ensures Balanced(Post(book, op, MemStep(s, op).1), MemStep(s, op).0)
  {
    match op
    case Update(tenant, id, status, at) => PostUpdateBalances(book, s, tenant, id, status, at);
    case _ =>
  }

  lemma {:induction false} RunBalances(book: map<Key, Account>, s: MemState, ops: seq<StoreOp>)
    requires Runnable(s, ops) && Balanced(book, s)
    ensures Balanced(PostAll(book, ops, MemRun(s, ops).1), MemRun(s, ops).0)
    decreases |ops|
  {
    if ops != [] {
      PostBalances(book, s, ops[0]);
      RunBalances(Post(book, ops[0], MemStep(s, ops[0]).1), MemStep(s, ops[0]).0, ops[1..]);
      assert MemRun(s, ops).1[1..] == MemRun(MemStep(s, ops[0]).0, ops[1..]).1;
    }
  }

  /** The notification ids of a user whose last written status is not read. */
  function UnreadIds(book: map<Key, Account>, tenant: Str, user: Str): set<Str> {
    set k | k in book && k.tenant == tenant && k.user == user && book[k].status != Read :: k.part
  }

  lemma CountOfBalanced(book: map<Key, Account>, s: MemState, tenant: Str, user: Str)
    requires Consistent(s) && Balanced(book, s)
    ensures |UnreadIds(book, tenant, user)| == |UnreadAmong(s, tenant, user, s.notifs.Keys)|
  {
    var ids := UnreadAmong(s, tenant, user, s.notifs.Keys);
    var part := id => if id in s.notifs then s.notifs[id].notificationId else [];
    forall a, b | a in ids && b in ids && part(a) == part(b) ensures a == b {
      assert NotifKey(s.notifs[a]) == NotifKey(s.notifs[b]);
    }
    ImageSize(ids, part);
    var parts := Image(ids, part);
    forall nid | nid in UnreadIds(book, tenant, user) ensures nid in parts {
      var k := Key(tenant, user, nid);
      assert k in book;
      assert s.notifByKey[k] in ids && part(s.notifByKey[k]) == nid;
    }
    forall nid | nid in parts ensures nid in UnreadIds(book, tenant, user) {
      var id :| id in ids && part(id) == nid;
      assert NotifKey(s.notifs[id]) in book;
    }
    assert parts == UnreadIds(book, tenant, user);
  }

  /** After any run from an empty store, every query of a user reports as unread the
      number of distinct notification ids created for the user whose last written
      status is not read, whatever its limit, cursor and filter; the count
      statement of Postgres reports the same. */
  lemma UnreadIsFromTheCalls(ops: seq<StoreOp>, q: Query, p: PgState)
    requires Runnable(EMPTY, ops) && Matches(MemRun(EMPTY, ops).0, p)
    ensures Consistent(MemRun(EMPTY, ops).0)
    ensures var expected := |UnreadIds(PostAll(map[], ops, MemRun(EMPTY, ops).1), q.tenant, q.user)|;
      && MemFind(MemRun(EMPTY, ops).0, q).unread == expected
      && |UnreadRows(p, q.tenant, q.user)| == expected
  {
    var s := MemRun(EMPTY, ops).0;
    RunKeepsConsistent(EMPTY, ops);
    RunBalances(map[], EMPTY, ops);
    CountOfBalanced(PostAll(map[], ops, MemRun(EMPTY, ops).1), s, q.tenant, q.user);
    UnreadCountAgrees(s, p, q.tenant, q.user);
  }
}
