/** AckNotification (internal/server/handlers.go): a scoped lookup, then a status
    write that is scoped to the tenant only. Other calls run in between. */
module Ack {
  import opened Domain
  import opened StoreApi
  import opened Memory

  datatype AckResponse = Acknowledged | InvalidArgument | CodeNotFound

  /** The handler on an already trimmed id; `between` are the store calls that other
      requests make after its lookup and before its write. */
  ghost function AckNotification(s: MemState, tenant: Str, user: Str, id: Str, now: Int64, between: seq<StoreOp>)
    : (MemState, AckResponse)
    requires Filed(s)
  {
    var s1 := MemRun(s, between).0;
    if id == [] then (s1, InvalidArgument)
    else if MemGet(s, tenant, user, id).Failure? then (s1, CodeNotFound)
    else
      var (s2, r) := MemUpdate(s1, tenant, id, Read, now);
      (s2, if r.Failure? then CodeNotFound else Acknowledged)
  }

  /** The call inserts a new row under that id, over whatever row was there. */
  predicate TakesOver(s: MemState, op: StoreOp, id: Str) {
    op.Create? && NotifKey(op.n) !in s.notifByKey && NewId(op.n.id, op.minted) == id
  }

  /** The triple whose row is under id after the calls: the last take-over's. */
  ghost function Holder(s: MemState, ops: seq<StoreOp>, id: Str, first: Key): Key
    requires Filed(s)
    decreases |ops|
  {
    if ops == [] then first
    else
      StepKeepsFiled(s, ops[0]);
      Holder(MemStep(s, ops[0]).0, ops[1..], id, if TakesOver(s, ops[0], id) then NotifKey(ops[0].n) else first)
  }

  lemma HolderStep(s: MemState, op: StoreOp, id: Str)
    requires Filed(s) && id in s.notifs
    ensures var t := MemStep(s, op).0;
      && id in t.notifs
      && NotifKey(t.notifs[id]) == if TakesOver(s, op, id) then NotifKey(op.n) else NotifKey(s.notifs[id])
  {}

  lemma {:induction false} HolderHolds(s: MemState, ops: seq<StoreOp>, id: Str)
    requires Filed(s) && id in s.notifs
    ensures var t := MemRun(s, ops).0;
      id in t.notifs && NotifKey(t.notifs[id]) == Holder(s, ops, id, NotifKey(s.notifs[id]))
    decreases |ops|
  {
    if ops != [] {
      StepKeepsFiled(s, ops[0]);
      HolderStep(s, ops[0], id);
      HolderHolds(MemStep(s, ops[0]).0, ops[1..], id);
    }
  }

  /** For any calls in between, reused ids included: once the lookup has found the
      caller's row, the write goes to the row of the last call that took over the id,
      if any did. It hits the caller's own row exactly when that holder is of the
      caller's tenant and user, another user's row when it is of the tenant only, and
      answers not found, changing nothing, when it is of another tenant. */
  lemma AckHitsTheHolder(s: MemState, tenant: Str, user: Str, id: Str, now: Int64, between: seq<StoreOp>)
    requires Filed(s)
    ensures var s1 := MemRun(s, between).0;
      var (s2, r) := AckNotification(s, tenant, user, id, now, between);
      if id == [] then s2 == s1 && r == InvalidArgument
      else if id !in s.notifs || !Owned(s.notifs[id], tenant, user) then s2 == s1 && r == CodeNotFound
      else
        var holder := Holder(s, between, id, NotifKey(s.notifs[id]));
        && id in s1.notifs && NotifKey(s1.notifs[id]) == holder
        && (Owned(s1.notifs[id], tenant, user) <==> holder.tenant == tenant && holder.user == user)
        && if holder.tenant == tenant
           then r == Acknowledged
             && s2 == s1.(notifs := s1.notifs[id := s1.notifs[id].(status := Read, readAt := now)])
           else r == CodeNotFound && s2 == s1
  {
    if id in s.notifs { HolderHolds(s, between, id); }
  }

  /** Calls that do not reuse ids leave the holder alone. */
  lemma {:induction false} CleanRunKeepsHolder(s: MemState, ops: seq<StoreOp>, id: Str, first: Key)
    requires Filed(s) && id in s.notifs && NoClashAlong(s, ops)
    ensures Holder(s, ops, id, first) == first
    decreases |ops|
  {
    if ops != [] {
      StepKeepsFiled(s, ops[0]);
      HolderStep(s, ops[0], id);
      CleanRunKeepsHolder(MemStep(s, ops[0]).0, ops[1..], id, first);
    }
  }

  /** So without reused ids the handler writes only the caller's own row, exactly when
      the lookup found it, and the write's not-found answer is never given. */
  lemma AckWritesOwnRowOnly(s: MemState, tenant: Str, user: Str, id: Str, now: Int64, between: seq<StoreOp>)
    requires Filed(s) && NoClashAlong(s, between)
    ensures var s1 := MemRun(s, between).0;
      var (s2, r) := AckNotification(s, tenant, user, id, now, between);
      var found := id != [] && id in s.notifs && Owned(s.notifs[id], tenant, user);
      && (r == Acknowledged <==> found)
      && (!found ==> s2 == s1)
      && (found ==>
            && id in s1.notifs && SameCreation(s.notifs[id], s1.notifs[id])
            && s2 == s1.(notifs := s1.notifs[id := s1.notifs[id].(status := Read, readAt := now)]))
  {
    AckHitsTheHolder(s, tenant, user, id, now, between);
    RunKeepsRows(s, between);
    if id in s.notifs { CleanRunKeepsHolder(s, between, id, NotifKey(s.notifs[id])); }
  }

  /** A reused id does misdirect an acknowledgement: from an empty store, the caller's
      row is created, looked up, and replaced by a create under its id for another
      user of the tenant; the write then marks that user's row read. */
  lemma ReusedIdMisdirectsAck(mine: Notification, theirs: Notification, now: Int64)
    requires mine.id == theirs.id != [] && mine.tenant == theirs.tenant && mine.user != theirs.user
    ensures Filed(EMPTY)
    ensures var s := MemStep(EMPTY, Create(mine, [])).0;
      && Filed(s) && MemGet(s, mine.tenant, mine.user, mine.id).Row?
      && var (t, r) := AckNotification(s, mine.tenant, mine.user, mine.id, now, [Create(theirs, [])]);
         r == Acknowledged && mine.id in t.notifs && t.notifs[mine.id] == theirs.(status := Read, readAt := now)
  {
    var s := MemStep(EMPTY, Create(mine, [])).0;
    StepKeepsFiled(EMPTY, Create(mine, []));
    var ops := [Create(theirs, [])];
    assert ops[1..] == [];
    assert NotifKey(theirs) != NotifKey(mine);
    StepKeepsFiled(s, ops[0]);
    assert MemRun(s, ops).0 == MemStep(s, ops[0]).0;
    AckHitsTheHolder(s, mine.tenant, mine.user, mine.id, now, ops);
  }
}
