/** What a run of calls does to the rows, told from the calls alone: which rows it
    inserts, and the status and timestamps it leaves on each. */
module Effects {
  import opened Domain
  import opened StoreApi
  import opened Memory

  /** The call writes the status of the tenant's row with that id. */
  predicate Hits(op: StoreOp, tenant: Str, id: Str) {
    op.Update? && op.tenant == tenant && op.id == id
  }

  /** The last status the calls write to the row, or the one it had. */
  function LastStatus(ops: seq<StoreOp>, tenant: Str, id: Str, initial: Status): Status {
    if ops == [] then initial
    else LastStatus(ops[1..], tenant, id, if Hits(ops[0], tenant, id) then ops[0].status else initial)
  }

  /** When the calls last write that status to the row, or the time it had. */
  function LastTime(ops: seq<StoreOp>, tenant: Str, id: Str, status: Status, initial: Int64): Int64 {
    if ops == [] then initial
    else LastTime(ops[1..], tenant, id, status,
      if Hits(ops[0], tenant, id) && ops[0].status == status then ops[0].at else initial)
  }

  /** The row after the calls: the last status written, and each timestamp from the
      last write of its status. */
  function Rewritten(ops: seq<StoreOp>, n: Notification): (r: Notification)
    ensures SameCreation(n, r)
  {
    n.(status := LastStatus(ops, n.tenant, n.id, n.status),
       deliveredAt := LastTime(ops, n.tenant, n.id, Delivered, n.deliveredAt),
       ackAt := LastTime(ops, n.tenant, n.id, Acked, n.ackAt),
       readAt := LastTime(ops, n.tenant, n.id, Read, n.readAt))
  }

  lemma RewrittenCons(op: StoreOp, ops: seq<StoreOp>, n: Notification)
    ensures Rewritten([op] + ops, n)
      == Rewritten(ops, if Hits(op, n.tenant, n.id) then Stamp(n, op.status, op.at) else n)
    ensures Rewritten([], n) == n
  {
    assert ([op] + ops)[1..] == ops;
  }

  /** A row that was there before the run is rewritten by the run's own writes to it. */
  lemma {:induction false} OldRowAfter(s: MemState, ops: seq<StoreOp>, id: Str)
    requires Filed(s) && NoClashAlong(s, ops) && id in s.notifs
    ensures var t := MemRun(s, ops).0; id in t.notifs && t.notifs[id] == Rewritten(ops, s.notifs[id])
    decreases |ops|
  {
    if ops != [] {
      StepKeepsFiled(s, ops[0]);
      OldRowStep(s, ops[0], id);
      OldRowAfter(MemStep(s, ops[0]).0, ops[1..], id);
    }
  }

  lemma OldRowStep(s: MemState, op: StoreOp, id: Str)
    requires Filed(s) && NoIdClash(s, op) && id in s.notifs
    ensures var t := MemStep(s, op).0; var n := s.notifs[id];
      id in t.notifs && t.notifs[id] == if Hits(op, n.tenant, id) then Stamp(n, op.status, op.at) else n
  {}

  /** Call j creates the triple for the first time, and the row gets that id. */
  predicate InsertsAt(s: MemState, ops: seq<StoreOp>, j: int, id: Str) {
    && 0 <= j < |ops| && ops[j].Create? && NewId(ops[j].n.id, ops[j].minted) == id
    && NotifKey(ops[j].n) !in s.notifByKey
    && forall i | 0 <= i < j && ops[i].Create? :: NotifKey(ops[i].n) != NotifKey(ops[j].n)
  }

  /** The row call j inserts, after the calls that follow it. */
  function InsertedRow(ops: seq<StoreOp>, j: nat): Notification
    requires j < |ops| && ops[j].Create?
  {
    Rewritten(ops[j + 1..], ops[j].n.(id := NewId(ops[j].n.id, ops[j].minted)))
  }

  lemma InsertsShift(s: MemState, ops: seq<StoreOp>, j: int, id: Str)
    requires Filed(s) && ops != [] && j >= 1
    ensures InsertsAt(s, ops, j, id) <==> InsertsAt(MemStep(s, ops[0]).0, ops[1..], j - 1, id)
  {
    var t, rest := MemStep(s, ops[0]).0, ops[1..];
    assert forall k :: k in t.notifByKey <==> k in s.notifByKey || (ops[0].Create? && k == NotifKey(ops[0].n));
    if InsertsAt(t, rest, j - 1, id) {
      forall i | 0 <= i < j && ops[i].Create? ensures NotifKey(ops[i].n) != NotifKey(ops[j].n) {
        if i > 0 { assert rest[i - 1] == ops[i]; }
      }
    }
  }

  /** A row the run inserts is there afterwards, rewritten by the calls that follow. */
  lemma {:induction false} NewRowAfter(s: MemState, ops: seq<StoreOp>, j: nat, id: Str)
    requires Filed(s) && NoClashAlong(s, ops) && InsertsAt(s, ops, j, id)
    ensures var t := MemRun(s, ops).0; id !in s.notifs && id in t.notifs && t.notifs[id] == InsertedRow(ops, j)
    decreases |ops|
  {
    StepKeepsFiled(s, ops[0]);
    var s1 := MemStep(s, ops[0]).0;
    if j == 0 {
      OldRowAfter(s1, ops[1..], id);
    } else {
      InsertsShift(s, ops, j, id);
      NewRowAfter(s1, ops[1..], j - 1, id);
      assert ops[1..][j..] == ops[j + 1..];
      if id in s.notifs { OldRowStep(s, ops[0], id); }
    }
  }

  /** And there are no other rows. */
  lemma {:induction false} RowsComeFromCalls(s: MemState, ops: seq<StoreOp>, id: Str)
    requires Filed(s) && NoClashAlong(s, ops) && id in MemRun(s, ops).0.notifs && id !in s.notifs
    ensures exists j :: InsertsAt(s, ops, j, id)
    decreases |ops|
  {
    if ops != [] {
      StepKeepsFiled(s, ops[0]);
      var s1 := MemStep(s, ops[0]).0;
      if id in s1.notifs {
        assert InsertsAt(s, ops, 0, id);
      } else {
        RowsComeFromCalls(s1, ops[1..], id);
        var j :| InsertsAt(s1, ops[1..], j, id);
        InsertsShift(s, ops, j + 1, id);
        assert InsertsAt(s, ops, j + 1, id);
      }
    }
  }

  /** A row of the state after the calls, told from the calls. */
  ghost predicate RowAfter(s: MemState, ops: seq<StoreOp>, n: Notification) {
    || (n.id in s.notifs && n == Rewritten(ops, s.notifs[n.id]))
    || exists j :: InsertsAt(s, ops, j, n.id) && n == InsertedRow(ops, j)
  }

  /** After a run that reuses no id the store holds exactly the rows the calls tell. */
  lemma RowsAreFromTheCalls(s: MemState, ops: seq<StoreOp>, n: Notification)
    requires Filed(s) && NoClashAlong(s, ops)
    ensures var t := MemRun(s, ops).0; n.id in t.notifs && t.notifs[n.id] == n <==> RowAfter(s, ops, n)
  {
    var t := MemRun(s, ops).0;
    if n.id in s.notifs {
      OldRowAfter(s, ops, n.id);
    } else if n.id in t.notifs {
      RowsComeFromCalls(s, ops, n.id);
      var j :| InsertsAt(s, ops, j, n.id);
      NewRowAfter(s, ops, j, n.id);
    }
    if j :| InsertsAt(s, ops, j, n.id) && n == InsertedRow(ops, j) {
      NewRowAfter(s, ops, j, n.id);
    }
  }

  /** Runs split: the calls from k on run from the state the first k leave. */
  lemma {:induction false} RunSplits(s: MemState, ops: seq<StoreOp>, k: nat)
    requires Filed(s) && k <= |ops|
    ensures MemRun(MemRun(s, ops[..k]).0, ops[k..]).0 == MemRun(s, ops).0
    ensures NoClashAlong(s, ops) ==> NoClashAlong(s, ops[..k]) && NoClashAlong(MemRun(s, ops[..k]).0, ops[k..])
    decreases |ops|
  {
    if k == 0 {
      assert ops[0..] == ops;
    } else {
      StepKeepsFiled(s, ops[0]);
      RunSplits(MemStep(s, ops[0]).0, ops[1..], k - 1);
      assert ops[..k][1..] == ops[1..][..k - 1] && ops[k..] == ops[1..][k - 1..];
    }
  }
}
