/** The history of a concurrent execution against the reference: which call took
    effect when, and what the reference answers if the calls run in that order. */
module History {
  import opened Domain
  import opened StoreApi
  import opened Memory

  /** The reference's execution of a call, at the moment that decides it. */
  datatype Entry = Entry(call: nat, op: StoreOp, result: StoreResult)

  function RefStep(ref: MemState, op: StoreOp): (MemState, StoreResult) {
    match op
    case Create(n, minted) => MemCreate(ref, n, minted)
    case Update(tenant, id, status, at) => MemUpdate(ref, tenant, id, status, at)
    case _ => (ref, Failure(Internal))
  }

  function Ops(log: seq<Entry>): (r: seq<StoreOp>)
    ensures |r| == |log| && forall i | 0 <= i < |log| :: r[i] == log[i].op
  {
    seq(|log|, i requires 0 <= i < |log| => log[i].op)
  }

  function Results(log: seq<Entry>): (r: seq<StoreResult>)
    ensures |r| == |log| && forall i | 0 <= i < |log| :: r[i] == log[i].result
  {
    seq(|log|, i requires 0 <= i < |log| => log[i].result)
  }

  /** The log is a run of the reference from start, ending in ref. */
  ghost predicate LogIsRun(start: MemState, ref: MemState, log: seq<Entry>) {
    && Runnable(start, Ops(log))
    && MemRun(start, Ops(log)) == (ref, Results(log))
  }

  predicate IsInsert(e: Entry) {
    e.op.Create? && e.result.Created? && e.result.isNew
  }

  predicate IsInsertOf(e: Entry, k: Key) {
    IsInsert(e) && NotifKey(e.op.n) == k
  }

  /** Each triple is inserted at most once, and only if start did not have it. */
  ghost predicate InsertedOnce(start: map<Key, Str>, log: seq<Entry>) {
    && (forall i, j, k | 0 <= i < |log| && 0 <= j < |log| && IsInsertOf(log[i], k) && IsInsertOf(log[j], k) :: i == j)
    && (forall i, k | 0 <= i < |log| && IsInsertOf(log[i], k) :: k !in start)
  }

  /** Every create of a triple names the row the index names. */
  ghost predicate CreatesNameTheRow(index: map<Key, Str>, log: seq<Entry>) {
    forall i | 0 <= i < |log| && log[i].op.Create? ::
      var k := NotifKey(log[i].op.n);
      k in index && log[i].result.Created? && log[i].result.id == index[k]
  }

  ghost predicate NewKeysWereInserted(start: map<Key, Str>, index: map<Key, Str>, log: seq<Entry>) {
    forall k | k in index && k !in start :: exists i :: 0 <= i < |log| && IsInsertOf(log[i], k)
  }

  ghost predicate HistoryOk(start: MemState, ref: MemState, log: seq<Entry>) {
    && Consistent(ref) && LogIsRun(start, ref, log)
    && InsertedOnce(start.notifByKey, log)
    && CreatesNameTheRow(ref.notifByKey, log)
    && NewKeysWereInserted(start.notifByKey, ref.notifByKey, log)
  }

  /** Executing one more call of the reference extends the run. */
  lemma LogExtends(start: MemState, ref: MemState, log: seq<Entry>, c: nat, op: StoreOp)
    requires Consistent(ref) && LogIsRun(start, ref, log) && NoIdClash(ref, op)
    ensures Consistent(MemStep(ref, op).0)
    ensures LogIsRun(start, MemStep(ref, op).0, log + [Entry(c, op, MemStep(ref, op).1)])
  {
    var t := log + [Entry(c, op, MemStep(ref, op).1)];
    assert Ops(t) == Ops(log) + [op];
    assert Results(t) == Results(log) + [MemStep(ref, op).1];
    StepKeepsConsistent(ref, op);
    RunSnoc(start, Ops(log), op);
  }

  lemma InsertedOnceGrows(start: map<Key, Str>, index: map<Key, Str>, log: seq<Entry>, e: Entry)
    requires InsertedOnce(start, log) && CreatesNameTheRow(index, log)
    requires forall k | IsInsertOf(e, k) :: k !in index && k !in start
    ensures InsertedOnce(start, log + [e])
  {
    var t := log + [e];
    forall i, k | 0 <= i < |log| && IsInsertOf(t[i], k) ensures k in index && IsInsertOf(log[i], k) {}
  }

  lemma CreatesNameTheRowGrows(index: map<Key, Str>, index': map<Key, Str>, log: seq<Entry>, e: Entry)
    requires CreatesNameTheRow(index, log)
    requires forall k | k in index :: k in index' && index'[k] == index[k]
    requires e.op.Create? ==> CreatesNameTheRow(index', [e])
    ensures CreatesNameTheRow(index', log + [e])
  {
    var t := log + [e];
    forall i | 0 <= i < |t| && t[i].op.Create?
      ensures var k := NotifKey(t[i].op.n); k in index' && t[i].result.Created? && t[i].result.id == index'[k]
    {
      if i < |log| { assert t[i] == log[i]; } else { assert [e][0] == t[i]; }
    }
  }

  lemma NewKeysGrow(start: map<Key, Str>, index: map<Key, Str>, index': map<Key, Str>, log: seq<Entry>, e: Entry)
    requires NewKeysWereInserted(start, index, log)
    requires forall k | k in index' && k !in index :: IsInsertOf(e, k)
    ensures NewKeysWereInserted(start, index', log + [e])
  {
    var t := log + [e];
    forall k | k in index' && k !in start ensures exists i :: 0 <= i < |t| && IsInsertOf(t[i], k) {
      if k in index {
        var i :| 0 <= i < |log| && IsInsertOf(log[i], k);
        assert t[i] == log[i];
      } else {
        assert t[|log|] == e;
      }
    }
  }

  lemma StartKeysStay(start: MemState, ref: MemState, log: seq<Entry>)
    requires LogIsRun(start, ref, log)
    ensures forall k | k in start.notifByKey :: k in ref.notifByKey
  {
    RunKeepsConsistent(start, Ops(log));
    RunKeepsRows(start, Ops(log));
  }

  lemma InsertsExtend(start: map<Key, Str>, ref: MemState, log: seq<Entry>, c: nat, op: StoreOp)
    requires op.Create? || op.Update?
    requires InsertedOnce(start, log) && CreatesNameTheRow(ref.notifByKey, log)
    requires NewKeysWereInserted(start, ref.notifByKey, log)
    requires forall k | k in start :: k in ref.notifByKey
    ensures var t := log + [Entry(c, op, RefStep(ref, op).1)];
      && InsertedOnce(start, t)
      && CreatesNameTheRow(RefStep(ref, op).0.notifByKey, t)
      && NewKeysWereInserted(start, RefStep(ref, op).0.notifByKey, t)
  {
    var e := Entry(c, op, RefStep(ref, op).1);
    var index, index' := ref.notifByKey, RefStep(ref, op).0.notifByKey;
    InsertedOnceGrows(start, index, log, e);
    CreatesNameTheRowGrows(index, index', log, e);
    NewKeysGrow(start, index, index', log, e);
  }

  lemma HistoryExtends(start: MemState, ref: MemState, log: seq<Entry>, c: nat, op: StoreOp)
    requires HistoryOk(start, ref, log)
    requires (op.Create? || op.Update?) && NoIdClash(ref, op)
    ensures HistoryOk(start, RefStep(ref, op).0, log + [Entry(c, op, RefStep(ref, op).1)])
  {
    LogExtends(start, ref, log, c, op);
    StartKeysStay(start, ref, log);
    InsertsExtend(start.notifByKey, ref, log, c, op);
  }

  /** The log has exactly one insert of each new triple, and every create of it
      answers with that row's id. */
  lemma TheInsert(start: MemState, ref: MemState, log: seq<Entry>, k: Key) returns (p: nat)
    requires HistoryOk(start, ref, log) && k !in start.notifByKey
    requires exists q :: 0 <= q < |log| && log[q].op.Create? && NotifKey(log[q].op.n) == k
    ensures p < |log| && IsInsertOf(log[p], k)
    ensures forall q | 0 <= q < |log| && log[q].op.Create? && NotifKey(log[q].op.n) == k ::
              log[q].result == Created(log[p].result.id, q == p)
  {
    assert k in ref.notifByKey;
    p :| 0 <= p < |log| && IsInsertOf(log[p], k);
    forall q | 0 <= q < |log| && log[q].op.Create? && NotifKey(log[q].op.n) == k
      ensures log[q].result == Created(log[p].result.id, q == p)
    {
      assert IsInsertOf(log[q], k) ==> q == p;
    }
  }
}
