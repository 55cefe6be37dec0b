/** Concurrent notification calls in flight, as both database drivers run them: how far
    each has come, which entry of the history is its own, and what follows for the
    callers. */
module Calls {
  import opened Domain
  import opened StoreApi
  import opened Memory
  import opened History

  /** Collided: the write hit the unique triple, the lookup of the row is to come.
      Located: the row passed the tenant check, the field update is to come.
      Refused: answered with a conflict, because a row of another triple holds the id.
      Stuck: a branch the driver reports as an internal error. */
  datatype Phase = Ready | Collided | Located | Finished(r: StoreResult) | Refused(id: Str) | Stuck

  /** `logged` is the position of the call's entry in the log, once it has one. */
  datatype Call = Call(op: StoreOp, phase: Phase, logged: Option<nat>)

  /** Whether the driver sends the id in the caller's struct. */
  datatype Wire = SendsId | ServerAssigns

  /** An entry executes the call it belongs to, under the id minted for it. */
  predicate Executes(wire: Wire, op: StoreOp, logged: StoreOp) {
    if !op.Create? then logged == op
    else logged.Create? && logged.n == if wire == SendsId then op.n else op.n.(id := [])
  }

  /** How far a call has come, and what it has in the log. Only EntDB updates in two
      requests, and only Postgres refuses an id. */
  ghost predicate CallOk(wire: Wire, ref: MemState, calls: seq<Call>, log: seq<Entry>, c: nat)
    requires c < |calls|
  {
    var call := calls[c];
    && (call.op.Create? || call.op.Update?)
    && (call.logged.Some? ==>
         var i := call.logged.value;
         i < |log| && log[i].call == c && Executes(wire, call.op, log[i].op))
    && match call.phase
       case Ready => call.logged == None
       case Located => wire == ServerAssigns && call.logged == None && call.op.Update?
         && call.op.id in ref.notifs && ref.notifs[call.op.id].tenant == call.op.tenant
       case Collided => call.logged.Some? && call.op.Create?
         && var k := NotifKey(call.op.n);
         k in ref.notifByKey && log[call.logged.value].result == Created(ref.notifByKey[k], false)
       case Finished(r) => call.logged.Some? && log[call.logged.value].result == r
       case Refused(id) => wire == SendsId && call.logged == None && call.op.Create?
         && (call.op.n.id != [] ==> id == call.op.n.id)
         && id in ref.notifs && NotifKey(ref.notifs[id]) != NotifKey(call.op.n)
       case Stuck => false
  }

  ghost predicate CallsOk(wire: Wire, ref: MemState, calls: seq<Call>, log: seq<Entry>) {
    && (forall c | 0 <= c < |calls| :: CallOk(wire, ref, calls, log, c))
    && (forall i | 0 <= i < |log| :: log[i].call < |calls| && calls[log[i].call].logged == Some(i))
  }

  /** The calls in flight, the reference beside them, and the log of its executions. */
  datatype Flight = Flight(calls: seq<Call>, ref: MemState, log: seq<Entry>)

  ghost predicate Sound(wire: Wire, f: Flight) {
    CallsOk(wire, f.ref, f.calls, f.log)
  }

  /** Before any call has taken a step. */
  ghost predicate Starts(start: MemState, f: Flight) {
    && Consistent(start) && f.ref == start && f.log == []
    && forall c | 0 <= c < |f.calls| ::
         (f.calls[c].op.Create? || f.calls[c].op.Update?) && f.calls[c].phase == Ready && f.calls[c].logged == None
  }

  function SetPhase(f: Flight, c: nat, phase: Phase): Flight
    requires c < |f.calls|
  {
    f.(calls := f.calls[c := f.calls[c].(phase := phase)])
  }

  /** The decisive request of call c: the reference executes op. */
  function Record(f: Flight, c: nat, op: StoreOp, phase: Phase): Flight
    requires c < |f.calls|
  {
    var (ref, result) := RefStep(f.ref, op);
    Flight(f.calls[c := Call(f.calls[c].op, phase, Some(|f.log|))], ref, f.log + [Entry(c, op, result)])
  }

  /** A step of call c: it may append the call's one entry. */
  ghost predicate OneCallMoves(calls: seq<Call>, log: seq<Entry>, calls': seq<Call>, log': seq<Entry>, c: nat) {
    && c < |calls| == |calls'|
    && (forall d | 0 <= d < |calls| && d != c :: calls'[d] == calls[d])
    && if calls'[c].logged == calls[c].logged then log' == log else (
         && calls[c].logged == None && calls'[c].logged == Some(|log|)
         && |log'| == |log| + 1 && log <= log' && log'[|log|].call == c)
  }

  /** The other calls keep their progress when nothing they rely on is lost. */
  lemma StepKeepsCalls(wire: Wire, ref: MemState, calls: seq<Call>, log: seq<Entry>,
                       ref': MemState, calls': seq<Call>, log': seq<Entry>, c: nat)
    requires CallsOk(wire, ref, calls, log) && OneCallMoves(calls, log, calls', log', c)
    requires NotifsKept(ref.notifs, ref.notifByKey, ref'.notifs, ref'.notifByKey)
    requires CallOk(wire, ref', calls', log', c)
    ensures CallsOk(wire, ref', calls', log')
  {
    forall d | 0 <= d < |calls| ensures CallOk(wire, ref', calls', log', d) {
      assert CallOk(wire, ref, calls, log, d);
      if d != c && calls[d].logged.Some? { assert log'[calls[d].logged.value] == log[calls[d].logged.value]; }
    }
  }

  lemma RecordKeepsSound(wire: Wire, f: Flight, c: nat, op: StoreOp, phase: Phase)
    requires Sound(wire, f) && c < |f.calls| && f.calls[c].logged == None
    requires (op.Create? || op.Update?) && NoIdClash(f.ref, op) && Executes(wire, f.calls[c].op, op)
    requires var (ref, r) := RefStep(f.ref, op);
      if phase == Collided then f.calls[c].op.Create? && NotifKey(op.n) in f.ref.notifByKey else phase == Finished(r)
    ensures Sound(wire, Record(f, c, op, phase))
  {
    var g := Record(f, c, op, phase);
    assert CallOk(wire, f.ref, f.calls, f.log, c);
    assert g.log[|f.log|].call == c;
    StepKeepsCalls(wire, f.ref, f.calls, f.log, g.ref, g.calls, g.log, c);
  }

  lemma PhaseKeepsSound(wire: Wire, f: Flight, c: nat, phase: Phase)
    requires Sound(wire, f) && c < |f.calls|
    requires CallOk(wire, f.ref, SetPhase(f, c, phase).calls, f.log, c)
    ensures Sound(wire, SetPhase(f, c, phase))
  {
    StepKeepsCalls(wire, f.ref, f.calls, f.log, f.ref, SetPhase(f, c, phase).calls, f.log, c);
  }

  /** What a client may rely on at any moment: the calls that have taken effect form
      one run of the reference from start to ref, each at most once; a finished call
      got exactly the answer it has in that run; a refused one has no effect, and a
      row of another triple holds its id; none has reached an internal error. */
  ghost predicate Linearized(wire: Wire, start: MemState, ref: MemState, calls: seq<Call>, log: seq<Entry>) {
    && Runnable(start, Ops(log)) && MemRun(start, Ops(log)) == (ref, Results(log))
    && (forall i, j | 0 <= i < |log| && 0 <= j < |log| && log[i].call == log[j].call :: i == j)
    && (forall c | 0 <= c < |calls| :: calls[c].phase != Stuck)
    && (forall c | 0 <= c < |calls| && calls[c].phase.Finished? ::
          calls[c].phase.r != Failure(Internal) && exists i :: AnsweredBy(wire, calls, log, c, i))
    && (forall c | 0 <= c < |calls| && calls[c].phase.Refused? ::
          && (forall i | 0 <= i < |log| :: log[i].call != c)
          && var id := calls[c].phase.id;
             id in ref.notifs && calls[c].op.Create? && NotifKey(ref.notifs[id]) != NotifKey(calls[c].op.n))
  }

  ghost predicate AnsweredBy(wire: Wire, calls: seq<Call>, log: seq<Entry>, c: nat, i: int) {
    && c < |calls| && calls[c].phase.Finished? && 0 <= i < |log| && log[i].call == c
    && Executes(wire, calls[c].op, log[i].op) && log[i].result == calls[c].phase.r
  }

  lemma CallsLinearize(wire: Wire, start: MemState, ref: MemState, calls: seq<Call>, log: seq<Entry>)
    requires LogIsRun(start, ref, log) && CallsOk(wire, ref, calls, log)
    ensures Linearized(wire, start, ref, calls, log)
  {
    forall c | 0 <= c < |calls| ensures calls[c].phase != Stuck {
      assert CallOk(wire, ref, calls, log, c);
    }
    forall c | 0 <= c < |calls| && calls[c].phase.Finished?
      ensures calls[c].phase.r != Failure(Internal) && exists i :: AnsweredBy(wire, calls, log, c, i)
    {
      assert CallOk(wire, ref, calls, log, c);
      assert AnsweredBy(wire, calls, log, c, calls[c].logged.value);
      LogHasNoInternalError(start, ref, log, calls[c].logged.value);
    }
    forall c | 0 <= c < |calls| && calls[c].phase.Refused?
      ensures (forall i | 0 <= i < |log| :: log[i].call != c)
        && var id := calls[c].phase.id;
           id in ref.notifs && calls[c].op.Create? && NotifKey(ref.notifs[id]) != NotifKey(calls[c].op.n)
    {
      assert CallOk(wire, ref, calls, log, c);
    }
  }

  /** The reference never answers with an internal error. */
  lemma LogHasNoInternalError(start: MemState, ref: MemState, log: seq<Entry>, i: nat)
    requires LogIsRun(start, ref, log) && i < |log|
    ensures log[i].result != Failure(Internal)
  {
    RunHasNoInternalError(start, Ops(log), i);
    assert Results(log)[i] == log[i].result;
  }

  lemma {:induction false} RunHasNoInternalError(s: MemState, ops: seq<StoreOp>, i: nat)
    requires Runnable(s, ops) && i < |ops|
    ensures MemRun(s, ops).1[i] != Failure(Internal)
    decreases |ops|
  {
    if i > 0 { RunHasNoInternalError(MemStep(s, ops[0]).0, ops[1..], i - 1); }
  }

  /** Real-time order: a call finished at an earlier moment precedes, at every later
      one, a call that had not started then. */
  lemma EarlierFinishedFirst(wire: Wire, ref: MemState, calls: seq<Call>, log: seq<Entry>,
                             ref': MemState, calls': seq<Call>, log': seq<Entry>, a: nat, b: nat)
    requires CallsOk(wire, ref, calls, log) && CallsOk(wire, ref', calls', log') && log <= log'
    requires a < |calls| && b < |calls| && calls[a].phase.Finished? && calls[b].phase == Ready
    ensures forall p, q | 0 <= p < |log'| && 0 <= q < |log'| && log'[p].call == a && log'[q].call == b :: p < q
  {
    assert CallOk(wire, ref, calls, log, a) && CallOk(wire, ref, calls, log, b);
    assert log'[calls[a].logged.value] == log[calls[a].logged.value];
    assert forall q | 0 <= q < |log| :: log'[q] == log[q] && log[q].call != b;
  }

  predicate CreatedBy(calls: seq<Call>, c: nat, k: Key, id: Str, isNew: bool) {
    && c < |calls| && calls[c].op.Create? && NotifKey(calls[c].op.n) == k
    && calls[c].phase == Finished(Created(id, isNew))
  }

  /** Caller w alone created the row, and every finished caller for k names it. */
  ghost predicate OneCreator(calls: seq<Call>, k: Key, w: nat, id: Str) {
    && CreatedBy(calls, w, k, id, true)
    && forall d | 0 <= d < |calls| && calls[d].op.Create? && NotifKey(calls[d].op.n) == k && calls[d].phase.Finished? ::
         CreatedBy(calls, d, k, id, d == w)
  }

  /** Once any caller for a new triple has finished there is one creator, and the
      reference's row of the triple has the id everyone got. */
  lemma CreatorOf(wire: Wire, start: MemState, ref: MemState, calls: seq<Call>, log: seq<Entry>, c: nat, k: Key)
    returns (w: nat, id: Str)
    requires HistoryOk(start, ref, log) && CallsOk(wire, ref, calls, log) && k !in start.notifByKey
    requires c < |calls| && calls[c].phase.Finished? && calls[c].op.Create? && NotifKey(calls[c].op.n) == k
    ensures OneCreator(calls, k, w, id) && k in ref.notifByKey && ref.notifByKey[k] == id
  {
    assert CallOk(wire, ref, calls, log, c);
    assert NotifKey(log[calls[c].logged.value].op.n) == k;
    var p := TheInsert(start, ref, log, k);
    id := log[p].result.id;
    w := CreatorFromLog(wire, ref, calls, log, k, p);
  }

  lemma CreatorFromLog(wire: Wire, ref: MemState, calls: seq<Call>, log: seq<Entry>, k: Key, p: nat) returns (w: nat)
    requires CallsOk(wire, ref, calls, log) && p < |log| && IsInsertOf(log[p], k)
    requires forall q | 0 <= q < |log| && log[q].op.Create? && NotifKey(log[q].op.n) == k ::
               log[q].result == Created(log[p].result.id, q == p)
    ensures OneCreator(calls, k, w, log[p].result.id)
  {
    w := log[p].call;
    assert CallOk(wire, ref, calls, log, w);
    forall d | 0 <= d < |calls| && calls[d].op.Create? && NotifKey(calls[d].op.n) == k && calls[d].phase.Finished?
      ensures CreatedBy(calls, d, k, log[p].result.id, d == w)
    {
      assert CallOk(wire, ref, calls, log, d);
      assert NotifKey(log[calls[d].logged.value].op.n) == k;
    }
  }

  // ---- Progress ----

  /** Steps a call can still take. */
  function StepsLeft(phase: Phase): nat {
    match phase
    case Ready => 2
    case Collided => 1
    case Located => 1
    case _ => 0
  }

  function AllStepsLeft(calls: seq<Call>): nat {
    if calls == [] then 0 else StepsLeft(calls[0].phase) + AllStepsLeft(calls[1..])
  }

  lemma {:induction false} StepsLeftPut(calls: seq<Call>, c: nat, call: Call)
    requires c < |calls|
    ensures AllStepsLeft(calls[c := call])
      == AllStepsLeft(calls) - StepsLeft(calls[c].phase) + StepsLeft(call.phase)
  {
    if c > 0 {
      StepsLeftPut(calls[1..], c - 1, call);
      assert calls[c := call][1..] == calls[1..][c - 1 := call];
    } else {
      assert calls[c := call][1..] == calls[1..];
    }
  }

  lemma {:induction false} StepsLeftAtMost(calls: seq<Call>)
    ensures AllStepsLeft(calls) <= 2 * |calls|
  {
    if calls != [] { StepsLeftAtMost(calls[1..]); }
  }

  predicate Answered(call: Call) {
    call.phase.Finished? || call.phase.Refused?
  }
}
