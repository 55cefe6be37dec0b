/** Concurrent CreateNotification and UpdateStatus calls against Postgres. The
    insert and the follow-up select are separate statements; other sessions run
    between them. */
module PostgresRace {
  import opened Domain
  import opened StoreApi
  import opened Memory
  import opened Postgres
  import opened History
  import opened Calls

  datatype Sys = Sys(rows: set<Notification>, f: Flight)

  datatype Step = Insert(c: nat, minted: Str) | Select(c: nat) | Exec(c: nat)

  predicate Enabled(s: Sys, step: Step) {
    && step.c < |s.f.calls|
    && var call := s.f.calls[step.c];
      match step
      case Insert(_, _) => call.op.Create? && call.phase == Ready
      case Select(_) => call.op.Create? && call.phase == Collided
      case Exec(_) => call.op.Update? && call.phase == Ready
  }

  /** A primary-key violation answers with a conflict and has no effect. */
  ghost function Next(s: Sys, step: Step): Sys
    requires Enabled(s, step)
  {
    var op := s.f.calls[step.c].op;
    match step
    case Insert(c, minted) =>
      var m := op.n.(id := NewId(op.n.id, minted));
      var (rows, outcome) := InsertNotif(s.rows, m);
      (match outcome
       case Inserted => Sys(rows, Record(s.f, c, Create(op.n, minted), Finished(Created(m.id, true))))
       case NoRows => Sys(rows, Record(s.f, c, Create(op.n, minted), Collided))
       case UniqueViolation => s.(f := SetPhase(s.f, c, Refused(m.id))))
    case Select(c) =>
      var r := SelectId(s.rows, NotifKey(op.n));
      s.(f := SetPhase(s.f, c, if r.Created? then Finished(r) else Stuck))
    case Exec(c) =>
      var p := PgUpdate(PgState(s.rows, {}), op.tenant, op.id, op.status, op.at);
      Sys(p.0.notifs, Record(s.f, c, op, Finished(p.1)))
  }

  ghost predicate Init(start: MemState, s: Sys) {
    Starts(start, s.f) && s.rows == Rows(start.notifs)
  }

  ghost predicate Inv(start: MemState, s: Sys) {
    HistoryOk(start, s.f.ref, s.f.log) && s.rows == Rows(s.f.ref.notifs) && Sound(SendsId, s.f)
  }

  // ---- The statements against the reference ----

  lemma InsertAgrees(ref: MemState, rows: set<Notification>, n: Notification, minted: Str)
    requires Consistent(ref) && rows == Rows(ref.notifs)
    requires InsertNotif(rows, n.(id := NewId(n.id, minted))).1 != UniqueViolation
    ensures NoIdClash(ref, Create(n, minted))
    ensures InsertNotif(rows, n.(id := NewId(n.id, minted))).0 == Rows(MemCreate(ref, n, minted).0.notifs)
  {
    CreateAgrees(ref.(devices := map[], deviceByKey := map[]), PgState(rows, {}), n, minted);
  }

  lemma SelectAgrees(ref: MemState, rows: set<Notification>, k: Key)
    requires Consistent(ref) && rows == Rows(ref.notifs) && k in ref.notifByKey
    ensures SelectId(rows, k) == Created(ref.notifByKey[k], false)
  {
    var row := ref.notifs[ref.notifByKey[k]];
    assert row in rows && NotifKey(row) == k;
    forall x | x in rows && NotifKey(x) == k ensures x == row {}
  }

  lemma ExecAgrees(ref: MemState, rows: set<Notification>, op: StoreOp)
    requires Consistent(ref) && rows == Rows(ref.notifs) && op.Update?
    ensures var p := PgUpdate(PgState(rows, {}), op.tenant, op.id, op.status, op.at);
      p.0.notifs == Rows(RefStep(ref, op).0.notifs) && p.1 == RefStep(ref, op).1
  {
    UpdateAgrees(ref.(devices := map[], deviceByKey := map[]), PgState(rows, {}), op.tenant, op.id, op.status, op.at);
  }

  // ---- Each step keeps the calls in order ----

  /** The three outcomes of an insert. */
  lemma InsertIs(s: Sys, step: Step)
    requires Consistent(s.f.ref) && s.rows == Rows(s.f.ref.notifs) && Enabled(s, step) && step.Insert?
    ensures var n := s.f.calls[step.c].op.n; var op, id := Create(n, step.minted), NewId(n.id, step.minted);
      var rows := Rows(RefStep(s.f.ref, op).0.notifs);
      Next(s, step) ==
        if NotifKey(n) in s.f.ref.notifByKey then Sys(rows, Record(s.f, step.c, op, Collided))
        else if id in s.f.ref.notifs then s.(f := SetPhase(s.f, step.c, Refused(id)))
        else Sys(rows, Record(s.f, step.c, op, Finished(Created(id, true))))
  {
    var n := s.f.calls[step.c].op.n;
    var m := n.(id := NewId(n.id, step.minted));
    if InsertNotif(s.rows, m).1 != UniqueViolation { InsertAgrees(s.f.ref, s.rows, n, step.minted); }
  }

  lemma InsertKeepsInv(start: MemState, s: Sys, step: Step)
    requires Inv(start, s) && Enabled(s, step) && step.Insert?
    ensures Inv(start, Next(s, step))
  {
    var c, n := step.c, s.f.calls[step.c].op.n;
    var op, id := Create(n, step.minted), NewId(n.id, step.minted);
    InsertIs(s, step);
    assert CallOk(SendsId, s.f.ref, s.f.calls, s.f.log, c);
    if NotifKey(n) !in s.f.ref.notifByKey && id in s.f.ref.notifs {
      PhaseKeepsSound(SendsId, s.f, c, Refused(id));
    } else {
      HistoryExtends(start, s.f.ref, s.f.log, c, op);
      RecordKeepsSound(SendsId, s.f, c, op,
        if NotifKey(n) in s.f.ref.notifByKey then Collided else Finished(Created(id, true)));
    }
  }

  lemma SelectKeepsInv(start: MemState, s: Sys, step: Step)
    requires Inv(start, s) && Enabled(s, step) && step.Select?
    ensures Inv(start, Next(s, step))
  {
    var k := NotifKey(s.f.calls[step.c].op.n);
    assert CallOk(SendsId, s.f.ref, s.f.calls, s.f.log, step.c);
    SelectAgrees(s.f.ref, s.rows, k);
    PhaseKeepsSound(SendsId, s.f, step.c, Finished(Created(s.f.ref.notifByKey[k], false)));
  }

  lemma ExecKeepsInv(start: MemState, s: Sys, step: Step)
    requires Inv(start, s) && Enabled(s, step) && step.Exec?
    ensures Inv(start, Next(s, step))
  {
    var op := s.f.calls[step.c].op;
    var p := PgUpdate(PgState(s.rows, {}), op.tenant, op.id, op.status, op.at);
    assert CallOk(SendsId, s.f.ref, s.f.calls, s.f.log, step.c);
    ExecAgrees(s.f.ref, s.rows, op);
    HistoryExtends(start, s.f.ref, s.f.log, step.c, op);
    RecordKeepsSound(SendsId, s.f, step.c, op, Finished(p.1));
  }

  lemma NextKeepsInv(start: MemState, s: Sys, step: Step)
    requires Inv(start, s) && Enabled(s, step)
    ensures Inv(start, Next(s, step))
  {
    match step
    case Insert(_, _) => InsertKeepsInv(start, s, step);
    case Select(_) => SelectKeepsInv(start, s, step);
    case Exec(_) => ExecKeepsInv(start, s, step);
  }

  ghost predicate Behaviour(start: MemState, states: seq<Sys>, steps: seq<Step>) {
    && |states| == |steps| + 1
    && Init(start, states[0])
    && forall i | 0 <= i < |steps| :: Enabled(states[i], steps[i]) && states[i + 1] == Next(states[i], steps[i])
  }

  lemma {:induction false} BehaviourInv(start: MemState, states: seq<Sys>, steps: seq<Step>, i: nat)
    requires Behaviour(start, states, steps) && i < |states|
    ensures Inv(start, states[i])
  {
    if i == 0 {
    } else {
      BehaviourInv(start, states, steps, i - 1);
      NextKeepsInv(start, states[i - 1], steps[i - 1]);
    }
  }

  /** Every interleaving of the statements is a run of the reference, whose rows the
      table holds; the select always finds a row, and a conflict leaves no trace. */
  lemma EveryBehaviourLinearizes(start: MemState, states: seq<Sys>, steps: seq<Step>, i: nat)
    requires Behaviour(start, states, steps) && i < |states|
    ensures var s := states[i];
      Linearized(SendsId, start, s.f.ref, s.f.calls, s.f.log) && s.rows == Rows(s.f.ref.notifs)
  {
    BehaviourInv(start, states, steps, i);
    CallsLinearize(SendsId, start, states[i].f.ref, states[i].f.calls, states[i].f.log);
  }

  lemma {:induction false} LogGrows(start: MemState, states: seq<Sys>, steps: seq<Step>, i: nat, j: nat)
    requires Behaviour(start, states, steps) && i <= j < |states|
    ensures states[i].f.log <= states[j].f.log && |states[i].f.calls| == |states[j].f.calls|
    decreases j
  {
    if i < j {
      LogGrows(start, states, steps, i, j - 1);
      assert states[j] == Next(states[j - 1], steps[j - 1]);
    }
  }

  /** Real-time order, as for EntDB. */
  lemma FinishedCallsComeFirst(start: MemState, states: seq<Sys>, steps: seq<Step>, i: nat, j: nat, a: nat, b: nat)
    requires Behaviour(start, states, steps) && i <= j < |states|
    requires a < |states[i].f.calls| && b < |states[i].f.calls|
    requires states[i].f.calls[a].phase.Finished? && states[i].f.calls[b].phase == Ready
    ensures forall p, q | 0 <= p < |states[j].f.log| && 0 <= q < |states[j].f.log|
      && states[j].f.log[p].call == a && states[j].f.log[q].call == b :: p < q
  {
    LogGrows(start, states, steps, i, j);
    BehaviourInv(start, states, steps, i);
    BehaviourInv(start, states, steps, j);
    var s, t := states[i], states[j];
    EarlierFinishedFirst(SendsId, s.f.ref, s.f.calls, s.f.log, t.f.ref, t.f.calls, t.f.log, a, b);
  }

  /** Insert-then-select has the same race outcome as the EntDB protocol. */
  lemma ExactlyOneCreator(start: MemState, states: seq<Sys>, steps: seq<Step>, i: nat, c: nat, k: Key)
    returns (w: nat, id: Str)
    requires Behaviour(start, states, steps) && i < |states|
    requires c < |states[i].f.calls| && states[i].f.calls[c].phase.Finished?
    requires states[i].f.calls[c].op.Create? && NotifKey(states[i].f.calls[c].op.n) == k && k !in start.notifByKey
    ensures OneCreator(states[i].f.calls, k, w, id)
    ensures exists row :: row in states[i].rows && row.id == id && NotifKey(row) == k
  {
    BehaviourInv(start, states, steps, i);
    var s := states[i];
    w, id := CreatorOf(SendsId, start, s.f.ref, s.f.calls, s.f.log, c, k);
    assert s.f.ref.notifs[id] in s.rows && NotifKey(s.f.ref.notifs[id]) == k;
  }

  // ---- Progress ----

  lemma StepSpends(s: Sys, step: Step)
    requires Enabled(s, step)
    ensures AllStepsLeft(Next(s, step).f.calls) < AllStepsLeft(s.f.calls)
  {
    StepsLeftPut(s.f.calls, step.c, Next(s, step).f.calls[step.c]);
    assert Next(s, step).f.calls == s.f.calls[step.c := Next(s, step).f.calls[step.c]];
  }

  lemma {:induction false} SpentSoFar(start: MemState, states: seq<Sys>, steps: seq<Step>, i: nat)
    requires Behaviour(start, states, steps) && i < |states|
    ensures AllStepsLeft(states[i].f.calls) + i <= AllStepsLeft(states[0].f.calls)
  {
    if i > 0 {
      SpentSoFar(start, states, steps, i - 1);
      StepSpends(states[i - 1], steps[i - 1]);
    }
  }

  /** No behaviour takes more than two steps per call. */
  lemma BehavioursAreBounded(start: MemState, states: seq<Sys>, steps: seq<Step>)
    requires Behaviour(start, states, steps)
    ensures |steps| <= 2 * |states[0].f.calls|
  {
    SpentSoFar(start, states, steps, |steps|);
    StepsLeftAtMost(states[0].f.calls);
  }

  /** A call that is not answered can take a step, whatever the others do. */
  lemma UnansweredGoesOn(start: MemState, states: seq<Sys>, steps: seq<Step>, i: nat, c: nat) returns (step: Step)
    requires Behaviour(start, states, steps) && i < |states| && c < |states[i].f.calls|
    requires !Answered(states[i].f.calls[c])
    ensures step.c == c && Enabled(states[i], step)
  {
    var s := states[i];
    BehaviourInv(start, states, steps, i);
    assert CallOk(SendsId, s.f.ref, s.f.calls, s.f.log, c);
    var call := s.f.calls[c];
    step := if call.op.Update? then Exec(c) else if call.phase == Ready then Insert(c, []) else Select(c);
  }
}
