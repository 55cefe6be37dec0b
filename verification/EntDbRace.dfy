/** Concurrent CreateNotification and UpdateStatus calls against EntDB. Each
    server request is one atomic step; calls interleave freely. Every behaviour
    is linearizable: the answers are those the reference gives when the calls run
    one after another in the order of their decisive request. */
module EntDbRace {
  import opened Domain
  import opened StoreApi
  import opened Memory
  import opened CompositeKey
  import opened EntDb
  import opened History
  import opened Calls

  /** nodes and the phases are the system; ref and log only record its history. */
  datatype Sys = Sys(nodes: map<Str, NotifNode>, f: Flight)

  datatype Step = Commit(c: nat, minted: Str) | Lookup(c: nat) | ReadRow(c: nat) | WriteRow(c: nat)

  predicate Enabled(s: Sys, step: Step) {
    && step.c < |s.f.calls|
    && var call := s.f.calls[step.c];
      match step
      case Commit(_, minted) => call.op.Create? && call.phase == Ready && minted !in s.nodes
      case Lookup(_) => call.op.Create? && call.phase == Collided
      case ReadRow(_) => call.op.Update? && call.phase == Ready
      case WriteRow(_) => call.op.Update? && call.phase == Located
  }

  ghost function Next(s: Sys, step: Step): Sys
    requires Enabled(s, step)
  {
    var op := s.f.calls[step.c].op;
    match step
    case Commit(c, minted) =>
      var (nodes, committed) := CommitNotif(s.nodes, NotifToProto(op.n), minted);
      Sys(nodes, Record(s.f, c, Create(op.n.(id := []), minted),
        if committed.Some? then Finished(Created(committed.value, true)) else Collided))
    case Lookup(c) =>
      var found := FindNotif(s.nodes, Encode(NotifKey(op.n)));
      s.(f := SetPhase(s.f, c, if found.Some? then Finished(Created(found.value, false)) else Stuck))
    case ReadRow(c) =>
      if op.id !in s.nodes || s.nodes[op.id].tenant != op.tenant
      then s.(f := Record(s.f, c, op, Finished(Failure(NotFound))))
      else s.(f := SetPhase(s.f, c, Located))
    case WriteRow(c) =>
      if op.id in s.nodes
      then Sys(s.nodes[op.id := PatchStatus(s.nodes[op.id], op.status, op.at)], Record(s.f, c, op, Finished(Done)))
      else s.(f := SetPhase(s.f, c, Stuck))
  }

  ghost predicate Init(start: MemState, s: Sys) {
    Starts(start, s.f) && NotifsMirror(start.notifs, s.nodes)
  }

  ghost predicate Inv(start: MemState, s: Sys) {
    HistoryOk(start, s.f.ref, s.f.log) && NotifsMirror(s.f.ref.notifs, s.nodes) && Sound(ServerAssigns, s.f)
  }

  /** The key lookups of the server agree with the reference's index. */
  lemma KeyLookup(s: Sys, k: Key)
    requires Consistent(s.f.ref) && NotifsMirror(s.f.ref.notifs, s.nodes)
    ensures (exists id :: id in s.nodes && s.nodes[id].compositeKey == Encode(k)) <==> k in s.f.ref.notifByKey
    ensures FindNotif(s.nodes, Encode(k)) == if k in s.f.ref.notifByKey then Some(s.f.ref.notifByKey[k]) else None
  {
    NotifKeyTaken(s.f.ref.(devices := map[], deviceByKey := map[]), Server(s.nodes, map[]), k);
  }

  // ---- Each step keeps the calls in order ----

  /** The two outcomes of a commit. */
  lemma CommitIs(s: Sys, step: Step)
    requires Consistent(s.f.ref) && NotifsMirror(s.f.ref.notifs, s.nodes) && Enabled(s, step) && step.Commit?
    ensures var n := s.f.calls[step.c].op.n; var op := Create(n.(id := []), step.minted);
      Next(s, step) ==
        if NotifKey(n) in s.f.ref.notifByKey then s.(f := Record(s.f, step.c, op, Collided))
        else Sys(s.nodes[step.minted := NotifToProto(n)], Record(s.f, step.c, op, Finished(Created(step.minted, true))))
  {
    KeyLookup(s, NotifKey(s.f.calls[step.c].op.n));
  }

  lemma CommitKeepsInv(start: MemState, s: Sys, step: Step)
    requires Inv(start, s) && Enabled(s, step) && step.Commit?
    ensures Inv(start, Next(s, step))
  {
    var c, n := step.c, s.f.calls[step.c].op.n;
    var op := Create(n.(id := []), step.minted);
    CommitIs(s, step);
    assert CallOk(ServerAssigns, s.f.ref, s.f.calls, s.f.log, c);
    HistoryExtends(start, s.f.ref, s.f.log, c, op);
    if NotifKey(n) in s.f.ref.notifByKey {
      RecordKeepsSound(ServerAssigns, s.f, c, op, Collided);
    } else {
      MirrorPut(s.f.ref.notifs, s.nodes, step.minted, n.(id := step.minted));
      assert NotifToProto(n.(id := step.minted)) == NotifToProto(n);
      RecordKeepsSound(ServerAssigns, s.f, c, op, Finished(Created(step.minted, true)));
    }
  }

  lemma LookupKeepsInv(start: MemState, s: Sys, step: Step)
    requires Inv(start, s) && Enabled(s, step) && step.Lookup?
    ensures Inv(start, Next(s, step))
  {
    var k := NotifKey(s.f.calls[step.c].op.n);
    KeyLookup(s, k);
    assert CallOk(ServerAssigns, s.f.ref, s.f.calls, s.f.log, step.c);
    PhaseKeepsSound(ServerAssigns, s.f, step.c, Finished(Created(s.f.ref.notifByKey[k], false)));
  }

  lemma ReadRowKeepsInv(start: MemState, s: Sys, step: Step)
    requires Inv(start, s) && Enabled(s, step) && step.ReadRow?
    ensures Inv(start, Next(s, step))
  {
    var op := s.f.calls[step.c].op;
    assert CallOk(ServerAssigns, s.f.ref, s.f.calls, s.f.log, step.c);
    if op.id !in s.nodes || s.nodes[op.id].tenant != op.tenant {
      HistoryExtends(start, s.f.ref, s.f.log, step.c, op);
      RecordKeepsSound(ServerAssigns, s.f, step.c, op, Finished(Failure(NotFound)));
    } else {
      PhaseKeepsSound(ServerAssigns, s.f, step.c, Located);
    }
  }

  lemma WriteRowKeepsInv(start: MemState, s: Sys, step: Step)
    requires Inv(start, s) && Enabled(s, step) && step.WriteRow?
    ensures Inv(start, Next(s, step))
  {
    var op := s.f.calls[step.c].op;
    assert CallOk(ServerAssigns, s.f.ref, s.f.calls, s.f.log, step.c);
    PatchIsStamp(s.f.ref.notifs[op.id], op.status, op.at);
    MirrorPut(s.f.ref.notifs, s.nodes, op.id, Stamp(s.f.ref.notifs[op.id], op.status, op.at));
    HistoryExtends(start, s.f.ref, s.f.log, step.c, op);
    RecordKeepsSound(ServerAssigns, s.f, step.c, op, Finished(Done));
  }

  lemma NextKeepsInv(start: MemState, s: Sys, step: Step)
    requires Inv(start, s) && Enabled(s, step)
    ensures Inv(start, Next(s, step))
  {
    match step
    case Commit(_, _) => CommitKeepsInv(start, s, step);
    case Lookup(_) => LookupKeepsInv(start, s, step);
    case ReadRow(_) => ReadRowKeepsInv(start, s, step);
    case WriteRow(_) => WriteRowKeepsInv(start, s, step);
  }

  /** A finite behaviour: any interleaving of enabled steps. */
  ghost predicate Behaviour(start: MemState, states: seq<Sys>, steps: seq<Step>) {
    && |states| == |steps| + 1
    && Init(start, states[0])
    && forall i | 0 <= i < |steps| :: Enabled(states[i], steps[i]) && states[i + 1] == Next(states[i], steps[i])
  }

  lemma {:induction false} BehaviourInv(start: MemState, states: seq<Sys>, steps: seq<Step>, i: nat)
    requires Behaviour(start, states, steps) && i < |states|
    ensures Inv(start, states[i])
  {
    if i == 0 {
    } else {
      BehaviourInv(start, states, steps, i - 1);
      NextKeepsInv(start, states[i - 1], steps[i - 1]);
    }
  }

  /** Every interleaving of the requests is a run of the reference, and the server
      holds that run's rows. */
  lemma EveryBehaviourLinearizes(start: MemState, states: seq<Sys>, steps: seq<Step>, i: nat)
    requires Behaviour(start, states, steps) && i < |states|
    ensures var s := states[i];
      Linearized(ServerAssigns, start, s.f.ref, s.f.calls, s.f.log) && NotifsMirror(s.f.ref.notifs, s.nodes)
  {
    BehaviourInv(start, states, steps, i);
    CallsLinearize(ServerAssigns, start, states[i].f.ref, states[i].f.calls, states[i].f.log);
  }

  /** The log only grows. */
  lemma {:induction false} LogGrows(start: MemState, states: seq<Sys>, steps: seq<Step>, i: nat, j: nat)
    requires Behaviour(start, states, steps) && i <= j < |states|
    ensures states[i].f.log <= states[j].f.log && |states[i].f.calls| == |states[j].f.calls|
    decreases j
  {
    if i < j {
      LogGrows(start, states, steps, i, j - 1);
      assert states[j] == Next(states[j - 1], steps[j - 1]);
    }
  }

  /** Real-time order: a call that had finished before another took its first
      step precedes it in the linearization. */
  lemma FinishedCallsComeFirst(start: MemState, states: seq<Sys>, steps: seq<Step>, i: nat, j: nat, a: nat, b: nat)
    requires Behaviour(start, states, steps) && i <= j < |states|
    requires a < |states[i].f.calls| && b < |states[i].f.calls|
    requires states[i].f.calls[a].phase.Finished? && states[i].f.calls[b].phase == Ready
    ensures forall p, q | 0 <= p < |states[j].f.log| && 0 <= q < |states[j].f.log|
      && states[j].f.log[p].call == a && states[j].f.log[q].call == b :: p < q
  {
    LogGrows(start, states, steps, i, j);
    BehaviourInv(start, states, steps, i);
    BehaviourInv(start, states, steps, j);
    var s, t := states[i], states[j];
    EarlierFinishedFirst(ServerAssigns, s.f.ref, s.f.calls, s.f.log, t.f.ref, t.f.calls, t.f.log, a, b);
  }

  /** Once any caller for a new triple has finished, exactly one caller has
      inserted it, that caller alone reports created = true, and every finished
      caller for the triple returns that row's id. */
  lemma ExactlyOneCreator(start: MemState, states: seq<Sys>, steps: seq<Step>, i: nat, c: nat, k: Key)
    returns (w: nat, id: Str)
    requires Behaviour(start, states, steps) && i < |states|
    requires c < |states[i].f.calls| && states[i].f.calls[c].phase.Finished?
    requires states[i].f.calls[c].op.Create? && NotifKey(states[i].f.calls[c].op.n) == k && k !in start.notifByKey
    ensures OneCreator(states[i].f.calls, k, w, id)
    ensures id in states[i].nodes && states[i].nodes[id].compositeKey == Encode(k)
  {
    BehaviourInv(start, states, steps, i);
    w, id := CreatorOf(ServerAssigns, start, states[i].f.ref, states[i].f.calls, states[i].f.log, c, k);
  }

  // ---- Progress ----

  lemma StepSpends(s: Sys, step: Step)
    requires Enabled(s, step)
    ensures AllStepsLeft(Next(s, step).f.calls) < AllStepsLeft(s.f.calls)
  {
    StepsLeftPut(s.f.calls, step.c, Next(s, step).f.calls[step.c]);
    assert Next(s, step).f.calls == s.f.calls[step.c := Next(s, step).f.calls[step.c]];
  }

  lemma {:induction false} SpentSoFar(start: MemState, states: seq<Sys>, steps: seq<Step>, i: nat)
    requires Behaviour(start, states, steps) && i < |states|
    ensures AllStepsLeft(states[i].f.calls) + i <= AllStepsLeft(states[0].f.calls)
  {
    if i > 0 {
      SpentSoFar(start, states, steps, i - 1);
      StepSpends(states[i - 1], steps[i - 1]);
    }
  }

  /** No behaviour takes more than two steps per call. */
  lemma BehavioursAreBounded(start: MemState, states: seq<Sys>, steps: seq<Step>)
    requires Behaviour(start, states, steps)
    ensures |steps| <= 2 * |states[0].f.calls|
  {
    SpentSoFar(start, states, steps, |steps|);
    StepsLeftAtMost(states[0].f.calls);
  }

  /** A call that is not answered can take a step, whatever the others do. */
  lemma UnansweredGoesOn(start: MemState, states: seq<Sys>, steps: seq<Step>, i: nat, c: nat) returns (step: Step)
    requires Behaviour(start, states, steps) && i < |states| && c < |states[i].f.calls|
    requires !Answered(states[i].f.calls[c])
    ensures step.c == c && Enabled(states[i], step)
  {
    var s := states[i];
    BehaviourInv(start, states, steps, i);
    assert CallOk(ServerAssigns, s.f.ref, s.f.calls, s.f.log, c);
    var minted := FreshStr(s.nodes.Keys);
    var call := s.f.calls[c];
    step := if call.op.Create? then (if call.phase == Ready then Commit(c, minted) else Lookup(c))
            else if call.phase == Ready then ReadRow(c) else WriteRow(c);
  }
}
