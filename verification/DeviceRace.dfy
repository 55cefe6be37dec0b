/** Concurrent UpsertDevice calls against EntDB: commit, then on a collision
    lookup and field update, then a read of the row. The stored rows are those of
    the reference run in commit order; the device a call returns is the row as it
    stands when the call reads it back, which may carry a later caller's token. */
module DeviceRace {
  import opened Domain
  import opened StoreApi
  import opened Memory
  import opened CompositeKey
  import opened EntDb
  import opened History

  /** Finished keeps the log length at the moment of the read. Stuck and Fallback
      are the driver's "not resolvable" error and its synthesized device. */
  datatype Phase =
    | Ready | Rejected | Resolved(id: Str) | Written(id: Str)
    | Finished(d: Device, at: nat) | Stuck | Fallback

  datatype Call = Call(d: Device, phase: Phase, logged: Option<nat>)

  datatype Sys = Sys(nodes: map<Str, DeviceNode>, calls: seq<Call>, ref: MemState, log: seq<Entry>)

  datatype Step = Commit(c: nat, minted: Str) | Lookup(c: nat) | Rotate(c: nat) | ReadBack(c: nat)

  predicate Enabled(s: Sys, step: Step) {
    && step.c < |s.calls|
    && var phase := s.calls[step.c].phase;
      match step
      case Commit(_, minted) => phase == Ready && minted !in s.nodes
      case Lookup(_) => phase == Rejected
      case Rotate(_) => phase.Resolved?
      case ReadBack(_) => phase.Written?
  }

  function SetPhase(s: Sys, c: nat, phase: Phase): Sys
    requires c < |s.calls|
  {
    s.(calls := s.calls[c := s.calls[c].(phase := phase)])
  }

  /** MemUpsert, total over states whose index dangles (none is reachable). */
  function RefUpsert(ref: MemState, d: Device, minted: Str): (MemState, StoreResult) {
    var k := DeviceKey(d);
    if k in ref.deviceByKey && ref.deviceByKey[k] !in ref.devices then (ref, Failure(Internal))
    else MemUpsert(ref, d, minted)
  }

  /** The write of call c reaches the server: the reference executes the call. */
  function Apply(s: Sys, c: nat, minted: Str, nodes: map<Str, DeviceNode>, id: Str): Sys
    requires c < |s.calls|
  {
    var d := s.calls[c].d.(id := []);
    var (ref, result) := RefUpsert(s.ref, d, minted);
    Sys(nodes, s.calls[c := Call(s.calls[c].d, Written(id), Some(|s.log|))], ref,
      s.log + [Entry(c, Upsert(d, minted), result)])
  }

  ghost function Next(s: Sys, step: Step): Sys
    requires Enabled(s, step)
  {
    var d := s.calls[step.c].d;
    match step
    case Commit(c, minted) =>
      var (nodes, committed) := CommitDevice(s.nodes, DeviceToProto(d), minted);
      if committed.Some? then Apply(s, c, minted, nodes, committed.value) else SetPhase(s, c, Rejected)
    case Lookup(c) =>
      var found := FindDevice(s.nodes, Encode(DeviceKey(d)));
      SetPhase(s, c, if found.Some? then Resolved(found.value) else Stuck)
    case Rotate(c) =>
      var id := s.calls[c].phase.id;
      if id in s.nodes then Apply(s, c, [], s.nodes[id := RotateNode(s.nodes[id], d)], id)
      else SetPhase(s, c, Stuck)
    case ReadBack(c) =>
      var id := s.calls[c].phase.id;
      SetPhase(s, c, if id in s.nodes then Finished(DeviceFromProto(id, s.nodes[id]), |s.log|) else Fallback)
  }

  ghost predicate Init(start: MemState, s: Sys) {
    && Consistent(start) && DevicesMirror(start.devices, s.nodes)
    && s.ref == start && s.log == []
    && forall c | 0 <= c < |s.calls| :: s.calls[c].phase == Ready && s.calls[c].logged == None
  }

  /** The entry writes the row of triple k. */
  predicate Writes(e: Entry, k: Key) {
    e.op.Upsert? && DeviceKey(e.op.d) == k
  }

  /** The row of triple k after the log's writes: the first creates it, each later
      one replaces its token and last-active together. */
  function RowOf(start: MemState, log: seq<Entry>, k: Key): Option<Device> {
    if log == [] then
      if k in start.deviceByKey && start.deviceByKey[k] in start.devices
      then Some(start.devices[start.deviceByKey[k]]) else None
    else
      var e := log[|log| - 1];
      var before := RowOf(start, log[..|log| - 1], k);
      if !Writes(e, k) then before
      else if before.None? then Some(e.op.d.(id := NewId(e.op.d.id, e.op.minted)))
      else Some(before.value.(token := e.op.d.token, lastActive := e.op.d.lastActive))
  }

  /** The row of a triple is settled by where it came from and the last write to it:
      id and creation time from the row there was at the start or else from the first
      write, the (token, last-active) pair from the last. */
  lemma RowIsFirstAndLast(start: MemState, log: seq<Entry>, k: Key, f: nat, l: nat)
    requires Consistent(start)
    requires f <= l < |log| && Writes(log[f], k) && Writes(log[l], k)
    requires forall i | 0 <= i < |log| && Writes(log[i], k) :: f <= i <= l
    ensures var r := RowOf(start, log, k);
      && r.Some? && DeviceKey(r.value) == k
      && r.value.token == log[l].op.d.token && r.value.lastActive == log[l].op.d.lastActive
      && if k in start.deviceByKey
         then var row := start.devices[start.deviceByKey[k]]; r.value.id == row.id && r.value.createdAt == row.createdAt
         else r.value.id == NewId(log[f].op.d.id, log[f].op.minted) && r.value.createdAt == log[f].op.d.createdAt
  {
    LastWriteStays(start, log, k, l);
    if k in start.deviceByKey {
      RowKeepsIdentity(start, log, 0, |log|, k);
      assert log[..|log|] == log && log[..0] == [];
    } else {
      FirstWriteCreates(start, log, k, f);
    }
  }

  lemma {:induction false} FirstWriteCreates(start: MemState, log: seq<Entry>, k: Key, f: nat)
    requires k !in start.deviceByKey && f < |log| && Writes(log[f], k)
    requires forall i | 0 <= i < f :: !Writes(log[i], k)
    ensures var r := RowOf(start, log, k);
      && r.Some? && DeviceKey(r.value) == k
      && r.value.id == NewId(log[f].op.d.id, log[f].op.minted) && r.value.createdAt == log[f].op.d.createdAt
    decreases |log|
  {
    var n := |log| - 1;
    if f == n {
      NoWriteNoRow(start, log[..n], k);
    } else {
      FirstWriteCreates(start, log[..n], k, f);
    }
  }

  lemma {:induction false} LastWriteStays(start: MemState, log: seq<Entry>, k: Key, l: nat)
    requires l < |log| && Writes(log[l], k)
    requires forall i | l < i < |log| :: !Writes(log[i], k)
    ensures var r := RowOf(start, log, k);
      r.Some? && r.value.token == log[l].op.d.token && r.value.lastActive == log[l].op.d.lastActive
    decreases |log|
  {
    var n := |log| - 1;
    if l < n {
      LastWriteStays(start, log[..n], k, l);
    }
  }

  lemma {:induction false} NoWriteNoRow(start: MemState, log: seq<Entry>, k: Key)
    requires k !in start.deviceByKey && forall i | 0 <= i < |log| :: !Writes(log[i], k)
    ensures RowOf(start, log, k) == None
    decreases |log|
  {
    if log != [] { NoWriteNoRow(start, log[..|log| - 1], k); }
  }

  ghost predicate CallOk(start: MemState, s: Sys, c: nat)
    requires c < |s.calls|
  {
    var call := s.calls[c];
    var k := DeviceKey(call.d);
    && (call.logged.Some? ==>
         var i := call.logged.value;
         i < |s.log| && s.log[i].call == c && s.log[i].op.Upsert? && s.log[i].op.d == call.d.(id := []))
    && match call.phase
       case Ready => call.logged == None
       case Rejected => call.logged == None && k in s.ref.deviceByKey
       case Resolved(id) => call.logged == None && k in s.ref.deviceByKey && s.ref.deviceByKey[k] == id
       case Written(id) => call.logged.Some? && k in s.ref.deviceByKey && s.ref.deviceByKey[k] == id
       case Finished(d, at) => call.logged.Some? && call.logged.value < at <= |s.log|
         && RowOf(start, s.log[..at], k) == Some(d)
         && k in s.ref.deviceByKey && s.ref.deviceByKey[k] == d.id
       case _ => false
  }

  ghost predicate CallsOk(start: MemState, s: Sys) {
    && (forall c | 0 <= c < |s.calls| :: CallOk(start, s, c))
    && (forall i | 0 <= i < |s.log| :: s.log[i].call < |s.calls| && s.calls[s.log[i].call].logged == Some(i))
  }

  function IndexedRow(ref: MemState, k: Key): Option<Device> {
    if k in ref.deviceByKey && ref.deviceByKey[k] in ref.devices then Some(ref.devices[ref.deviceByKey[k]]) else None
  }

  /** The reference's rows are the rows the log writes, and its answer to each
      write is the row right after it. */
  ghost predicate RowsFromLog(start: MemState, ref: MemState, log: seq<Entry>) {
    && (forall k :: RowOf(start, log, k) == IndexedRow(ref, k))
    && (forall i | 0 <= i < |log| :: AnswersWithRow(start, log, i))
  }

  ghost predicate AnswersWithRow(start: MemState, log: seq<Entry>, i: nat)
    requires i < |log|
  {
    log[i].op.Upsert? && log[i].result.Registered?
    && RowOf(start, log[..i + 1], DeviceKey(log[i].op.d)) == Some(log[i].result.d)
  }

  ghost predicate LogOk(start: MemState, ref: MemState, log: seq<Entry>) {
    Consistent(ref) && LogIsRun(start, ref, log) && RowsFromLog(start, ref, log)
  }

  ghost predicate Inv(start: MemState, s: Sys) {
    LogOk(start, s.ref, s.log) && DevicesMirror(s.ref.devices, s.nodes) && CallsOk(start, s)
  }

  lemma KeyLookup(s: Sys, k: Key)
    requires Consistent(s.ref) && DevicesMirror(s.ref.devices, s.nodes)
    ensures (exists id :: id in s.nodes && s.nodes[id].compositeKey == Encode(k)) <==> k in s.ref.deviceByKey
    ensures FindDevice(s.nodes, Encode(k)) == if k in s.ref.deviceByKey then Some(s.ref.deviceByKey[k]) else None
  {
    DeviceKeyTaken(s.ref.(notifs := map[], notifByKey := map[]), Server(map[], s.nodes), k);
  }

  /** One more write keeps the log's rows and the reference's rows equal. */
  lemma RowsFromLogGrows(start: MemState, ref: MemState, log: seq<Entry>, e: Entry)
    requires Consistent(ref) && RowsFromLog(start, ref, log) && e.op.Upsert? && e.op.d.id == []
    requires NoIdClash(ref, e.op) && e.result == MemUpsert(ref, e.op.d, e.op.minted).1
    ensures RowsFromLog(start, MemUpsert(ref, e.op.d, e.op.minted).0, log + [e])
  {
    var t := log + [e];
    assert t[..|log|] == log;
    var ref' := MemUpsert(ref, e.op.d, e.op.minted).0;
    forall k ensures RowOf(start, t, k) == IndexedRow(ref', k) {
      assert RowOf(start, log, k) == IndexedRow(ref, k);
    }
    forall i | 0 <= i < |t| ensures AnswersWithRow(start, t, i) {
      if i < |log| {
        assert AnswersWithRow(start, log, i);
        assert t[..i + 1] == log[..i + 1];
      } else {
        assert t[..i + 1] == t;
      }
    }
  }

  lemma OthersKeepGoing(start: MemState, s: Sys, t: Sys, c: nat)
    requires CallsOk(start, s) && c < |s.calls| == |t.calls|
    requires forall d | 0 <= d < |s.calls| && d != c :: t.calls[d] == s.calls[d]
    requires t.log == s.log || exists e :: t.log == s.log + [e]
    requires forall k | k in s.ref.deviceByKey :: k in t.ref.deviceByKey && t.ref.deviceByKey[k] == s.ref.deviceByKey[k]
    ensures forall d | 0 <= d < |s.calls| && d != c :: CallOk(start, t, d)
  {
    forall d | 0 <= d < |s.calls| && d != c ensures CallOk(start, t, d) {
      assert CallOk(start, s, d);
      var call := s.calls[d];
      if call.logged.Some? { assert t.log[call.logged.value] == s.log[call.logged.value]; }
      if call.phase.Finished? { assert t.log[..call.phase.at] == s.log[..call.phase.at]; }
    }
  }

  lemma ApplyKeepsCalls(start: MemState, s: Sys, c: nat, minted: Str, nodes: map<Str, DeviceNode>, id: Str)
    requires CallsOk(start, s) && c < |s.calls| && s.calls[c].logged == None
    requires var after := RefUpsert(s.ref, s.calls[c].d.(id := []), minted).0; var k := DeviceKey(s.calls[c].d);
      k in after.deviceByKey && after.deviceByKey[k] == id
    ensures CallsOk(start, Apply(s, c, minted, nodes, id))
  {
    var t := Apply(s, c, minted, nodes, id);
    OthersKeepGoing(start, s, t, c);
    assert CallOk(start, t, c);
  }

  lemma ApplyKeepsLog(start: MemState, s: Sys, c: nat, minted: Str, nodes: map<Str, DeviceNode>, id: Str)
    requires LogOk(start, s.ref, s.log) && c < |s.calls|
    requires NoIdClash(s.ref, Upsert(s.calls[c].d.(id := []), minted))
    ensures var t := Apply(s, c, minted, nodes, id); LogOk(start, t.ref, t.log)
  {
    var op := Upsert(s.calls[c].d.(id := []), minted);
    LogExtends(start, s.ref, s.log, c, op);
    RowsFromLogGrows(start, s.ref, s.log, Entry(c, op, MemUpsert(s.ref, op.d, minted).1));
  }

  /** A refused commit or a lookup changes only the caller's own phase. */
  lemma PhaseKeepsCalls(start: MemState, s: Sys, c: nat, phase: Phase)
    requires CallsOk(start, s) && c < |s.calls| && CallOk(start, SetPhase(s, c, phase), c)
    ensures CallsOk(start, SetPhase(s, c, phase))
  {
    OthersKeepGoing(start, s, SetPhase(s, c, phase), c);
  }

  lemma InsertKeepsInv(start: MemState, s: Sys, c: nat, minted: Str)
    requires Inv(start, s) && c < |s.calls| && s.calls[c].logged == None
    requires minted !in s.nodes && DeviceKey(s.calls[c].d) !in s.ref.deviceByKey
    ensures Inv(start, Apply(s, c, minted, s.nodes[minted := DeviceToProto(s.calls[c].d)], minted))
  {
    var d := s.calls[c].d;
    var nodes := s.nodes[minted := DeviceToProto(d)];
    MirrorPutDevice(s.ref.devices, s.nodes, minted, d.(id := minted));
    assert DeviceToProto(d.(id := minted)) == DeviceToProto(d);
    ApplyKeepsCalls(start, s, c, minted, nodes, minted);
    ApplyKeepsLog(start, s, c, minted, nodes, minted);
  }

  lemma CommitIs(s: Sys, step: Step)
    requires Consistent(s.ref) && DevicesMirror(s.ref.devices, s.nodes) && Enabled(s, step) && step.Commit?
    ensures var d := s.calls[step.c].d;
      Next(s, step) == if DeviceKey(d) in s.ref.deviceByKey then SetPhase(s, step.c, Rejected)
                       else Apply(s, step.c, step.minted, s.nodes[step.minted := DeviceToProto(d)], step.minted)
  {
    KeyLookup(s, DeviceKey(s.calls[step.c].d));
  }

  lemma CommitKeepsInv(start: MemState, s: Sys, step: Step)
    requires Inv(start, s) && Enabled(s, step) && step.Commit?
    ensures Inv(start, Next(s, step))
  {
    var c, d := step.c, s.calls[step.c].d;
    CommitIs(s, step);
    assert CallOk(start, s, c);
    if DeviceKey(d) in s.ref.deviceByKey {
      PhaseKeepsCalls(start, s, c, Rejected);
    } else {
      InsertKeepsInv(start, s, c, step.minted);
    }
  }

  lemma LookupKeepsInv(start: MemState, s: Sys, step: Step)
    requires Inv(start, s) && Enabled(s, step) && step.Lookup?
    ensures Inv(start, Next(s, step))
  {
    assert CallOk(start, s, step.c);
    var k := DeviceKey(s.calls[step.c].d);
    KeyLookup(s, k);
    PhaseKeepsCalls(start, s, step.c, Resolved(s.ref.deviceByKey[k]));
  }

  lemma RotateKeepsInv(start: MemState, s: Sys, step: Step)
    requires Inv(start, s) && Enabled(s, step) && step.Rotate?
    ensures Inv(start, Next(s, step))
  {
    var c, d, id := step.c, s.calls[step.c].d, s.calls[step.c].phase.id;
    assert CallOk(start, s, c);
    var row := s.ref.devices[id].(token := d.token, lastActive := d.lastActive);
    MirrorPutDevice(s.ref.devices, s.nodes, id, row);
    assert DeviceToProto(row) == RotateNode(s.nodes[id], d);
    ApplyKeepsCalls(start, s, c, [], s.nodes[id := RotateNode(s.nodes[id], d)], id);
    ApplyKeepsLog(start, s, c, [], s.nodes[id := RotateNode(s.nodes[id], d)], id);
  }

  lemma ReadBackKeepsCalls(start: MemState, s: Sys, c: nat, row: Device)
    requires CallsOk(start, s) && c < |s.calls| && s.calls[c].phase == Written(row.id)
    requires RowOf(start, s.log, DeviceKey(s.calls[c].d)) == Some(row)
    ensures CallsOk(start, SetPhase(s, c, Finished(row, |s.log|)))
  {
    var t := SetPhase(s, c, Finished(row, |s.log|));
    assert CallOk(start, s, c);
    assert s.log[..|s.log|] == s.log;
    OthersKeepGoing(start, s, t, c);
    assert CallOk(start, t, c);
  }

  lemma ReadBackKeepsInv(start: MemState, s: Sys, step: Step)
    requires Inv(start, s) && Enabled(s, step) && step.ReadBack?
    ensures Inv(start, Next(s, step))
  {
    var c, id := step.c, s.calls[step.c].phase.id;
    var k := DeviceKey(s.calls[c].d);
    assert CallOk(start, s, c);
    assert DeviceFromProto(id, s.nodes[id]) == s.ref.devices[id];
    assert RowOf(start, s.log, k) == IndexedRow(s.ref, k);
    ReadBackKeepsCalls(start, s, c, s.ref.devices[id]);
  }

  lemma NextKeepsInv(start: MemState, s: Sys, step: Step)
    requires Inv(start, s) && Enabled(s, step)
    ensures Inv(start, Next(s, step))
  {
    match step
    case Commit(_, _) => CommitKeepsInv(start, s, step);
    case Lookup(_) => LookupKeepsInv(start, s, step);
    case Rotate(_) => RotateKeepsInv(start, s, step);
    case ReadBack(_) => ReadBackKeepsInv(start, s, step);
  }

  ghost predicate Behaviour(start: MemState, states: seq<Sys>, steps: seq<Step>) {
    && |states| == |steps| + 1
    && Init(start, states[0])
    && forall i | 0 <= i < |steps| ::
         Enabled(states[i], steps[i]) && states[i + 1] == Next(states[i], steps[i])
  }

  lemma {:induction false} BehaviourInv(start: MemState, states: seq<Sys>, steps: seq<Step>, i: nat)
    requires Behaviour(start, states, steps) && i < |states|
    ensures Inv(start, states[i])
  {
    if i == 0 {
    } else {
      BehaviourInv(start, states, steps, i - 1);
      NextKeepsInv(start, states[i - 1], steps[i - 1]);
    }
  }

  /** In every interleaving the server's rows are the reference's after the writes
      in commit order, one node per triple, each row carrying the first write's id
      and creation time and the last write's token and last-active time. */
  lemma EveryBehaviourConverges(start: MemState, states: seq<Sys>, steps: seq<Step>, i: nat)
    requires Behaviour(start, states, steps) && i < |states|
    ensures var s := states[i];
      && Runnable(start, Ops(s.log))
      && DevicesMirror(MemRun(start, Ops(s.log)).0.devices, s.nodes)
      && (forall a, b | a in s.nodes && b in s.nodes && s.nodes[a].compositeKey == s.nodes[b].compositeKey :: a == b)
      && (forall id | id in s.nodes ::
            var d := DeviceFromProto(id, s.nodes[id]); RowOf(start, s.log, DeviceKey(d)) == Some(d))
  {
    BehaviourInv(start, states, steps, i);
    var s := states[i];
    MirrorsValid(s.ref.(notifs := map[], notifByKey := map[]), Server(map[], s.nodes));
    forall id | id in s.nodes
      ensures var d := DeviceFromProto(id, s.nodes[id]); RowOf(start, s.log, DeviceKey(d)) == Some(d)
    {
      var d := DeviceFromProto(id, s.nodes[id]);
      assert d == s.ref.devices[id];
      assert RowOf(start, s.log, DeviceKey(d)) == IndexedRow(s.ref, DeviceKey(d));
    }
  }

  /** No call errors out or returns the synthesized device; a finished call returned
      the whole row as it stood after a prefix of the writes that includes its own. */
  lemma EveryReadIsARow(start: MemState, states: seq<Sys>, steps: seq<Step>, i: nat, c: nat)
    requires Behaviour(start, states, steps) && i < |states| && c < |states[i].calls|
    ensures var s := states[i]; var call := s.calls[c];
      && call.phase != Stuck && call.phase != Fallback
      && (call.phase.Finished? ==>
            && call.phase.at <= |s.log|
            && (exists own :: 0 <= own < call.phase.at && s.log[own].call == c && Writes(s.log[own], DeviceKey(call.d)))
            && RowOf(start, s.log[..call.phase.at], DeviceKey(call.d)) == Some(call.phase.d))
  {
    BehaviourInv(start, states, steps, i);
    var s := states[i];
    var call := s.calls[c];
    assert CallOk(start, s, c);
    if call.phase.Finished? {
      assert Writes(s.log[call.logged.value], DeviceKey(call.d));
    }
  }

  /** All finished callers of one triple name the same row. */
  lemma OneRowPerTriple(start: MemState, states: seq<Sys>, steps: seq<Step>, i: nat, a: nat, b: nat)
    requires Behaviour(start, states, steps) && i < |states|
    requires a < |states[i].calls| && b < |states[i].calls|
    requires states[i].calls[a].phase.Finished? && states[i].calls[b].phase.Finished?
    ensures DeviceKey(states[i].calls[a].d) == DeviceKey(states[i].calls[b].d)
      <==> states[i].calls[a].phase.d.id == states[i].calls[b].phase.d.id
  {
    BehaviourInv(start, states, steps, i);
    var s := states[i];
    assert CallOk(start, s, a) && CallOk(start, s, b);
    var ka, kb := DeviceKey(s.calls[a].d), DeviceKey(s.calls[b].d);
    assert DeviceKey(s.ref.devices[s.ref.deviceByKey[ka]]) == ka;
    assert DeviceKey(s.ref.devices[s.ref.deviceByKey[kb]]) == kb;
  }

  /** A call returns what the reference would answer it exactly when the last write
      of its triple before its read, from its own write on, carries its own pair. */
  lemma OwnAnswerIff(start: MemState, states: seq<Sys>, steps: seq<Step>, i: nat, c: nat) returns (own: nat, last: nat)
    requires Behaviour(start, states, steps) && i < |states|
    requires c < |states[i].calls| && states[i].calls[c].phase.Finished?
    ensures var s := states[i]; var call := s.calls[c]; var k := DeviceKey(call.d);
      && own <= last < call.phase.at <= |s.log| && s.log[own].call == c && Writes(s.log[last], k)
      && (forall j | last < j < call.phase.at :: !Writes(s.log[j], k))
      && (s.log[own].result == Registered(call.phase.d) <==> SamePair(s.log[last].op.d, call.d))
      && SamePair(call.phase.d, s.log[last].op.d)
  {
    BehaviourInv(start, states, steps, i);
    var s := states[i];
    assert CallOk(start, s, c);
    own := s.calls[c].logged.value;
    last := LastWriteBefore(s.log, DeviceKey(s.calls[c].d), own, s.calls[c].phase.at);
    AnswerAgainstRead(start, s.log, own, last, s.calls[c].phase.at, s.calls[c].phase.d);
  }

  predicate SamePair(a: Device, b: Device) {
    a.token == b.token && a.lastActive == b.lastActive
  }

  lemma {:induction false} LastWriteBefore(log: seq<Entry>, k: Key, own: nat, at: nat) returns (last: nat)
    requires own < at <= |log| && Writes(log[own], k)
    ensures own <= last < at && Writes(log[last], k) && forall j | last < j < at :: !Writes(log[j], k)
    decreases at
  {
    if Writes(log[at - 1], k) {
      last := at - 1;
    } else {
      last := LastWriteBefore(log, k, own, at - 1);
    }
  }

  lemma AnswerAgainstRead(start: MemState, log: seq<Entry>, own: nat, last: nat, at: nat, read: Device)
    requires own <= last < at <= |log| && AnswersWithRow(start, log, own) && Writes(log[last], DeviceKey(log[own].op.d))
    requires forall j | last < j < at :: !Writes(log[j], DeviceKey(log[own].op.d))
    requires RowOf(start, log[..at], DeviceKey(log[own].op.d)) == Some(read)
    ensures SamePair(read, log[last].op.d)
    ensures log[own].result == Registered(read) <==> SamePair(log[last].op.d, log[own].op.d)
  {
    var k := DeviceKey(log[own].op.d);
    LastWriteStays(start, log[..at], k, last);
    RowKeepsIdentity(start, log, own + 1, at, k);
  }

  /** Later writes change nothing but the (token, last-active) pair. */
  lemma {:induction false} RowKeepsIdentity(start: MemState, log: seq<Entry>, i: nat, j: nat, k: Key)
    requires i <= j <= |log| && RowOf(start, log[..i], k).Some?
    ensures RowOf(start, log[..j], k).Some?
    ensures var a, b := RowOf(start, log[..i], k).value, RowOf(start, log[..j], k).value;
      b == a.(token := b.token, lastActive := b.lastActive)
    decreases j
  {
    if i < j {
      RowKeepsIdentity(start, log, i, j - 1, k);
      assert log[..j][..j - 1] == log[..j - 1];
    }
  }

  // ---- What a caller can rely on, from the calls alone ----

  lemma Chain(start: MemState, states: seq<Sys>, steps: seq<Step>, step: Step)
    requires Behaviour(start, states, steps) && Enabled(states[|steps|], step)
    ensures Behaviour(start, states + [Next(states[|steps|], step)], steps + [step])
  {}

  /** s after call c has written its device and before it reads it back. */
  ghost predicate Wrote(s: Sys, t: Sys, c: nat) {
    && c < |s.calls| == |t.calls|
    && (forall d | 0 <= d < |s.calls| && d != c :: t.calls[d] == s.calls[d])
    && t.calls[c].d == s.calls[c].d && t.calls[c].phase.Written?
    && |t.log| == |s.log| + 1 && s.log <= t.log && Writes(t.log[|s.log|], DeviceKey(s.calls[c].d))
    && t.log[|s.log|].op.d == s.calls[c].d.(id := [])
  }

  lemma LookupIs(s: Sys, c: nat)
    requires Consistent(s.ref) && DevicesMirror(s.ref.devices, s.nodes) && c < |s.calls| && s.calls[c].phase == Rejected
    requires DeviceKey(s.calls[c].d) in s.ref.deviceByKey
    ensures Next(s, Lookup(c)) == SetPhase(s, c, Resolved(s.ref.deviceByKey[DeviceKey(s.calls[c].d)]))
  {
    KeyLookup(s, DeviceKey(s.calls[c].d));
  }

  lemma ResolveSteps(s: Sys, c: nat, minted: Str)
    requires Consistent(s.ref) && DevicesMirror(s.ref.devices, s.nodes)
    requires c < |s.calls| && s.calls[c].phase == Ready && minted !in s.nodes
    requires DeviceKey(s.calls[c].d) in s.ref.deviceByKey
    ensures var id := s.ref.deviceByKey[DeviceKey(s.calls[c].d)];
      var s1, s2 := SetPhase(s, c, Rejected), SetPhase(s, c, Resolved(id));
      && id in s.nodes && Next(s, Commit(c, minted)) == s1 && Next(s1, Lookup(c)) == s2
      && Wrote(s, Next(s2, Rotate(c)), c)
  {
    var id := s.ref.deviceByKey[DeviceKey(s.calls[c].d)];
    var s1, s2 := SetPhase(s, c, Rejected), SetPhase(s, c, Resolved(id));
    CommitIs(s, Commit(c, minted));
    LookupIs(s1, c);
    assert SetPhase(s1, c, Resolved(id)) == s2;
    RotateWrites(s, c, id);
  }

  lemma RotateWrites(s: Sys, c: nat, id: Str)
    requires c < |s.calls| && id in s.nodes
    ensures Wrote(s, Next(SetPhase(s, c, Resolved(id)), Rotate(c)), c)
  {}

  /** From any behaviour, a call that has not started can run up to its read. */
  lemma DriveToWrite(start: MemState, states: seq<Sys>, steps: seq<Step>, c: nat)
    returns (states': seq<Sys>, steps': seq<Step>)
    requires Behaviour(start, states, steps)
    requires c < |states[|steps|].calls| && states[|steps|].calls[c].phase == Ready
    ensures Behaviour(start, states', steps') && states'[0] == states[0]
    ensures Wrote(states[|steps|], states'[|steps'|], c)
  {
    var s := states[|steps|];
    BehaviourInv(start, states, steps, |steps|);
    var minted := FreshStr(s.nodes.Keys);
    var k := DeviceKey(s.calls[c].d);
    Chain(start, states, steps, Commit(c, minted));
    states', steps' := states + [Next(s, Commit(c, minted))], steps + [Commit(c, minted)];
    if k in s.ref.deviceByKey {
      ResolveSteps(s, c, minted);
      states', steps' := DriveRotation(start, states', steps', s, c);
    } else {
      InsertWrites(s, c, minted);
    }
  }

  lemma InsertWrites(s: Sys, c: nat, minted: Str)
    requires Consistent(s.ref) && DevicesMirror(s.ref.devices, s.nodes)
    requires Enabled(s, Commit(c, minted)) && DeviceKey(s.calls[c].d) !in s.ref.deviceByKey
    ensures Wrote(s, Next(s, Commit(c, minted)), c)
  {
    CommitIs(s, Commit(c, minted));
  }

  /** .. after a refused commit, by the lookup and the field update. */
  lemma DriveRotation(start: MemState, states: seq<Sys>, steps: seq<Step>, s: Sys, c: nat)
    returns (states': seq<Sys>, steps': seq<Step>)
    requires Behaviour(start, states, steps) && c < |s.calls| && states[|steps|] == SetPhase(s, c, Rejected)
    requires DeviceKey(s.calls[c].d) in s.ref.deviceByKey
    requires var s2 := SetPhase(s, c, Resolved(s.ref.deviceByKey[DeviceKey(s.calls[c].d)]));
      Next(SetPhase(s, c, Rejected), Lookup(c)) == s2 && Wrote(s, Next(s2, Rotate(c)), c)
    ensures Behaviour(start, states', steps') && states'[0] == states[0] && Wrote(s, states'[|steps'|], c)
  {
    var s2 := SetPhase(s, c, Resolved(s.ref.deviceByKey[DeviceKey(s.calls[c].d)]));
    Chain(start, states, steps, Lookup(c));
    states', steps' := states + [s2], steps + [Lookup(c)];
    Chain(start, states', steps', Rotate(c));
    states', steps' := states' + [Next(s2, Rotate(c))], steps' + [Rotate(c)];
  }

  /** The read returns the pair of the log's last entry if that writes the triple. */
  lemma ReadSeesLast(start: MemState, states: seq<Sys>, steps: seq<Step>, c: nat)
    requires Behaviour(start, states, steps)
    requires c < |states[|steps|].calls| && states[|steps|].calls[c].phase.Written? && states[|steps|].log != []
    requires var s := states[|steps|]; Writes(s.log[|s.log| - 1], DeviceKey(s.calls[c].d))
    ensures var s := states[|steps|]; var t := Next(s, ReadBack(c));
      && Behaviour(start, states + [t], steps + [ReadBack(c)])
      && |t.calls| == |s.calls| && t.calls[c].d == s.calls[c].d && t.calls[c].phase.Finished?
      && SamePair(t.calls[c].phase.d, s.log[|s.log| - 1].op.d)
  {
    var s := states[|steps|];
    BehaviourInv(start, states, steps, |steps|);
    ReadBackFinishes(start, s, c);
    Chain(start, states, steps, ReadBack(c));
    FreshRead(start, states + [Next(s, ReadBack(c))], steps + [ReadBack(c)], c);
  }

  lemma FreshRead(start: MemState, states: seq<Sys>, steps: seq<Step>, c: nat)
    requires Behaviour(start, states, steps)
    requires c < |states[|steps|].calls| && states[|steps|].calls[c].phase.Finished?
    requires var s := states[|steps|]; s.log != [] && s.calls[c].phase.at == |s.log|
    requires var s := states[|steps|]; Writes(s.log[|s.log| - 1], DeviceKey(s.calls[c].d))
    ensures var s := states[|steps|]; SamePair(s.calls[c].phase.d, s.log[|s.log| - 1].op.d)
  {
    var own, last := OwnAnswerIff(start, states, steps, |steps|, c);
  }

  lemma ReadBackFinishes(start: MemState, s: Sys, c: nat)
    requires Inv(start, s) && c < |s.calls| && s.calls[c].phase.Written?
    ensures var t := Next(s, ReadBack(c));
      && t.log == s.log && |t.calls| == |s.calls| && t.calls[c].d == s.calls[c].d
      && t.calls[c].phase.Finished? && t.calls[c].phase.at == |s.log|
  {
    assert CallOk(start, s, c);
  }

  /** Unlike the reference, a call need not return its own token: whatever other
      calls there are, some interleaving makes it return the pair of any given other
      call for its triple. */
  lemma ReadBackMaySeeAnother(start: MemState, s: Sys, c: nat, other: nat) returns (states: seq<Sys>, steps: seq<Step>)
    requires Init(start, s) && c < |s.calls| && other < |s.calls| && c != other
    requires DeviceKey(s.calls[c].d) == DeviceKey(s.calls[other].d)
    ensures Behaviour(start, states, steps) && states[0] == s
    ensures var t := states[|steps|];
      && c < |t.calls| && t.calls[c].d == s.calls[c].d && t.calls[c].phase.Finished?
      && SamePair(t.calls[c].phase.d, s.calls[other].d)
  {
    states, steps := DriveToWrite(start, [s], [], c);
    states, steps := DriveToWrite(start, states, steps, other);
    ReadSeesLast(start, states, steps, c);
    states, steps := states + [Next(states[|steps|], ReadBack(c))], steps + [ReadBack(c)];
  }

  /** If call c has finished, it got the answer the reference gave it. */
  ghost predicate GotOwnAnswer(s: Sys, c: nat) {
    c < |s.calls| && (s.calls[c].phase.Finished? ==>
      forall own | 0 <= own < |s.log| && s.log[own].call == c :: s.log[own].result == Registered(s.calls[c].phase.d))
  }

  lemma {:induction false} CallsStay(start: MemState, states: seq<Sys>, steps: seq<Step>, i: nat)
    requires Behaviour(start, states, steps) && i < |states|
    ensures |states[i].calls| == |states[0].calls|
    ensures forall c | 0 <= c < |states[0].calls| :: states[i].calls[c].d == states[0].calls[c].d
  {
    if i > 0 {
      CallsStay(start, states, steps, i - 1);
      assert states[i] == Next(states[i - 1], steps[i - 1]);
    }
  }

  lemma AgreementGivesOwn(start: MemState, states: seq<Sys>, steps: seq<Step>, c: nat)
    requires Behaviour(start, states, steps) && c < |states[0].calls| && PairsAgree(states[0].calls, c)
    ensures GotOwnAnswer(states[|steps|], c)
  {
    var s := states[|steps|];
    CallsStay(start, states, steps, |steps|);
    BehaviourInv(start, states, steps, |steps|);
    if s.calls[c].phase.Finished? {
      var own, last := OwnAnswerIff(start, states, steps, |steps|, c);
      EntryIsItsCall(start, s, last);
    }
  }

  lemma EntryIsItsCall(start: MemState, s: Sys, j: nat)
    requires CallsOk(start, s) && j < |s.log|
    ensures s.log[j].call < |s.calls| && s.log[j].op.Upsert? && s.log[j].op.d == s.calls[s.log[j].call].d.(id := [])
  {
    assert CallOk(start, s, s.log[j].call);
  }

  /** The other calls for c's triple carry c's pair. */
  predicate PairsAgree(calls: seq<Call>, c: nat)
    requires c < |calls|
  {
    forall b | 0 <= b < |calls| && DeviceKey(calls[b].d) == DeviceKey(calls[c].d) :: SamePair(calls[b].d, calls[c].d)
  }

  /** A call is sure to get the reference's answer, however the calls interleave,
      exactly when no other call for its triple carries a different pair. */
  lemma OwnAnswerAlwaysIff(start: MemState, s: Sys, c: nat)
    requires Init(start, s) && c < |s.calls|
    ensures (forall states, steps | Behaviour(start, states, steps) && states[0] == s ::
               GotOwnAnswer(states[|steps|], c))
      <==> PairsAgree(s.calls, c)
  {
    if PairsAgree(s.calls, c) {
      forall states, steps | Behaviour(start, states, steps) && states[0] == s
        ensures GotOwnAnswer(states[|steps|], c)
      {
        AgreementGivesOwn(start, states, steps, c);
      }
    } else {
      var b :| 0 <= b < |s.calls| && DeviceKey(s.calls[b].d) == DeviceKey(s.calls[c].d)
        && !SamePair(s.calls[b].d, s.calls[c].d);
      var states, steps := ReadBackMaySeeAnother(start, s, c, b);
      var own, last := OwnAnswerIff(start, states, steps, |steps|, c);
      assert !GotOwnAnswer(states[|steps|], c);
    }
  }

  // ---- Progress ----

  /** Steps a call can still take. */
  function StepsLeft(phase: Phase): nat {
    match phase
    case Ready => 4
    case Rejected => 3
    case Resolved(_) => 2
    case Written(_) => 1
    case _ => 0
  }

  function AllStepsLeft(calls: seq<Call>): nat {
    if calls == [] then 0 else StepsLeft(calls[0].phase) + AllStepsLeft(calls[1..])
  }

  lemma {:induction false} StepsLeftPut(calls: seq<Call>, c: nat, call: Call)
    requires c < |calls|
    ensures AllStepsLeft(calls[c := call])
      == AllStepsLeft(calls) - StepsLeft(calls[c].phase) + StepsLeft(call.phase)
  {
    if c > 0 {
      StepsLeftPut(calls[1..], c - 1, call);
      assert calls[c := call][1..] == calls[1..][c - 1 := call];
    } else {
      assert calls[c := call][1..] == calls[1..];
    }
  }

  lemma {:induction false} StepsLeftAtMost(calls: seq<Call>)
    ensures AllStepsLeft(calls) <= 4 * |calls|
  {
    if calls != [] { StepsLeftAtMost(calls[1..]); }
  }

  lemma StepSpends(s: Sys, step: Step)
    requires Enabled(s, step)
    ensures AllStepsLeft(Next(s, step).calls) < AllStepsLeft(s.calls)
  {
    StepsLeftPut(s.calls, step.c, Next(s, step).calls[step.c]);
    assert Next(s, step).calls == s.calls[step.c := Next(s, step).calls[step.c]];
  }

  lemma {:induction false} SpentSoFar(start: MemState, states: seq<Sys>, steps: seq<Step>, i: nat)
    requires Behaviour(start, states, steps) && i < |states|
    ensures AllStepsLeft(states[i].calls) + i <= AllStepsLeft(states[0].calls)
  {
    if i > 0 {
      SpentSoFar(start, states, steps, i - 1);
      StepSpends(states[i - 1], steps[i - 1]);
    }
  }

  /** No behaviour takes more than four steps per call. */
  lemma BehavioursAreBounded(start: MemState, states: seq<Sys>, steps: seq<Step>)
    requires Behaviour(start, states, steps)
    ensures |steps| <= 4 * |states[0].calls|
  {
    SpentSoFar(start, states, steps, |steps|);
    StepsLeftAtMost(states[0].calls);
  }

  /** A call that has not finished can take a step, whatever the others do. */
  lemma UnfinishedGoesOn(start: MemState, states: seq<Sys>, steps: seq<Step>, i: nat, c: nat) returns (step: Step)
    requires Behaviour(start, states, steps) && i < |states| && c < |states[i].calls|
    requires !states[i].calls[c].phase.Finished?
    ensures step.c == c && Enabled(states[i], step)
  {
    var s := states[i];
    BehaviourInv(start, states, steps, i);
    assert CallOk(start, s, c);
    var minted := FreshStr(s.nodes.Keys);
    step := match s.calls[c].phase
      case Ready => Commit(c, minted)
      case Rejected => Lookup(c)
      case Resolved(_) => Rotate(c)
      case _ => ReadBack(c);
  }
}
