/** realtime/retry.go as interleaved atomic steps: the lock-protected calls Track,
    Ack and CancelAll, cancellation of a parent context, and, for every retry
    goroutine, one timer fire with its callback, the exit on a done context, and
    the final eviction. Once its context is done a loop may still take a ready
    timer, as a select with two ready cases may. */
module Retry {
  import opened Domain

  /** Evicting: the last attempt is done, the locked eviction is still to come. */
  datatype Pc = Waiting | Evicting | Exited(evicted: bool)

  /** One goroutine: `calls` counts its callback invocations. */
  datatype Loop = Loop(key: Str, conn: Str, parent: nat, calls: nat, cancelled: bool, pc: Pc) {
    predicate Running() {
      !pc.Exited?
    }

    predicate Live() {
      Running() && !cancelled
    }

    predicate For(k: Str, c: Str) {
      key == k && conn == c
    }
  }

  /** A table entry holds the cancel function of a loop, here the loop's number. */
  datatype Tracker = Tracker(max: int, table: map<Str, map<Str, nat>>, loops: seq<Loop>, doneParents: set<nat>)

  function Entry(t: Tracker, key: Str, conn: Str): Option<nat> {
    if key in t.table && conn in t.table[key] then Some(t.table[key][conn]) else None
  }

  predicate Owns(t: Tracker, i: nat)
    requires i < |t.loops|
  {
    Entry(t, t.loops[i].key, t.loops[i].conn) == Some(i)
  }

  // ---- The calls ----

  function TrackOne(t: Tracker, parent: nat, key: Str, conn: Str): Tracker {
    if Entry(t, key, conn).Some? then t
    else
      var states: map<Str, nat> := if key in t.table then t.table[key] else map[];
      t.(table := t.table[key := states[conn := |t.loops|]],
         loops := t.loops + [Loop(key, conn, parent, 0, parent in t.doneParents, Waiting)])
  }

  function TrackEach(t: Tracker, parent: nat, key: Str, conns: seq<Str>): Tracker
    decreases |conns|
  {
    if conns == [] then t else TrackEach(TrackOne(t, parent, key, conns[0]), parent, key, conns[1..])
  }

  function TrackSpec(t: Tracker, parent: nat, key: Str, conns: seq<Str>): Tracker {
    if t.max <= 0 then t else TrackEach(t, parent, key, conns)
  }

  function Cancelled(loops: seq<Loop>, i: nat): seq<Loop> {
    if i < |loops| then loops[i := loops[i].(cancelled := true)] else loops
  }

  /** delete(states, conn), and delete(byKey, key) when that leaves it empty. */
  function Without(table: map<Str, map<Str, nat>>, key: Str, conn: Str): map<Str, map<Str, nat>> {
    if key !in table then table
    else
      var states := table[key] - {conn};
      if states == map[] then table - {key} else table[key := states]
  }

  function AckSpec(t: Tracker, key: Str, conn: Str): Tracker {
    match Entry(t, key, conn)
    case None => t
    case Some(i) => t.(table := Without(t.table, key, conn), loops := Cancelled(t.loops, i))
  }

  function CancelOwned(t: Tracker): (r: seq<Loop>)
    ensures |r| == |t.loops|
    ensures forall i | 0 <= i < |r| :: r[i] == if Owns(t, i) then t.loops[i].(cancelled := true) else t.loops[i]
  {
    seq(|t.loops|, i requires 0 <= i < |t.loops| => if Owns(t, i) then t.loops[i].(cancelled := true) else t.loops[i])
  }

  function CancelAllSpec(t: Tracker): Tracker {
    t.(table := map[], loops := CancelOwned(t))
  }

  // ---- The environment and the goroutines ----

  function ParentDoneSpec(t: Tracker, parent: nat): Tracker {
    t.(doneParents := t.doneParents + {parent},
       loops := seq(|t.loops|, i requires 0 <= i < |t.loops| =>
         if t.loops[i].parent == parent then t.loops[i].(cancelled := true) else t.loops[i]))
  }

  function FireSpec(t: Tracker, i: nat): Tracker
    requires i < |t.loops|
  {
    var l := t.loops[i];
    t.(loops := t.loops[i := l.(calls := l.calls + 1, pc := if l.calls + 1 >= t.max then Evicting else Waiting)])
  }

  function StopSpec(t: Tracker, i: nat): Tracker
    requires i < |t.loops|
  {
    t.(loops := t.loops[i := t.loops[i].(pc := Exited(false))])
  }

  /** Deletes by (key, conn), whichever loop's entry is there. */
  function EvictSpec(t: Tracker, i: nat): Tracker
    requires i < |t.loops|
  {
    var l := t.loops[i];
    t.(table := Without(t.table, l.key, l.conn), loops := t.loops[i := l.(pc := Exited(true))])
  }

  datatype Step =
    | Track(parent: nat, key: Str, conns: seq<Str>) | Ack(key: Str, conn: Str) | CancelAll | ParentDone(parent: nat)
    | Fire(i: nat) | Stop(i: nat) | Evict(i: nat)

  predicate LoopStep(step: Step) {
    step.Fire? || step.Stop? || step.Evict?
  }

  predicate Enabled(t: Tracker, step: Step) {
    match step
    case Fire(i) => i < |t.loops| && t.loops[i].pc == Waiting
    case Stop(i) => i < |t.loops| && t.loops[i].pc == Waiting && t.loops[i].cancelled
    case Evict(i) => i < |t.loops| && t.loops[i].pc == Evicting
    case _ => true
  }

  function Next(t: Tracker, step: Step): Tracker
    requires Enabled(t, step)
  {
    match step
    case Track(parent, key, conns) => TrackSpec(t, parent, key, conns)
    case Ack(key, conn) => AckSpec(t, key, conn)
    case CancelAll => CancelAllSpec(t)
    case ParentDone(parent) => ParentDoneSpec(t, parent)
    case Fire(i) => FireSpec(t, i)
    case Stop(i) => StopSpec(t, i)
    case Evict(i) => EvictSpec(t, i)
  }

  // ---- What every interleaving keeps ----

  predicate LoopOk(t: Tracker, l: Loop) {
    && t.max > 0
    && match l.pc
       case Waiting => l.calls < t.max
       case Evicting => l.calls == t.max
       case Exited(evicted) => if evicted then l.calls == t.max else l.calls < t.max
  }

  ghost predicate TableOk(table: map<Str, map<Str, nat>>, loops: seq<Loop>) {
    && (forall k | k in table :: table[k] != map[])
    && (forall k, c | k in table && c in table[k] :: table[k][c] < |loops| && loops[table[k][c]].For(k, c))
  }

  /** No key with an empty inner map; every entry belongs to a loop of its pair; a
      loop that evicted has made exactly max calls, one that stopped made fewer. */
  ghost predicate Inv(t: Tracker) {
    TableOk(t.table, t.loops) && forall i | 0 <= i < |t.loops| :: LoopOk(t, t.loops[i])
  }

  lemma TrackOneKeepsInv(t: Tracker, parent: nat, key: Str, conn: Str)
    requires Inv(t) && t.max > 0
    ensures Inv(TrackOne(t, parent, key, conn))
  {
    var u := TrackOne(t, parent, key, conn);
    assert forall i | 0 <= i < |t.loops| :: u.loops[i] == t.loops[i];
    assert conn in u.table[key];
  }

  lemma {:induction false} TrackKeepsInv(t: Tracker, parent: nat, key: Str, conns: seq<Str>)
    requires Inv(t) && t.max > 0
    ensures Inv(TrackEach(t, parent, key, conns))
    decreases |conns|
  {
    if conns != [] {
      TrackOneKeepsInv(t, parent, key, conns[0]);
      TrackKeepsInv(TrackOne(t, parent, key, conns[0]), parent, key, conns[1..]);
    }
  }

  /** Steps after which every entry was there before and loops have only progressed. */
  lemma ProgressKeepsInv(t: Tracker, u: Tracker)
    requires Inv(t) && u.max == t.max && |u.loops| == |t.loops| && TableOk(u.table, t.loops)
    requires forall i | 0 <= i < |t.loops| :: u.loops[i].For(t.loops[i].key, t.loops[i].conn) && LoopOk(u, u.loops[i])
    ensures Inv(u)
  {}

  lemma WithoutOk(table: map<Str, map<Str, nat>>, loops: seq<Loop>, key: Str, conn: Str)
    requires TableOk(table, loops)
    ensures TableOk(Without(table, key, conn), loops)
  {}

  lemma FireKeepsInv(t: Tracker, i: nat)
    requires Inv(t) && Enabled(t, Fire(i))
    ensures Inv(FireSpec(t, i))
  {
    assert LoopOk(t, t.loops[i]);
    ProgressKeepsInv(t, FireSpec(t, i));
  }

  lemma StopKeepsInv(t: Tracker, i: nat)
    requires Inv(t) && Enabled(t, Stop(i))
    ensures Inv(StopSpec(t, i))
  {
    assert LoopOk(t, t.loops[i]);
    ProgressKeepsInv(t, StopSpec(t, i));
  }

  lemma EvictKeepsInv(t: Tracker, i: nat)
    requires Inv(t) && Enabled(t, Evict(i))
    ensures Inv(EvictSpec(t, i))
  {
    assert LoopOk(t, t.loops[i]);
    WithoutOk(t.table, t.loops, t.loops[i].key, t.loops[i].conn);
    ProgressKeepsInv(t, EvictSpec(t, i));
  }

  lemma AckKeepsInv(t: Tracker, key: Str, conn: Str)
    requires Inv(t)
    ensures Inv(AckSpec(t, key, conn))
  {
    WithoutOk(t.table, t.loops, key, conn);
    ProgressKeepsInv(t, AckSpec(t, key, conn));
  }

  lemma NextKeepsInv(t: Tracker, step: Step)
    requires Inv(t) && Enabled(t, step)
    ensures Inv(Next(t, step))
  {
    match step
    case Track(parent, key, conns) => if t.max > 0 { TrackKeepsInv(t, parent, key, conns); }
    case Ack(key, conn) => AckKeepsInv(t, key, conn);
    case CancelAll => ProgressKeepsInv(t, CancelAllSpec(t));
    case ParentDone(parent) => ProgressKeepsInv(t, ParentDoneSpec(t, parent));
    case Fire(i) => FireKeepsInv(t, i);
    case Stop(i) => StopKeepsInv(t, i);
    case Evict(i) => EvictKeepsInv(t, i);
  }

  // ---- Ownership ----

  /** Every running, uncancelled loop is the one its pair's entry would cancel. */
  ghost predicate Owned(t: Tracker) {
    forall i | 0 <= i < |t.loops| && t.loops[i].Live() :: Owns(t, i)
  }

  /** No running, uncancelled loop shares its pair with another running loop. */
  ghost predicate NoRival(t: Tracker) {
    forall i, j | 0 <= i < |t.loops| && 0 <= j < |t.loops| && i != j && t.loops[i].Live() && t.loops[j].Running() ::
      !t.loops[j].For(t.loops[i].key, t.loops[i].conn)
  }

  /** The step does not start a loop for a pair some older loop still runs for. */
  ghost predicate CleanTrack(t: Tracker, step: Step) {
    step.Track? ==>
      forall c, j | c in step.conns && Entry(t, step.key, c).None? && 0 <= j < |t.loops| && t.loops[j].Running() ::
        !t.loops[j].For(step.key, c)
  }

  lemma EntryWithout(t: Tracker, key: Str, conn: Str, k: Str, c: Str)
    ensures Entry(t.(table := Without(t.table, key, conn)), k, c)
      == if k == key && c == conn then None else Entry(t, k, c)
  {
    if key in t.table {
      var states := t.table[key] - {conn};
      assert c in t.table[key] && c != conn ==> c in states;
    }
  }

  lemma TrackOneKeepsOwned(t: Tracker, parent: nat, key: Str, conn: Str)
    requires Owned(t) && NoRival(t)
    requires Entry(t, key, conn).None? ==>
      forall j | 0 <= j < |t.loops| && t.loops[j].Running() :: !t.loops[j].For(key, conn)
    ensures Owned(TrackOne(t, parent, key, conn)) && NoRival(TrackOne(t, parent, key, conn))
  {
    var u := TrackOne(t, parent, key, conn);
    assert forall i | 0 <= i < |t.loops| :: u.loops[i] == t.loops[i];
    forall i | 0 <= i < |u.loops| && u.loops[i].Live() ensures Owns(u, i) {
      if i < |t.loops| { assert Owns(t, i); }
    }
  }

  lemma {:induction false} TrackKeepsOwned(t: Tracker, parent: nat, key: Str, conns: seq<Str>)
    requires Owned(t) && NoRival(t) && CleanTrack(t, Track(parent, key, conns))
    ensures Owned(TrackEach(t, parent, key, conns)) && NoRival(TrackEach(t, parent, key, conns))
    decreases |conns|
  {
    if conns != [] {
      var u := TrackOne(t, parent, key, conns[0]);
      TrackOneKeepsOwned(t, parent, key, conns[0]);
      forall c, j | c in conns[1..] && Entry(u, key, c).None? && 0 <= j < |u.loops| && u.loops[j].Running()
        ensures !u.loops[j].For(key, c)
      {
        assert c in conns && Entry(t, key, c).None?;
      }
      TrackKeepsOwned(u, parent, key, conns[1..]);
    }
  }

  lemma EvictKeepsOwned(t: Tracker, i: nat)
    requires Owned(t) && NoRival(t) && Enabled(t, Evict(i))
    ensures Owned(EvictSpec(t, i)) && NoRival(EvictSpec(t, i))
  {
    var u := EvictSpec(t, i);
    forall j | 0 <= j < |u.loops| && u.loops[j].Live() ensures Owns(u, j) {
      assert Owns(t, j) && !t.loops[i].For(t.loops[j].key, t.loops[j].conn);
      EntryWithout(t, t.loops[i].key, t.loops[i].conn, t.loops[j].key, t.loops[j].conn);
    }
  }

  lemma AckKeepsOwned(t: Tracker, key: Str, conn: Str)
    requires Owned(t) && NoRival(t) && Inv(t)
    ensures Owned(AckSpec(t, key, conn)) && NoRival(AckSpec(t, key, conn))
  {
    var u := AckSpec(t, key, conn);
    forall j | 0 <= j < |u.loops| && u.loops[j].Live() ensures Owns(u, j) {
      assert Owns(t, j);
      EntryWithout(t, key, conn, t.loops[j].key, t.loops[j].conn);
    }
  }

  /** Steps that leave the table alone and only take loops further. */
  lemma ProgressKeepsOwned(t: Tracker, u: Tracker)
    requires Owned(t) && NoRival(t) && u.table == t.table && |u.loops| == |t.loops|
    requires forall i | 0 <= i < |t.loops| ::
      && u.loops[i].For(t.loops[i].key, t.loops[i].conn)
      && (u.loops[i].Live() ==> t.loops[i].Live()) && (u.loops[i].Running() ==> t.loops[i].Running())
    ensures Owned(u) && NoRival(u)
  {
    forall j | 0 <= j < |u.loops| && u.loops[j].Live() ensures Owns(u, j) {
      assert Owns(t, j);
    }
  }

  lemma CancelAllKeepsOwned(t: Tracker)
    requires Owned(t)
    ensures Owned(CancelAllSpec(t)) && NoRival(CancelAllSpec(t))
  {
    forall j | 0 <= j < |t.loops| ensures !CancelAllSpec(t).loops[j].Live() {
      assert t.loops[j].Live() ==> Owns(t, j);
    }
  }

  lemma NextKeepsOwned(t: Tracker, step: Step)
    requires Inv(t) && Owned(t) && NoRival(t) && Enabled(t, step) && CleanTrack(t, step)
    ensures Owned(Next(t, step)) && NoRival(Next(t, step))
  {
    match step
    case Track(parent, key, conns) => if t.max > 0 { TrackKeepsOwned(t, parent, key, conns); }
    case Ack(key, conn) => AckKeepsOwned(t, key, conn);
    case Evict(i) => EvictKeepsOwned(t, i);
    case CancelAll => CancelAllKeepsOwned(t);
    case ParentDone(parent) => ProgressKeepsOwned(t, ParentDoneSpec(t, parent));
    case Fire(i) => ProgressKeepsOwned(t, FireSpec(t, i));
    case Stop(i) => ProgressKeepsOwned(t, StopSpec(t, i));
  }

  ghost predicate Init(t: Tracker) {
    t.table == map[] && t.loops == []
  }

  ghost predicate Behaviour(states: seq<Tracker>, steps: seq<Step>) {
    && |states| == |steps| + 1
    && forall i | 0 <= i < |steps| :: Enabled(states[i], steps[i]) && states[i + 1] == Next(states[i], steps[i])
  }

  lemma {:induction false} BehaviourInv(states: seq<Tracker>, steps: seq<Step>, i: nat)
    requires Behaviour(states, steps) && Init(states[0]) && i < |states|
    ensures Inv(states[i])
  {
    if i > 0 {
      BehaviourInv(states, steps, i - 1);
      NextKeepsInv(states[i - 1], steps[i - 1]);
    }
  }

  /** In every interleaving whose Tracks are clean, live loops own their entries. */
  lemma {:induction false} CleanBehavioursOwn(states: seq<Tracker>, steps: seq<Step>, i: nat)
    requires Behaviour(states, steps) && Init(states[0]) && i < |states|
    requires forall j | 0 <= j < i :: CleanTrack(states[j], steps[j])
    ensures Inv(states[i]) && Owned(states[i]) && NoRival(states[i])
  {
    BehaviourInv(states, steps, i);
    if i > 0 {
      CleanBehavioursOwn(states, steps, i - 1);
      NextKeepsOwned(states[i - 1], steps[i - 1]);
    }
  }

  /** Then Ack cancels the live loop of its pair, if there is one, and no other
      loop, and removes exactly that entry. */
  lemma AckCancels(states: seq<Tracker>, steps: seq<Step>, i: nat, key: Str, conn: Str)
    requires Behaviour(states, steps) && Init(states[0]) && i < |states|
    requires forall j | 0 <= j < i :: CleanTrack(states[j], steps[j])
    ensures var t := states[i]; var u := AckSpec(t, key, conn);
      && |u.loops| == |t.loops|
      && (forall j | 0 <= j < |u.loops| && u.loops[j].For(key, conn) :: !u.loops[j].Live())
      && (forall j | 0 <= j < |u.loops| && !u.loops[j].For(key, conn) :: u.loops[j] == t.loops[j])
      && (forall k, c :: Entry(u, k, c) == if k == key && c == conn then None else Entry(t, k, c))
  {
    CleanBehavioursOwn(states, steps, i);
    var t := states[i];
    forall j | 0 <= j < |t.loops| && t.loops[j].For(key, conn) && t.loops[j].Live()
      ensures Entry(t, key, conn) == Some(j)
    {
      assert Owns(t, j);
    }
    forall k, c ensures Entry(AckSpec(t, key, conn), k, c) == if k == key && c == conn then None else Entry(t, k, c) {
      EntryWithout(t, key, conn, k, c);
    }
  }

  /** And CancelAll leaves an empty table and no live loop. */
  lemma CancelAllCancels(states: seq<Tracker>, steps: seq<Step>, i: nat)
    requires Behaviour(states, steps) && Init(states[0]) && i < |states|
    requires forall j | 0 <= j < i :: CleanTrack(states[j], steps[j])
    ensures var u := CancelAllSpec(states[i]);
      && u.table == map[] && |u.loops| == |states[i].loops|
      && forall j | 0 <= j < |u.loops| :: !u.loops[j].Live()
  {
    CleanBehavioursOwn(states, steps, i);
    var t := states[i];
    forall j | 0 <= j < |t.loops| ensures !CancelAllSpec(t).loops[j].Live() {
      assert t.loops[j].Live() ==> Owns(t, j);
    }
  }

  // ---- The assumption is needed, exactly ----

  ghost predicate LoopBehaviour(t: Tracker, states: seq<Tracker>, steps: seq<Step>) {
    Behaviour(states, steps) && states[0] == t && forall i | 0 <= i < |steps| :: LoopStep(steps[i])
  }

  /** Whatever the goroutines do next, live loops keep their entries. */
  ghost predicate SafeFromLoops(t: Tracker) {
    forall states, steps | LoopBehaviour(t, states, steps) :: Owned(states[|steps|])
  }

  lemma {:induction false} NoRivalIsSafe(t: Tracker, states: seq<Tracker>, steps: seq<Step>, i: nat)
    requires Inv(t) && Owned(t) && NoRival(t) && LoopBehaviour(t, states, steps) && i < |states|
    ensures Inv(states[i]) && Owned(states[i]) && NoRival(states[i])
  {
    if i > 0 {
      NoRivalIsSafe(t, states, steps, i - 1);
      NextKeepsInv(states[i - 1], steps[i - 1]);
      NextKeepsOwned(states[i - 1], steps[i - 1]);
    }
  }

  /** A running rival can spend its attempts and evict the live loop's entry. */
  lemma {:induction false} RivalEvicts(t: Tracker, live: nat, rival: nat)
    returns (states: seq<Tracker>, steps: seq<Step>)
    requires Inv(t) && live < |t.loops| && rival < |t.loops| && live != rival
    requires t.loops[live].Live() && t.loops[rival].Running()
    requires t.loops[rival].For(t.loops[live].key, t.loops[live].conn)
    ensures LoopBehaviour(t, states, steps)
    ensures !Owned(states[|steps|])
    decreases t.max - t.loops[rival].calls
  {
    assert LoopOk(t, t.loops[rival]);
    var step := if t.loops[rival].pc == Evicting then Evict(rival) else Fire(rival);
    var u := Next(t, step);
    if t.loops[rival].pc == Evicting {
      states, steps := [t, u], [step];
      EntryWithout(t, t.loops[rival].key, t.loops[rival].conn, t.loops[live].key, t.loops[live].conn);
      assert u.loops[live].Live() && !Owns(u, live);
    } else {
      NextKeepsInv(t, step);
      var states', steps' := RivalEvicts(u, live, rival);
      states, steps := [t] + states', [step] + steps';
      assert states[|steps|] == states'[|steps'|];
    }
  }

  /** Exactly when no live loop has a running rival can no schedule of the
      goroutines take an entry away from a live loop. */
  lemma SafeIffNoRival(t: Tracker)
    requires Inv(t) && Owned(t)
    ensures SafeFromLoops(t) <==> NoRival(t)
  {
    if NoRival(t) {
      forall states, steps | LoopBehaviour(t, states, steps) ensures Owned(states[|steps|]) {
        NoRivalIsSafe(t, states, steps, |steps|);
      }
    } else {
      var i, j :| 0 <= i < |t.loops| && 0 <= j < |t.loops| && i != j && t.loops[i].Live() && t.loops[j].Running()
        && t.loops[j].For(t.loops[i].key, t.loops[i].conn);
      var states, steps := RivalEvicts(t, i, j);
    }
  }

  lemma TrackSingle(t: Tracker, parent: nat, key: Str, conn: Str)
    requires t.max > 0
    ensures TrackSpec(t, parent, key, [conn]) == TrackOne(t, parent, key, conn)
  {
    assert [conn][1..] == [];
    assert TrackEach(t, parent, key, [conn]) == TrackEach(TrackOne(t, parent, key, conn), parent, key, []);
  }

  /** Such a rival arises from an Ack followed by a new Track before the old loop
      has exited. */
  lemma AckThenTrackMakesRival(max: int, key: Str, conn: Str) returns (states: seq<Tracker>, steps: seq<Step>)
    requires max > 0
    ensures Behaviour(states, steps) && Init(states[0])
    ensures var t := states[|steps|]; Inv(t) && Owned(t) && !NoRival(t) && !SafeFromLoops(t)
  {
    var live := Loop(key, conn, 0, 0, false, Waiting);
    var acked := live.(cancelled := true);
    var s0 := Tracker(max, map[], [], {});
    var s1 := Tracker(max, map[key := map[conn := 0]], [live], {});
    var s2 := Tracker(max, map[], [acked], {});
    var s3 := Tracker(max, map[key := map[conn := 1]], [acked, live], {});
    states := [s0, s1, s2, s3];
    steps := [Track(0, key, [conn]), Ack(key, conn), Track(0, key, [conn])];
    TrackSingle(s0, 0, key, conn);
    assert TrackOne(s0, 0, key, conn) == s1;
    assert map[conn := 0] - {conn} == map[];
    assert AckSpec(s1, key, conn).table == s2.table;
    TrackSingle(s2, 0, key, conn);
    assert TrackOne(s2, 0, key, conn) == s3;
    BehaviourInv(states, steps, 3);
    assert s3.loops[1].Live() && s3.loops[0].Running() && s3.loops[0].For(key, conn);
    SafeIffNoRival(s3);
  }
}
