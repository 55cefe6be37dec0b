/** Whole runs of the retry tracker: entries that outlive their loop, how often a
    callback is called, and how many steps the goroutines can take. */
module RetryRuns {
  import opened Domain
  import opened Retry

  // ---- What Track starts ----

  /** The pairs of the call that had no entry. */
  ghost function Untracked(t: Tracker, key: Str, conns: seq<Str>): set<Str> {
    set c | c in conns && Entry(t, key, c).None?
  }

  /** A connection without an entry before has its entry at a new loop of the pair and
      the given parent, waiting and with no call made. */
  ghost predicate NewEntries(t: Tracker, u: Tracker, parent: nat, key: Str, conns: seq<Str>) {
    forall c | c in Untracked(t, key, conns) ::
      && Entry(u, key, c).Some? && |t.loops| <= Entry(u, key, c).value < |u.loops|
      && u.loops[Entry(u, key, c).value] == Loop(key, c, parent, 0, parent in t.doneParents, Waiting)
  }

  ghost predicate OtherEntriesStay(t: Tracker, u: Tracker, key: Str, conns: seq<Str>) {
    forall k, c | k != key || c !in Untracked(t, key, conns) :: Entry(u, k, c) == Entry(t, k, c)
  }

  /** Every new loop is the entry of its own pair. */
  ghost predicate NewLoopsOwn(t: Tracker, u: Tracker, key: Str, conns: seq<Str>) {
    forall i | |t.loops| <= i < |u.loops| ::
      u.loops[i].conn in Untracked(t, key, conns) && Entry(u, key, u.loops[i].conn) == Some(i)
  }

  /** u is t after a Track of the connections: each has an entry, the untracked ones a
      new loop each; every other entry and every old loop stays; and the new loops are
      as many as the distinct untracked connections. */
  ghost predicate Started(t: Tracker, u: Tracker, parent: nat, key: Str, conns: seq<Str>) {
    && u.max == t.max && u.doneParents == t.doneParents && t.loops <= u.loops
    && (forall c | c in conns :: Entry(u, key, c).Some?)
    && NewEntries(t, u, parent, key, conns)
    && OtherEntriesStay(t, u, key, conns)
    && NewLoopsOwn(t, u, key, conns)
    && |u.loops| - |t.loops| == |Untracked(t, key, conns)|
  }

  lemma TrackOneStarts(t: Tracker, parent: nat, key: Str, conn: Str)
    ensures Started(t, TrackOne(t, parent, key, conn), parent, key, [conn])
  {
    assert Untracked(t, key, [conn]) == if Entry(t, key, conn).None? then {conn} else {};
  }

  lemma UntrackedCons(t: Tracker, u: Tracker, key: Str, conns: seq<Str>)
    requires conns != [] && OtherEntriesStay(t, u, key, [conns[0]]) && Entry(u, key, conns[0]).Some?
    ensures Untracked(t, key, conns) == Untracked(t, key, [conns[0]]) + Untracked(u, key, conns[1..])
    ensures Untracked(t, key, [conns[0]]) * Untracked(u, key, conns[1..]) == {}
  {
    assert conns == [conns[0]] + conns[1..];
    assert conns[0] in [conns[0]];
  }

  lemma EntriesCompose(t: Tracker, u: Tracker, v: Tracker, parent: nat, key: Str, conns: seq<Str>)
    requires conns != [] && Started(t, u, parent, key, [conns[0]]) && Started(u, v, parent, key, conns[1..])
    ensures NewEntries(t, v, parent, key, conns) && OtherEntriesStay(t, v, key, conns)
  {
    UntrackedCons(t, u, key, conns);
    assert forall i | 0 <= i < |u.loops| :: v.loops[i] == u.loops[i];
  }

  lemma LoopsCompose(t: Tracker, u: Tracker, v: Tracker, parent: nat, key: Str, conns: seq<Str>)
    requires conns != [] && Started(t, u, parent, key, [conns[0]]) && Started(u, v, parent, key, conns[1..])
    ensures NewLoopsOwn(t, v, key, conns)
  {
    UntrackedCons(t, u, key, conns);
    assert forall i | 0 <= i < |u.loops| :: v.loops[i] == u.loops[i];
  }

  lemma StartedCompose(t: Tracker, u: Tracker, v: Tracker, parent: nat, key: Str, conns: seq<Str>)
    requires conns != [] && Started(t, u, parent, key, [conns[0]]) && Started(u, v, parent, key, conns[1..])
    ensures Started(t, v, parent, key, conns)
  {
    UntrackedCons(t, u, key, conns);
    EntriesCompose(t, u, v, parent, key, conns);
    LoopsCompose(t, u, v, parent, key, conns);
    assert conns == [conns[0]] + conns[1..];
    assert conns[0] in [conns[0]];
  }

  /** Every Track, of any number of connections. */
  lemma {:induction false} TrackStarts(t: Tracker, parent: nat, key: Str, conns: seq<Str>)
    ensures Started(t, TrackEach(t, parent, key, conns), parent, key, conns)
    decreases |conns|
  {
    if conns == [] {
      assert Untracked(t, key, conns) == {};
    } else {
      var u := TrackOne(t, parent, key, conns[0]);
      TrackOneStarts(t, parent, key, conns[0]);
      TrackStarts(u, parent, key, conns[1..]);
      StartedCompose(t, u, TrackEach(u, parent, key, conns[1..]), parent, key, conns);
    }
  }

  /** With retries off Track does nothing; otherwise it starts what Started says. */
  lemma TrackStartsEach(t: Tracker, parent: nat, key: Str, conns: seq<Str>)
    ensures t.max <= 0 ==> TrackSpec(t, parent, key, conns) == t
    ensures t.max > 0 ==> Started(t, TrackSpec(t, parent, key, conns), parent, key, conns)
  {
    if t.max > 0 { TrackStarts(t, parent, key, conns); }
  }

  /** Every loop under a parent context that is done is cancelled. */
  ghost predicate DoneMeansCancelled(t: Tracker) {
    forall i | 0 <= i < |t.loops| && t.loops[i].parent in t.doneParents :: t.loops[i].cancelled
  }

  lemma NextKeepsDone(t: Tracker, step: Step)
    requires DoneMeansCancelled(t) && Enabled(t, step)
    ensures DoneMeansCancelled(Next(t, step))
  {
    if step.Track? {
      TrackStartsEach(t, step.parent, step.key, step.conns);
    }
  }

  /** In every interleaving a done parent context has cancelled all its loops, also
      those started under it later. */
  lemma {:induction false} DoneParentsCancel(states: seq<Tracker>, steps: seq<Step>, n: nat)
    requires Behaviour(states, steps) && Init(states[0]) && n < |states|
    ensures DoneMeansCancelled(states[n])
  {
    if n > 0 {
      DoneParentsCancel(states, steps, n - 1);
      NextKeepsDone(states[n - 1], steps[n - 1]);
    }
  }

  // ---- Entries that outlive their loop ----

  /** An entry's owner has not evicted, and is cancelled only through its parent. */
  predicate OwnerOk(t: Tracker, i: nat) {
    && i < |t.loops| && t.loops[i].pc != Exited(true)
    && (t.loops[i].cancelled ==> t.loops[i].parent in t.doneParents)
  }

  ghost predicate OwnersOk(t: Tracker) {
    && (forall k, c | k in t.table && c in t.table[k] :: OwnerOk(t, t.table[k][c]))
    && (forall i | 0 <= i < |t.loops| && t.loops[i].pc == Exited(false) :: t.loops[i].cancelled)
  }

  lemma {:induction false} TrackKeepsOwners(t: Tracker, parent: nat, key: Str, conns: seq<Str>)
    requires OwnersOk(t)
    ensures OwnersOk(TrackEach(t, parent, key, conns))
    decreases |conns|
  {
    if conns != [] {
      var u := TrackOne(t, parent, key, conns[0]);
      assert OwnersOk(u) by {
        forall k, c | k in u.table && c in u.table[k] ensures OwnerOk(u, u.table[k][c]) {
          if k in t.table && c in t.table[k] { assert OwnerOk(t, t.table[k][c]); }
        }
      }
      TrackKeepsOwners(u, parent, key, conns[1..]);
    }
  }

  /** An entry other than (key, conn) does not name a loop of that pair. */
  lemma RemovalKeepsOwners(t: Tracker, key: Str, conn: Str, i: nat, l: Loop)
    requires Inv(t) && OwnersOk(t) && i < |t.loops| && t.loops[i].For(key, conn) && l.For(key, conn)
    requires l.pc == Exited(false) ==> l.cancelled
    ensures OwnersOk(t.(table := Without(t.table, key, conn), loops := t.loops[i := l]))
  {
    var u := t.(table := Without(t.table, key, conn), loops := t.loops[i := l]);
    forall k, c | k in u.table && c in u.table[k] ensures OwnerOk(u, u.table[k][c]) {
      EntryWithout(t, key, conn, k, c);
      assert OwnerOk(t, t.table[k][c]);
    }
  }

  /** A step of loop i that leaves the table alone. */
  lemma StepInPlaceKeepsOwners(t: Tracker, i: nat, l: Loop)
    requires OwnersOk(t) && i < |t.loops| && l.pc != Exited(true)
    requires l.cancelled == t.loops[i].cancelled && l.parent == t.loops[i].parent
    requires l.pc == Exited(false) ==> l.cancelled
    ensures OwnersOk(t.(loops := t.loops[i := l]))
  {
    var u := t.(loops := t.loops[i := l]);
    forall k, c | k in u.table && c in u.table[k] ensures OwnerOk(u, u.table[k][c]) {
      assert OwnerOk(t, t.table[k][c]);
    }
  }

  lemma ParentDoneKeepsOwners(t: Tracker, parent: nat)
    requires OwnersOk(t)
    ensures OwnersOk(ParentDoneSpec(t, parent))
  {
    var u := ParentDoneSpec(t, parent);
    forall k, c | k in u.table && c in u.table[k] ensures OwnerOk(u, u.table[k][c]) {
      assert OwnerOk(t, t.table[k][c]);
    }
  }

  lemma NextKeepsOwners(t: Tracker, step: Step)
    requires Inv(t) && OwnersOk(t) && Enabled(t, step)
    ensures OwnersOk(Next(t, step))
  {
    match step
    case Track(parent, key, conns) => if t.max > 0 { TrackKeepsOwners(t, parent, key, conns); }
    case Ack(key, conn) =>
      if Entry(t, key, conn).Some? {
        var i := t.table[key][conn];
        RemovalKeepsOwners(t, key, conn, i, t.loops[i].(cancelled := true));
      }
    case CancelAll =>
    case ParentDone(parent) => ParentDoneKeepsOwners(t, parent);
    case Fire(i) => StepInPlaceKeepsOwners(t, i, FireSpec(t, i).loops[i]);
    case Stop(i) => StepInPlaceKeepsOwners(t, i, t.loops[i].(pc := Exited(false)));
    case Evict(i) => RemovalKeepsOwners(t, t.loops[i].key, t.loops[i].conn, i, t.loops[i].(pc := Exited(true)));
  }

  /** In every interleaving, clean or not, an entry's loop is still running or has
      stopped because its parent context is done. */
  lemma {:induction false} EveryEntryHasItsLoop(states: seq<Tracker>, steps: seq<Step>, n: nat)
    requires Behaviour(states, steps) && Init(states[0]) && n < |states|
    ensures Inv(states[n]) && OwnersOk(states[n])
    ensures forall k, c | Entry(states[n], k, c).Some? ::
      var t := states[n]; var i := Entry(t, k, c).value;
      i < |t.loops| && t.loops[i].For(k, c)
      && (t.loops[i].Running() || (t.loops[i].pc == Exited(false) && t.loops[i].parent in t.doneParents))
  {
    if n == 0 {
      BehaviourInv(states, steps, 0);
    } else {
      EveryEntryHasItsLoop(states, steps, n - 1);
      NextKeepsInv(states[n - 1], steps[n - 1]);
      NextKeepsOwners(states[n - 1], steps[n - 1]);
    }
    var t := states[n];
    forall k, c | Entry(t, k, c).Some? ensures OwnerOk(t, Entry(t, k, c).value) {
      assert OwnerOk(t, t.table[k][c]);
    }
  }

  /** The pair's entry names a loop that has stopped. */
  predicate Blocked(t: Tracker, key: Str, conn: Str) {
    var e := Entry(t, key, conn);
    e.Some? && e.value < |t.loops| && t.loops[e.value].pc == Exited(false)
  }

  /** A pair no loop runs for is ignored by Track exactly when its entry's loop
      stopped on a done parent, or retries are off. */
  lemma IgnoredIffBlocked(states: seq<Tracker>, steps: seq<Step>, n: nat, parent: nat, key: Str, conn: Str)
    requires Behaviour(states, steps) && Init(states[0]) && n < |states|
    requires forall j | 0 <= j < |states[n].loops| && states[n].loops[j].Running() :: !states[n].loops[j].For(key, conn)
    ensures var t := states[n];
      && (TrackSpec(t, parent, key, [conn]) == t <==> t.max <= 0 || Blocked(t, key, conn))
      && (Blocked(t, key, conn) ==> t.loops[Entry(t, key, conn).value].parent in t.doneParents)
  {
    EveryEntryHasItsLoop(states, steps, n);
    var t := states[n];
    if t.max > 0 {
      TrackSingle(t, parent, key, conn);
      assert Entry(t, key, conn).None? ==> |TrackOne(t, parent, key, conn).loops| == |t.loops| + 1;
    }
  }

  /** The calls and steps that remove the pair's entry. */
  predicate Clears(t: Tracker, step: Step, key: Str, conn: Str) {
    || step == Ack(key, conn) || step == CancelAll
    || (step.Evict? && step.i < |t.loops| && t.loops[step.i].For(key, conn))
  }

  /** No loop of the pair among those started after the first n. */
  ghost predicate NoneSince(loops: seq<Loop>, n: nat, key: Str, conn: Str) {
    forall j | n <= j < |loops| :: !loops[j].For(key, conn)
  }

  lemma {:induction false} TrackKeepsBlocked(t: Tracker, parent: nat, k: Str, conns: seq<Str>, key: Str, conn: Str)
    requires Blocked(t, key, conn)
    ensures var u := TrackEach(t, parent, k, conns);
      Blocked(u, key, conn) && |t.loops| <= |u.loops| && NoneSince(u.loops, |t.loops|, key, conn)
    decreases |conns|
  {
    if conns != [] {
      TrackKeepsBlocked(TrackOne(t, parent, k, conns[0]), parent, k, conns[1..], key, conn);
      TrackEachKeeps(TrackOne(t, parent, k, conns[0]), parent, k, conns[1..]);
    }
  }

  /** Track only appends loops. */
  lemma {:induction false} TrackEachKeeps(t: Tracker, parent: nat, k: Str, conns: seq<Str>)
    ensures var u := TrackEach(t, parent, k, conns);
      t.loops <= u.loops && forall j | |t.loops| <= j < |u.loops| :: u.loops[j].calls == 0
    decreases |conns|
  {
    if conns != [] { TrackEachKeeps(TrackOne(t, parent, k, conns[0]), parent, k, conns[1..]); }
  }

  lemma RemovalBlocks(t: Tracker, step: Step, key: Str, conn: Str)
    requires Inv(t) && Enabled(t, step) && Blocked(t, key, conn) && (step.Ack? || step.Evict?)
    ensures Blocked(Next(t, step), key, conn) <==> !Clears(t, step, key, conn)
  {
    if step.Ack? {
      EntryWithout(t, step.key, step.conn, key, conn);
    } else {
      EntryWithout(t, t.loops[step.i].key, t.loops[step.i].conn, key, conn);
    }
  }

  lemma BlockedStep(t: Tracker, step: Step, key: Str, conn: Str)
    requires Inv(t) && Enabled(t, step) && Blocked(t, key, conn)
    ensures Blocked(Next(t, step), key, conn) <==> !Clears(t, step, key, conn)
    ensures NoneSince(Next(t, step).loops, |t.loops|, key, conn)
  {
    if step.Track? {
      if t.max > 0 { TrackKeepsBlocked(t, step.parent, step.key, step.conns, key, conn); }
    } else if step.Ack? || step.Evict? {
      RemovalBlocks(t, step, key, conn);
    }
  }

  /** A blocked pair stays blocked, and gets no loop, until an Ack of the pair, a
      CancelAll, or an eviction by an older loop of the pair. */
  lemma {:induction false} BlockedPersists(states: seq<Tracker>, steps: seq<Step>, m: nat, n: nat, key: Str, conn: Str)
    requires Behaviour(states, steps) && Init(states[0]) && m <= n < |states| && Blocked(states[m], key, conn)
    requires forall i | m <= i < n :: !Clears(states[i], steps[i], key, conn)
    ensures Blocked(states[n], key, conn) && |states[m].loops| <= |states[n].loops|
    ensures NoneSince(states[n].loops, |states[m].loops|, key, conn)
    ensures n < |steps| && Clears(states[n], steps[n], key, conn) ==> !Blocked(states[n + 1], key, conn)
    decreases n
  {
    var since := |states[m].loops|;
    if m < n {
      BlockedPersists(states, steps, m, n - 1, key, conn);
      BehaviourInv(states, steps, n - 1);
      BlockedSince(states[n - 1], steps[n - 1], states[n], since, key, conn);
    }
    if n < |steps| {
      BehaviourInv(states, steps, n);
      BlockedSince(states[n], steps[n], states[n + 1], since, key, conn);
    }
  }

  lemma BlockedSince(t: Tracker, step: Step, u: Tracker, since: nat, key: Str, conn: Str)
    requires Inv(t) && Enabled(t, step) && u == Next(t, step) && Blocked(t, key, conn)
    requires since <= |t.loops| && NoneSince(t.loops, since, key, conn)
    ensures Blocked(u, key, conn) <==> !Clears(t, step, key, conn)
    ensures since <= |u.loops| && NoneSince(u.loops, since, key, conn)
  {
    BlockedStep(t, step, key, conn);
    StepKeepsPairs(t, step);
  }

  /** Loops keep their pair, and only a Fire of that loop adds a callback call. */
  lemma StepKeepsPairs(t: Tracker, step: Step)
    requires Inv(t) && Enabled(t, step)
    ensures var u := Next(t, step);
      && |t.loops| <= |u.loops|
      && (forall j | 0 <= j < |t.loops| ::
            && u.loops[j].For(t.loops[j].key, t.loops[j].conn)
            && u.loops[j].calls == t.loops[j].calls + if step == Fire(j) then 1 else 0)
      && (forall j | |t.loops| <= j < |u.loops| :: u.loops[j].calls == 0)
  {
    if step.Track? && t.max > 0 { TrackEachKeeps(t, step.parent, step.key, step.conns); }
  }

  /** Such a pair is reachable: Track, the parent context ends, the loop stops, and
      a Track under a context that is not done starts nothing. */
  lemma StoppedPairIgnoresTrack(max: int, key: Str, conn: Str) returns (states: seq<Tracker>, steps: seq<Step>)
    requires max > 0
    ensures Behaviour(states, steps) && Init(states[0]) && |steps| == 4
    ensures steps[3] == Track(1, key, [conn]) && 1 !in states[3].doneParents && states[4] == states[3]
    ensures Blocked(states[3], key, conn) && forall j | 0 <= j < |states[3].loops| :: !states[3].loops[j].Running()
  {
    var live := Loop(key, conn, 0, 0, false, Waiting);
    var table := map[key := map[conn := 0]];
    var s0 := Tracker(max, map[], [], {});
    var s1 := Tracker(max, table, [live], {});
    var s2 := Tracker(max, table, [live.(cancelled := true)], {0});
    var s3 := Tracker(max, table, [live.(cancelled := true, pc := Exited(false))], {0});
    states := [s0, s1, s2, s3, s3];
    steps := [Track(0, key, [conn]), ParentDone(0), Stop(0), Track(1, key, [conn])];
    TrackSingle(s0, 0, key, conn);
    assert TrackOne(s0, 0, key, conn) == s1;
    assert ParentDoneSpec(s1, 0).loops == s2.loops;
    TrackSingle(s3, 1, key, conn);
  }

  // ---- Callbacks ----

  function FiresOf(steps: seq<Step>, l: nat): nat {
    if steps == [] then 0 else FiresOf(steps[..|steps| - 1], l) + if steps[|steps| - 1] == Fire(l) then 1 else 0
  }

  /** In every interleaving a loop's callback has run once per timer fire: exactly
      max times if the loop ended by evicting, fewer if it stopped on its context,
      and never more than max. */
  lemma {:induction false} CallbackCount(states: seq<Tracker>, steps: seq<Step>, n: nat, l: nat)
    requires Behaviour(states, steps) && Init(states[0]) && n < |states|
    ensures var t := states[n]; var fires := FiresOf(steps[..n], l);
      if l >= |t.loops| then fires == 0
      else
        && fires == t.loops[l].calls <= t.max
        && (t.loops[l].pc == Exited(true) ==> fires == t.max)
        && (t.loops[l].pc == Exited(false) ==> fires < t.max)
  {
    BehaviourInv(states, steps, n);
    if n > 0 {
      CallbackCount(states, steps, n - 1, l);
      BehaviourInv(states, steps, n - 1);
      StepKeepsPairs(states[n - 1], steps[n - 1]);
      assert steps[..n][..n - 1] == steps[..n - 1];
    }
    if l < |states[n].loops| { assert LoopOk(states[n], states[n].loops[l]); }
  }

  // ---- Termination ----

  /** Steps a goroutine can still take: its remaining attempts and its exit. */
  function Remaining(max: int, l: Loop): nat {
    if l.pc.Exited? then 0
    else if l.pc == Evicting || l.calls >= max then 1
    else 1 + max - l.calls
  }

  function Total(max: int, loops: seq<Loop>): nat {
    if loops == [] then 0 else Remaining(max, loops[0]) + Total(max, loops[1..])
  }

  lemma {:induction false} TotalAt(max: int, loops: seq<Loop>, i: nat, l: Loop)
    requires i < |loops|
    ensures Total(max, loops[i := l]) == Total(max, loops) - Remaining(max, loops[i]) + Remaining(max, l)
  {
    if i > 0 {
      TotalAt(max, loops[1..], i - 1, l);
      assert loops[i := l][1..] == loops[1..][i - 1 := l];
    } else {
      assert loops[i := l][1..] == loops[1..];
    }
  }

  lemma {:induction false} TotalSame(max: int, a: seq<Loop>, b: seq<Loop>)
    requires |a| == |b| && forall i | 0 <= i < |a| :: a[i].pc == b[i].pc && a[i].calls == b[i].calls
    ensures Total(max, a) == Total(max, b)
  {
    if a != [] { TotalSame(max, a[1..], b[1..]); }
  }

  lemma LoopSpends(t: Tracker, i: nat, l: Loop)
    requires i < |t.loops| && Inv(t) && !t.loops[i].pc.Exited?
    requires l.pc.Exited? || (l.calls == t.loops[i].calls + 1 && t.loops[i].pc == Waiting)
    requires l.pc == (if l.pc.Exited? then l.pc else if l.calls >= t.max then Evicting else Waiting)
    ensures Total(t.max, t.loops[i := l]) + 1 <= Total(t.max, t.loops)
  {
    assert LoopOk(t, t.loops[i]);
    TotalAt(t.max, t.loops, i, l);
  }

  lemma StepSpends(t: Tracker, step: Step)
    requires Inv(t) && Enabled(t, step) && !step.Track?
    ensures Total(t.max, Next(t, step).loops) + (if LoopStep(step) then 1 else 0) <= Total(t.max, t.loops)
  {
    match step
    case Fire(i) => LoopSpends(t, i, FireSpec(t, i).loops[i]);
    case Stop(i) => LoopSpends(t, i, StopSpec(t, i).loops[i]);
    case Evict(i) => LoopSpends(t, i, EvictSpec(t, i).loops[i]);
    case Ack(_, _) => TotalSame(t.max, Next(t, step).loops, t.loops);
    case CancelAll => TotalSame(t.max, Next(t, step).loops, t.loops);
    case ParentDone(_) => TotalSame(t.max, Next(t, step).loops, t.loops);
  }

  function LoopSteps(steps: seq<Step>): nat {
    if steps == [] then 0 else LoopSteps(steps[..|steps| - 1]) + if LoopStep(steps[|steps| - 1]) then 1 else 0
  }

  /** Between two Tracks the goroutines take at most the sum of their remaining
      steps, however Acks and cancellations interleave. */
  lemma {:induction false} BoundedBetweenTracks(states: seq<Tracker>, steps: seq<Step>)
    requires Behaviour(states, steps) && Inv(states[0]) && forall i | 0 <= i < |steps| :: !steps[i].Track?
    ensures Inv(states[|steps|]) && states[|steps|].max == states[0].max
    ensures Total(states[0].max, states[|steps|].loops) + LoopSteps(steps) <= Total(states[0].max, states[0].loops)
    decreases |steps|
  {
    if steps != [] {
      var n := |steps| - 1;
      BoundedBetweenTracks(states[..n + 1], steps[..n]);
      NextKeepsInv(states[n], steps[n]);
      StepSpends(states[n], steps[n]);
    }
  }

  /** When no goroutine can move, all have exited. */
  lemma QuietMeansExited(t: Tracker)
    requires forall step | LoopStep(step) :: !Enabled(t, step)
    ensures forall i | 0 <= i < |t.loops| :: t.loops[i].pc.Exited?
  {
    forall i | 0 <= i < |t.loops| ensures t.loops[i].pc.Exited? {
      assert !Enabled(t, Fire(i)) && !Enabled(t, Evict(i));
    }
  }
}
