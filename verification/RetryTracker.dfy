/** The code of realtime/retry.go, proved against the steps of Retry. */
module RetryTracker {
  import opened Domain
  import opened Retry

  /** CancelAll half way: cancelled so far are the owners of all entries except
      those under `keys`, and those under (key, c) with c in conns. */
  ghost predicate CancelledOutside(t: Tracker, loops: seq<Loop>, keys: set<Str>, key: Str, conns: set<Str>) {
    && |loops| == |t.loops|
    && forall i | 0 <= i < |loops| ::
         var l := t.loops[i];
         var pending := l.key in keys || (l.key == key && l.conn in conns);
         loops[i] == if Owns(t, i) && !pending then l.(cancelled := true) else l
  }

  lemma InnerStart(t: Tracker, loops: seq<Loop>, keys: set<Str>, key: Str)
    requires key in keys && key in t.table && CancelledOutside(t, loops, keys, [], {})
    ensures CancelledOutside(t, loops, keys - {key}, key, t.table[key].Keys)
  {}

  lemma InnerEnd(t: Tracker, loops: seq<Loop>, keys: set<Str>, key: Str)
    requires CancelledOutside(t, loops, keys, key, {})
    ensures CancelledOutside(t, loops, keys, [], {})
  {}

  lemma OuterStart(t: Tracker)
    ensures CancelledOutside(t, t.loops, t.table.Keys, [], {})
  {}

  lemma OuterEnd(t: Tracker, loops: seq<Loop>)
    requires CancelledOutside(t, loops, {}, [], {})
    ensures loops == CancelOwned(t)
  {}

  lemma CancelStep(t: Tracker, loops: seq<Loop>, keys: set<Str>, key: Str, conns: set<Str>, conn: Str)
    requires TableOk(t.table, t.loops) && key in t.table && conn in t.table[key] && key !in keys && conn in conns
    requires CancelledOutside(t, loops, keys, key, conns)
    ensures var l := t.table[key][conn];
      l < |loops| && CancelledOutside(t, loops[l := loops[l].(cancelled := true)], keys, key, conns - {conn})
  {
    var l := t.table[key][conn];
    assert t.loops[l].For(key, conn) && Owns(t, l);
  }

  class RetryTracker {
    const max: int
    var byKey: map<Str, map<Str, nat>>
    var loops: seq<Loop>
    var doneParents: set<nat>

    ghost function State(): Tracker
      reads this
    {
      Tracker(max, byKey, loops, doneParents)
    }

    constructor (max: int)
      ensures Init(State()) && this.max == max && doneParents == {}
    {
      this.max := max;
      byKey := map[];
      loops := [];
      doneParents := {};
    }

    method Track(parent: nat, key: Str, connIds: seq<Str>)
      modifies this`byKey, this`loops
      ensures State() == TrackSpec(old(State()), parent, key, connIds)
    {
      if max <= 0 || |connIds| == 0 {
        return;
      }
      var states: map<Str, nat> := map[];
      if key in byKey {
        states := byKey[key];
      }
      ghost var goal := TrackSpec(State(), parent, key, connIds);
      for i := 0 to |connIds|
        invariant goal == TrackEach(State(), parent, key, connIds[i..])
        invariant states == if key in byKey then byKey[key] else map[]
        invariant doneParents == old(doneParents)
      {
        var connId := connIds[i];
        assert connIds[i..][0] == connId && connIds[i..][1..] == connIds[i + 1..];
        ghost var before := State();
        if connId !in states {
          states := states[connId := |loops|];
          byKey := byKey[key := states];
          loops := loops + [Loop(key, connId, parent, 0, parent in doneParents, Waiting)];
        }
        assert State() == TrackOne(before, parent, key, connId);
      }
    }

    method Ack(key: Str, connId: Str)
      requires TableOk(byKey, loops)
      modifies this`byKey, this`loops
      ensures State() == AckSpec(old(State()), key, connId)
    {
      if key !in byKey || connId !in byKey[key] {
        return;
      }
      var l := byKey[key][connId];
      loops := loops[l := loops[l].(cancelled := true)];
      DeleteEntry(key, connId);
    }

    /** delete(states, connId), and the key with it when that leaves it empty. */
    method DeleteEntry(key: Str, connId: Str)
      modifies this`byKey
      ensures byKey == Without(old(byKey), key, connId)
    {
      if key in byKey {
        var states := byKey[key] - {connId};
        byKey := byKey[key := states];
        if |states| == 0 {
          byKey := byKey - {key};
          assert byKey == old(byKey) - {key};
        }
      }
    }

    /** Ranges over both maps in an arbitrary order. */
    method CancelAll()
      requires TableOk(byKey, loops)
      modifies this`byKey, this`loops
      ensures State() == CancelAllSpec(old(State()))
    {
      ghost var t := State();
      var keys := byKey.Keys;
      OuterStart(t);
      while keys != {}
        invariant keys <= byKey.Keys && byKey == t.table
        invariant CancelledOutside(t, loops, keys, [], {})
        decreases |keys|
      {
        var key :| key in keys;
        InnerStart(t, loops, keys, key);
        keys := keys - {key};
        CancelStates(t, key, keys);
        InnerEnd(t, loops, keys, key);
      }
      OuterEnd(t, loops);
      byKey := map[];
    }

    /** The inner range of CancelAll: every state under one key. */
    method CancelStates(ghost t: Tracker, key: Str, ghost keys: set<Str>)
      requires TableOk(t.table, t.loops) && byKey == t.table && key in byKey && key !in keys
      requires CancelledOutside(t, loops, keys, key, byKey[key].Keys)
      modifies this`loops
      ensures CancelledOutside(t, loops, keys, key, {})
    {
      var conns := byKey[key].Keys;
      while conns != {}
        invariant conns <= byKey[key].Keys
        invariant CancelledOutside(t, loops, keys, key, conns)
        decreases |conns|
      {
        var conn :| conn in conns;
        var l := byKey[key][conn];
        CancelStep(t, loops, keys, key, conns, conn);
        loops := loops[l := loops[l].(cancelled := true)];
        conns := conns - {conn};
      }
    }

    /** One timer fire and its callback, in the goroutine of loop i. */
    method Fire(i: nat)
      requires Enabled(State(), Step.Fire(i))
      modifies this`loops
      ensures State() == FireSpec(old(State()), i)
    {
      var attempt := loops[i].calls + 1;
      loops := loops[i := loops[i].(calls := attempt)];
      if attempt < max {
        loops := loops[i := loops[i].(pc := Waiting)];
      } else {
        loops := loops[i := loops[i].(pc := Evicting)];
      }
    }

    /** The locked tail of the goroutine of loop i. */
    method Evict(i: nat)
      requires Enabled(State(), Step.Evict(i))
      modifies this`byKey, this`loops
      ensures State() == EvictSpec(old(State()), i)
    {
      DeleteEntry(loops[i].key, loops[i].conn);
      loops := loops[i := loops[i].(pc := Exited(true))];
    }
  }
}
