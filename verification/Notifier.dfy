/** Notifier.Notify (notifier.go): the fan-out over users and channels on top of the
    idempotent store. Provider answers, clocks, generated ids and store faults are
    the environment; it may do something different at every (user, channel) pair. */
module Notifier {
  import opened Domain
  import opened StoreApi
  import opened Memory

  datatype NotifyRequest = NotifyRequest(
    tenant: Str, notificationId: Str, userIds: seq<Str>, channels: seq<Channel>,
    subjectRef: Str, subjectType: Str, title: Str, body: Str,
    addresses: map<Str, map<Channel, Str>>)

  datatype NotifyResult = NotifyResult(delivered: nat, pending: nat, failed: nat) {
    function Sum(): nat {
      delivered + pending + failed
    }
  }

  /** What a provider's Send returns: a receipt (its status may be unset) or an error. */
  datatype Sent = Receipt(status: Status) | SendError

  /** The environment during one pair. */
  datatype World = World(createdAt: Int64, minted: Str, createFails: bool, sent: Sent, at: Int64, updateFails: bool)

  type Pair = (Str, Channel)

  function AddressFor(req: NotifyRequest, user: Str, kind: Channel): Str {
    if user in req.addresses && kind in req.addresses[user] then req.addresses[user][kind]
    else if kind == InApp then user
    else []
  }

  predicate Dispatched(req: NotifyRequest, providers: set<Channel>, pair: Pair) {
    pair.1 in providers && AddressFor(req, pair.0, pair.1) != []
  }

  function NewRow(req: NotifyRequest, pair: Pair, w: World): Notification {
    Notification([], req.notificationId, req.tenant, pair.0, req.subjectRef, req.subjectType, req.title, req.body,
      pair.1, Pending, w.createdAt, 0, 0, 0)
  }

  function UserKey(req: NotifyRequest, user: Str): Key {
    Key(req.tenant, user, req.notificationId)
  }

  /** The status a dispatched pair leaves: None when its write is lost. */
  function StatusWritten(w: World): Option<Status> {
    if w.updateFails then None
    else match w.sent
      case SendError => Some(Failed)
      case Receipt(status) => Some(if status == Unset then Delivered else status)
  }

  datatype Progress = Progress(store: MemState, res: NotifyResult, sends: nat, aborted: bool)

  /** The part of an iteration after the row exists and a provider was found: the
      store, the counters and whether the call goes on. */
  function DispatchStep(req: NotifyRequest, s: MemState, id: Str, res: NotifyResult, w: World)
    : (MemState, NotifyResult, bool)
  {
    match w.sent
    case SendError =>
      (if w.updateFails then s else MemUpdate(s, req.tenant, id, Failed, w.at).0, res.(failed := res.failed + 1), true)
    case Receipt(status) =>
      var (s2, r) := MemUpdate(s, req.tenant, id, if status == Unset then Delivered else status, w.at);
      if w.updateFails || r.Failure? then (s, res, false) else (s2, res.(delivered := res.delivered + 1), true)
  }

  /** What an iteration does once the row is there. */
  function Deliver(req: NotifyRequest, providers: set<Channel>, p: Progress, pair: Pair, id: Str, w: World): Progress {
    if !Dispatched(req, providers, pair) then p.(res := p.res.(pending := p.res.pending + 1))
    else
      var (s2, res, ok) := DispatchStep(req, p.store, id, p.res, w);
      Progress(s2, res, p.sends + 1, !ok)
  }

  /** One iteration of the inner loop. */
  function PairStep(req: NotifyRequest, providers: set<Channel>, p: Progress, pair: Pair, w: World): Progress {
    if w.createFails then p.(aborted := true)
    else
      var (s1, created) := MemCreate(p.store, NewRow(req, pair, w), w.minted);
      Deliver(req, providers, p.(store := s1), pair, created.id, w)
  }

  /** The pairs one after another; the first store failure aborts the rest. */
  function Run(req: NotifyRequest, providers: set<Channel>, p: Progress, pairs: seq<Pair>,
               world: nat -> World): Progress
    decreases |pairs|
  {
    if pairs == [] then p
    else
      var n := |pairs| - 1;
      var q := Run(req, providers, p, pairs[..n], world);
      if q.aborted then q else PairStep(req, providers, q, pairs[n], world(n))
  }

  function ForUser(user: Str, channels: seq<Channel>): (r: seq<Pair>)
    ensures |r| == |channels| && forall i | 0 <= i < |r| :: r[i] == (user, channels[i])
  {
    seq(|channels|, i requires 0 <= i < |channels| => (user, channels[i]))
  }

  /** Users outside, channels inside. */
  function Pairs(users: seq<Str>, channels: seq<Channel>): seq<Pair>
    decreases |users|
  {
    if users == [] then []
    else Pairs(users[..|users| - 1], channels) + ForUser(users[|users| - 1], channels)
  }

  lemma {:induction false} PairsCount(users: seq<Str>, channels: seq<Channel>)
    ensures |Pairs(users, channels)| == |users| * |channels|
    decreases |users|
  {
    if users != [] {
      PairsCount(users[..|users| - 1], channels);
      assert |users| * |channels| == (|users| - 1) * |channels| + |channels|;
    }
  }

  /** Row-major: pair u * |channels| + c is user u with channel c. */
  lemma {:induction false} PairIndex(users: seq<Str>, channels: seq<Channel>, u: nat, c: nat)
    requires u < |users| && c < |channels|
    ensures |Pairs(users, channels)| == |users| * |channels|
    ensures 0 <= u * |channels| + c < |users| * |channels|
    ensures Pairs(users, channels)[u * |channels| + c] == (users[u], channels[c])
    decreases |users|
  {
    var n := |users| - 1;
    PairsCount(users, channels);
    PairsCount(users[..n], channels);
    if u < n {
      PairIndex(users[..n], channels, u, c);
    }
    assert n * |channels| + |channels| == |users| * |channels|;
  }

  lemma {:induction false} PairsWithin(users: seq<Str>, channels: seq<Channel>, p: Pair)
    requires p in Pairs(users, channels)
    ensures p.0 in users && p.1 in channels
    decreases |users|
  {
    var n := |users| - 1;
    if p !in ForUser(users[n], channels) {
      PairsWithin(users[..n], channels, p);
      assert p.0 in users[..n];
    }
  }

  lemma {:induction false} EveryPairListed(users: seq<Str>, channels: seq<Channel>, user: Str, kind: Channel)
    requires user in users && kind in channels
    ensures (user, kind) in Pairs(users, channels)
    decreases |users|
  {
    var n := |users| - 1;
    if users[n] == user {
      var i :| 0 <= i < |channels| && channels[i] == kind;
      assert ForUser(user, channels)[i] == (user, kind);
    } else {
      assert users == users[..n] + [users[n]];
      EveryPairListed(users[..n], channels, user, kind);
    }
  }

  /** Ids generated during the call are unused and distinct. */
  ghost predicate MintsFresh(s: MemState, world: nat -> World) {
    && (forall i :: world(i).minted !in s.notifs)
    && (forall i, j | i != j :: world(i).minted != world(j).minted)
  }

  const ZERO := NotifyResult(0, 0, 0)

  ghost function RunAll(req: NotifyRequest, providers: set<Channel>, s: MemState, pairs: seq<Pair>,
                        world: nat -> World): Progress {
    Run(req, providers, Progress(s, ZERO, 0, false), pairs, world)
  }

  // ---- One pair on the store ----

  /** What the call needs of the store from pair to pair. */
  ghost predicate Grows(s: MemState, t: MemState, ids: set<Str>) {
    Consistent(t) && t.notifs.Keys <= s.notifs.Keys + ids && t.devices == s.devices
  }

  lemma DispatchGrows(req: NotifyRequest, s: MemState, id: Str, res: NotifyResult, w: World)
    requires Consistent(s)
    ensures Grows(s, DispatchStep(req, s, id, res, w).0, {})
  {
    var t := DispatchStep(req, s, id, res, w).0;
    var status := if w.sent.SendError? then Failed else if w.sent.status == Unset then Delivered else w.sent.status;
    assert t == s || t == MemUpdate(s, req.tenant, id, status, w.at).0;
  }

  lemma CreateGrows(s: MemState, n: Notification, minted: Str)
    requires Consistent(s) && minted !in s.notifs && n.id == []
    ensures Grows(s, MemCreate(s, n, minted).0, {minted})
  {
    CreateKeepsConsistent(s, n, minted);
  }

  lemma PairGrows(req: NotifyRequest, providers: set<Channel>, p: Progress, pair: Pair, w: World)
    requires Consistent(p.store) && w.minted !in p.store.notifs
    ensures Grows(p.store, PairStep(req, providers, p, pair, w).store, {w.minted})
  {
    var n := NewRow(req, pair, w);
    var (s1, created) := MemCreate(p.store, n, w.minted);
    CreateGrows(p.store, n, w.minted);
    DispatchGrows(req, s1, created.id, p.res, w);
    var t := PairStep(req, providers, p, pair, w).store;
    assert t == p.store || t == s1 || t == DispatchStep(req, s1, created.id, p.res, w).0;
  }

  /** What the pair does to each triple's row, counts aside. */
  function RowStep(req: NotifyRequest, providers: set<Channel>, before: Option<Notification>, pair: Pair,
                   w: World): Notification {
    var row := if before.Some? then before.value else NewRow(req, pair, w).(id := w.minted);
    if Dispatched(req, providers, pair) && StatusWritten(w).Some?
    then Stamp(row, StatusWritten(w).value, w.at) else row
  }

  function RowFor(s: MemState, k: Key): Option<Notification> {
    if k in s.notifByKey && s.notifByKey[k] in s.notifs then Some(s.notifs[s.notifByKey[k]]) else None
  }

  /** A create that does not fail leaves the triple's row in place or adds it, and
      touches no other triple. */
  lemma CreateRows(s: MemState, n: Notification, minted: Str, k: Key)
    requires Consistent(s) && minted !in s.notifs && n.id == []
    ensures var t := MemCreate(s, n, minted).0;
      RowFor(t, k) == if k == NotifKey(n) && RowFor(s, k).None? then Some(n.(id := minted)) else RowFor(s, k)
  {}

  lemma DispatchRows(req: NotifyRequest, s: MemState, id: Str, res: NotifyResult, w: World, k: Key)
    requires Consistent(s) && id in s.notifs && s.notifs[id].tenant == req.tenant
    ensures var (t, _, ok) := DispatchStep(req, s, id, res, w); var row := s.notifs[id];
      && (k != NotifKey(row) ==> RowFor(t, k) == RowFor(s, k))
      && (ok && k == NotifKey(row) ==>
            RowFor(t, k) == Some(if StatusWritten(w).Some? then Stamp(row, StatusWritten(w).value, w.at) else row))
  {
    var status := if w.sent.SendError? then Failed else if w.sent.status == Unset then Delivered else w.sent.status;
  }

  lemma PairRows(req: NotifyRequest, providers: set<Channel>, p: Progress, pair: Pair, w: World, k: Key)
    requires Consistent(p.store) && w.minted !in p.store.notifs && !p.aborted
    ensures var q := PairStep(req, providers, p, pair, w);
      && (k != UserKey(req, pair.0) ==> RowFor(q.store, k) == RowFor(p.store, k))
      && (!q.aborted && k == UserKey(req, pair.0) ==>
            RowFor(q.store, k) == Some(RowStep(req, providers, RowFor(p.store, k), pair, w)))
  {
    var n := NewRow(req, pair, w);
    CreateKeepsConsistent(p.store, n, w.minted);
    CreateRows(p.store, n, w.minted, k);
    CreateRows(p.store, n, w.minted, NotifKey(n));
    var (s1, created) := MemCreate(p.store, n, w.minted);
    if !w.createFails && Dispatched(req, providers, pair) {
      DispatchRows(req, s1, created.id, p.res, w, k);
    }
  }

  // ---- The whole run on the store ----

  /** The store between two pairs: consistent, and later ids are still unused. */
  ghost predicate Between(s: MemState, t: MemState, n: nat, world: nat -> World) {
    && Consistent(t) && t.devices == s.devices
    && forall i: nat | i >= n :: world(i).minted !in t.notifs
  }

  lemma BetweenStep(s: MemState, t: MemState, u: MemState, n: nat, world: nat -> World)
    requires MintsFresh(s, world) && Between(s, t, n, world) && Grows(t, u, {world(n).minted})
    ensures Between(s, u, n + 1, world)
  {}

  lemma {:induction false} RunKeepsStore(req: NotifyRequest, providers: set<Channel>, s: MemState, pairs: seq<Pair>,
                                         world: nat -> World)
    requires Consistent(s) && MintsFresh(s, world)
    ensures Between(s, RunAll(req, providers, s, pairs, world).store, |pairs|, world)
    decreases |pairs|
  {
    if pairs != [] {
      var n := |pairs| - 1;
      RunKeepsStore(req, providers, s, pairs[..n], world);
      var q := RunAll(req, providers, s, pairs[..n], world);
      if !q.aborted {
        PairGrows(req, providers, q, pairs[n], world(n));
        BetweenStep(s, q.store, PairStep(req, providers, q, pairs[n], world(n)).store, n, world);
      }
    }
  }

  /** The row a user has, or gets at the user's first pair. */
  function FirstRow(req: NotifyRequest, s: MemState, pairs: seq<Pair>, world: nat -> World,
                    user: Str): Option<Notification>
    decreases |pairs|
  {
    if pairs == [] then RowFor(s, UserKey(req, user))
    else
      var n := |pairs| - 1;
      var before := FirstRow(req, s, pairs[..n], world, user);
      if before.Some? || pairs[n].0 != user then before
      else Some(NewRow(req, pairs[n], world(n)).(id := world(n).minted))
  }

  /** The status written last for the user, or the one the row started with. */
  function LastStatus(req: NotifyRequest, providers: set<Channel>, pairs: seq<Pair>, world: nat -> World, user: Str,
                      initial: Status): Status
    decreases |pairs|
  {
    if pairs == [] then initial
    else
      var n := |pairs| - 1;
      if pairs[n].0 == user && Dispatched(req, providers, pairs[n]) && StatusWritten(world(n)).Some?
      then StatusWritten(world(n)).value
      else LastStatus(req, providers, pairs[..n], world, user, initial)
  }

  /** When that status was last written for the user, or the initial time. */
  function LastTime(req: NotifyRequest, providers: set<Channel>, pairs: seq<Pair>, world: nat -> World, user: Str,
                    status: Status, initial: Int64): Int64
    decreases |pairs|
  {
    if pairs == [] then initial
    else
      var n := |pairs| - 1;
      if pairs[n].0 == user && Dispatched(req, providers, pairs[n]) && StatusWritten(world(n)) == Some(status)
      then world(n).at
      else LastTime(req, providers, pairs[..n], world, user, status, initial)
  }

  /** row is base after the user's pairs: identity, content and creation kept, the
      last status written, and each timestamp from the last write of its status. */
  ghost predicate Settled(req: NotifyRequest, providers: set<Channel>, pairs: seq<Pair>, world: nat -> World, user: Str,
                          base: Notification, row: Notification) {
    && SameCreation(base, row)
    && row.status == LastStatus(req, providers, pairs, world, user, base.status)
    && row.deliveredAt == LastTime(req, providers, pairs, world, user, Delivered, base.deliveredAt)
    && row.ackAt == LastTime(req, providers, pairs, world, user, Acked, base.ackAt)
    && row.readAt == LastTime(req, providers, pairs, world, user, Read, base.readAt)
  }

  ghost predicate RowIs(req: NotifyRequest, providers: set<Channel>, s: MemState, pairs: seq<Pair>, world: nat -> World,
                        user: Str, row: Option<Notification>) {
    var first := FirstRow(req, s, pairs, world, user);
    && (first.Some? <==> row.Some?)
    && (row.Some? ==> Settled(req, providers, pairs, world, user, first.value, row.value))
  }

  /** One more pair settles the row one step further. */
  lemma SettledStep(req: NotifyRequest, providers: set<Channel>, pairs: seq<Pair>, world: nat -> World, user: Str,
                    base: Notification, row: Notification)
    requires pairs != [] && Settled(req, providers, pairs[..|pairs| - 1], world, user, base, row)
    ensures var n := |pairs| - 1;
      Settled(req, providers, pairs, world, user, base,
        if pairs[n].0 == user then RowStep(req, providers, Some(row), pairs[n], world(n)) else row)
  {}

  /** After a run that did not abort, each user's row is its first row, settled. */
  lemma {:induction false} RunRow(req: NotifyRequest, providers: set<Channel>, s: MemState, pairs: seq<Pair>,
                                  world: nat -> World, user: Str)
    requires Consistent(s) && MintsFresh(s, world) && !RunAll(req, providers, s, pairs, world).aborted
    ensures RowIs(req, providers, s, pairs, world, user,
                  RowFor(RunAll(req, providers, s, pairs, world).store, UserKey(req, user)))
    decreases |pairs|
  {
    if pairs != [] {
      var n := |pairs| - 1;
      var front, p := pairs[..n], RunAll(req, providers, s, pairs[..n], world);
      RunRow(req, providers, s, front, world, user);
      RunKeepsStore(req, providers, s, front, world);
      PairRows(req, providers, p, pairs[n], world(n), UserKey(req, user));
      RowIsStep(req, providers, s, pairs, world, user, RowFor(p.store, UserKey(req, user)));
    }
  }

  lemma RowIsStep(req: NotifyRequest, providers: set<Channel>, s: MemState, pairs: seq<Pair>, world: nat -> World,
                  user: Str, row: Option<Notification>)
    requires pairs != [] && RowIs(req, providers, s, pairs[..|pairs| - 1], world, user, row)
    ensures var n := |pairs| - 1;
      RowIs(req, providers, s, pairs, world, user,
        if pairs[n].0 == user then Some(RowStep(req, providers, row, pairs[n], world(n))) else row)
  {
    var n := |pairs| - 1;
    var first := FirstRow(req, s, pairs[..n], world, user);
    if first.Some? {
      SettledStep(req, providers, pairs, world, user, first.value, row.value);
    } else if pairs[n].0 == user {
      var row0 := NewRow(req, pairs[n], world(n)).(id := world(n).minted);
      NothingWrittenYet(req, providers, s, pairs[..n], world, user, row0);
      SettledStep(req, providers, pairs, world, user, row0, row0);
    }
  }

  /** A user without a row has had no pair, so any row is still as it was. */
  lemma {:induction false} NothingWrittenYet(req: NotifyRequest, providers: set<Channel>, s: MemState, pairs: seq<Pair>,
                                             world: nat -> World, user: Str, row: Notification)
    requires FirstRow(req, s, pairs, world, user).None?
    ensures Settled(req, providers, pairs, world, user, row, row)
    decreases |pairs|
  {
    if pairs != [] { NothingWrittenYet(req, providers, s, pairs[..|pairs| - 1], world, user, row); }
  }

  /** A new row comes from the user's first pair and carries its channel. */
  lemma {:induction false} FirstRowIsFirstPair(req: NotifyRequest, s: MemState, pairs: seq<Pair>,
                                               world: nat -> World, user: Str)
    ensures var row := FirstRow(req, s, pairs, world, user); var had := RowFor(s, UserKey(req, user));
      && (had.Some? ==> row == had)
      && (had.None? ==>
            if exists i :: 0 <= i < |pairs| && pairs[i].0 == user
            then (exists f ::
              0 <= f < |pairs| && pairs[f].0 == user && (forall i | 0 <= i < f :: pairs[i].0 != user)
              && row == Some(NewRow(req, pairs[f], world(f)).(id := world(f).minted)))
            else row == None)
    decreases |pairs|
  {
    if pairs != [] {
      var n := |pairs| - 1;
      var front := pairs[..n];
      FirstRowIsFirstPair(req, s, front, world, user);
      assert forall i | 0 <= i < n :: front[i] == pairs[i];
      if RowFor(s, UserKey(req, user)).None? {
        if exists i :: 0 <= i < |front| && front[i].0 == user {
          var f :| 0 <= f < |front| && front[f].0 == user && (forall i | 0 <= i < f :: front[i].0 != user)
            && FirstRow(req, s, front, world, user) == Some(NewRow(req, front[f], world(f)).(id := world(f).minted));
          assert pairs[f].0 == user;
        } else if pairs[n].0 == user {
          assert forall i | 0 <= i < n :: pairs[i].0 != user;
        }
      }
    }
  }

  /** Triples other than the requested users' keep their rows, aborted or not. */
  lemma {:induction false} RunLeavesOthers(req: NotifyRequest, providers: set<Channel>, s: MemState,
                                           pairs: seq<Pair>, world: nat -> World, k: Key)
    requires Consistent(s) && MintsFresh(s, world) && forall p | p in pairs :: k != UserKey(req, p.0)
    ensures RowFor(RunAll(req, providers, s, pairs, world).store, k) == RowFor(s, k)
    decreases |pairs|
  {
    if pairs != [] {
      var n := |pairs| - 1;
      RunLeavesOthers(req, providers, s, pairs[..n], world, k);
      RunKeepsStore(req, providers, s, pairs[..n], world);
      var q := RunAll(req, providers, s, pairs[..n], world);
      if !q.aborted {
        assert pairs[n] in pairs;
        PairRows(req, providers, q, pairs[n], world(n), k);
      }
    }
  }

  /** The user's row after a successful Notify: the row the user had, or a new one
      with the request's content, the first channel, and the id and time of the
      user's first pair, settled by the user's pairs. */
  ghost predicate RowAfter(req: NotifyRequest, providers: set<Channel>, s: MemState, t: MemState,
                           channels: seq<Channel>,
                           world: nat -> World, user: Str)
    requires channels != []
  {
    var pairs := Pairs(req.userIds, channels);
    var had, row := RowFor(s, UserKey(req, user)), RowFor(t, UserKey(req, user));
    && row.Some?
    && if had.Some? then Settled(req, providers, pairs, world, user, had.value, row.value)
       else exists f: nat :: FirstPairOf(pairs, user, f) && Settled(req, providers, pairs, world, user,
              NewRow(req, (user, channels[0]), world(f)).(id := world(f).minted), row.value)
  }

  /** The user's first pair is pair f. */
  ghost predicate FirstPairOf(pairs: seq<Pair>, user: Str, f: nat) {
    f < |pairs| && pairs[f].0 == user && forall i | 0 <= i < f :: pairs[i].0 != user
  }

  lemma UserRow(req: NotifyRequest, providers: set<Channel>, s: MemState, channels: seq<Channel>,
                world: nat -> World, user: Str)
    requires Consistent(s) && MintsFresh(s, world) && channels != [] && user in req.userIds
    requires !RunAll(req, providers, s, Pairs(req.userIds, channels), world).aborted
    ensures var t := RunAll(req, providers, s, Pairs(req.userIds, channels), world).store;
      RowAfter(req, providers, s, t, channels, world, user)
  {
    var pairs := Pairs(req.userIds, channels);
    EveryPairListed(req.userIds, channels, user, channels[0]);
    RunRow(req, providers, s, pairs, world, user);
    FirstRowIsFirstPair(req, s, pairs, world, user);
    FirstPairHasFirstChannel(req.userIds, channels, user);
    if RowFor(s, UserKey(req, user)).None? {
      var f :| 0 <= f < |pairs| && pairs[f].0 == user && (forall i | 0 <= i < f :: pairs[i].0 != user)
        && FirstRow(req, s, pairs, world, user) == Some(NewRow(req, pairs[f], world(f)).(id := world(f).minted));
      assert FirstPairOf(pairs, user, f) && pairs[f] == (user, channels[0]);
    }
  }

  /** A successful Notify: every requested user has exactly one row for the
      notification, however many channels were named, and it is as RowAfter says.
      All other rows are untouched. */
  lemma NotifyRows(req: NotifyRequest, providers: set<Channel>, s: MemState, channels: seq<Channel>,
                   world: nat -> World)
    requires Consistent(s) && MintsFresh(s, world) && channels != []
    requires !RunAll(req, providers, s, Pairs(req.userIds, channels), world).aborted
    ensures var t := RunAll(req, providers, s, Pairs(req.userIds, channels), world).store;
      && Consistent(t)
      && (forall user | user in req.userIds ::
            RowAfter(req, providers, s, t, channels, world, user)
            && forall id | id in t.notifs && NotifKey(t.notifs[id]) == UserKey(req, user) ::
                 RowFor(t, UserKey(req, user)) == Some(t.notifs[id]))
      && (forall k | (forall user | user in req.userIds :: k != UserKey(req, user)) :: RowFor(t, k) == RowFor(s, k))
  {
    var pairs := Pairs(req.userIds, channels);
    var t := RunAll(req, providers, s, pairs, world).store;
    RunKeepsStore(req, providers, s, pairs, world);
    forall user | user in req.userIds ensures RowAfter(req, providers, s, t, channels, world, user) {
      UserRow(req, providers, s, channels, world, user);
    }
    forall k | (forall user | user in req.userIds :: k != UserKey(req, user)) ensures RowFor(t, k) == RowFor(s, k) {
      forall p | p in pairs ensures k != UserKey(req, p.0) {
        PairsWithin(req.userIds, channels, p);
      }
      RunLeavesOthers(req, providers, s, pairs, world, k);
    }
  }

  /** In row-major order a user's first pair has the first channel. */
  lemma {:induction false} FirstPairHasFirstChannel(users: seq<Str>, channels: seq<Channel>, user: Str)
    requires channels != []
    ensures forall f | 0 <= f < |Pairs(users, channels)| && Pairs(users, channels)[f].0 == user
      && (forall i | 0 <= i < f :: Pairs(users, channels)[i].0 != user) :: Pairs(users, channels)[f].1 == channels[0]
    decreases |users|
  {
    if users != [] {
      var n := |users| - 1;
      var front, last := Pairs(users[..n], channels), ForUser(users[n], channels);
      var pairs := Pairs(users, channels);
      FirstPairHasFirstChannel(users[..n], channels, user);
      assert pairs == front + last;
      assert pairs[|front|] == last[0];
      forall f | 0 <= f < |pairs| && pairs[f].0 == user && (forall i | 0 <= i < f :: pairs[i].0 != user)
        ensures pairs[f].1 == channels[0]
      {
        if f < |front| {
          assert forall i | 0 <= i < f :: front[i] == pairs[i];
        } else {
          assert pairs[f] == last[f - |front|];
          assert f == |front|;
        }
      }
    }
  }

  /** Without effective channels a Notify stores nothing. */
  lemma NoChannelsNoRows(req: NotifyRequest, providers: set<Channel>, s: MemState, world: nat -> World)
    ensures RunAll(req, providers, s, Pairs(req.userIds, []), world) == Progress(s, ZERO, 0, false)
  {
    PairsCount(req.userIds, []);
  }

  /** The same request again adds no row, whatever the environment does, whichever
      providers are registered by then, and whatever order or selection of channels
      the second call works with. */
  lemma SecondNotifyAddsNothing(req: NotifyRequest, providers: set<Channel>, channels: seq<Channel>, s: MemState,
                                world: nat -> World, providers': set<Channel>, channels': seq<Channel>,
                                world': nat -> World)
    requires Consistent(s) && MintsFresh(s, world) && (channels == [] ==> channels' == [])
    requires !RunAll(req, providers, s, Pairs(req.userIds, channels), world).aborted
    ensures var t := RunAll(req, providers, s, Pairs(req.userIds, channels), world).store;
      SameKeys(t, RunAll(req, providers', t, Pairs(req.userIds, channels'), world').store)
  {
    var pairs, pairs' := Pairs(req.userIds, channels), Pairs(req.userIds, channels');
    var t := RunAll(req, providers, s, pairs, world).store;
    if channels == [] {
      NoChannelsNoRows(req, providers', t, world');
    } else {
      forall p | p in pairs' ensures UserKey(req, p.0) in t.notifByKey {
        PairsWithin(req.userIds, channels', p);
        UserRow(req, providers, s, channels, world, p.0);
      }
      KnownKeysAddNothing(req, providers', t, pairs', world');
    }
  }

  /** No row and no index entry was added. */
  ghost predicate SameKeys(s: MemState, t: MemState) {
    t.notifs.Keys == s.notifs.Keys && t.notifByKey == s.notifByKey
  }

  lemma KnownPairAddsNothing(req: NotifyRequest, providers: set<Channel>, p: Progress, pair: Pair, w: World)
    requires UserKey(req, pair.0) in p.store.notifByKey
    ensures SameKeys(p.store, PairStep(req, providers, p, pair, w).store)
  {
    var id := p.store.notifByKey[UserKey(req, pair.0)];
    var t := DispatchStep(req, p.store, id, p.res, w).0;
    assert SameKeys(p.store, t);
  }

  lemma {:induction false} KnownKeysAddNothing(req: NotifyRequest, providers: set<Channel>, t: MemState,
                                               pairs: seq<Pair>, world: nat -> World)
    requires forall p | p in pairs :: UserKey(req, p.0) in t.notifByKey
    ensures SameKeys(t, RunAll(req, providers, t, pairs, world).store)
    decreases |pairs|
  {
    if pairs != [] {
      var n := |pairs| - 1;
      assert pairs[n] in pairs;
      KnownKeysAddNothing(req, providers, t, pairs[..n], world);
      KnownPairAddsNothing(req, providers, RunAll(req, providers, t, pairs[..n], world), pairs[n], world(n));
    }
  }

  // ---- Conservation ----

  function Dispatches(req: NotifyRequest, providers: set<Channel>, pairs: seq<Pair>): nat
    decreases |pairs|
  {
    if pairs == [] then 0
    else
      var n := |pairs| - 1;
      Dispatches(req, providers, pairs[..n]) + if Dispatched(req, providers, pairs[n]) then 1 else 0
  }

  /** No pair is lost or counted twice: on success the counters sum to the pairs and
      the provider was called for exactly the dispatched ones; on failure they sum to
      the row-major index of the failing pair. */
  lemma {:induction false} RunConserves(req: NotifyRequest, providers: set<Channel>, s: MemState, pairs: seq<Pair>,
                                        world: nat -> World)
    ensures var p := RunAll(req, providers, s, pairs, world);
      && (!p.aborted ==> p.res.Sum() == |pairs| && p.sends == Dispatches(req, providers, pairs))
      && (p.aborted ==>
            var k := p.res.Sum();
            && k < |pairs|
            && !RunAll(req, providers, s, pairs[..k], world).aborted
            && RunAll(req, providers, s, pairs[..k + 1], world) == p)
    decreases |pairs|
  {
    if pairs != [] {
      var n := |pairs| - 1;
      RunConserves(req, providers, s, pairs[..n], world);
      var q := RunAll(req, providers, s, pairs[..n], world);
      if q.aborted {
        var k := q.res.Sum();
        assert pairs[..n][..k] == pairs[..k] && pairs[..n][..k + 1] == pairs[..k + 1];
      } else {
        assert pairs[..n + 1] == pairs;
      }
    }
  }

  /** .. so on success they sum to users times channels. */
  lemma NotifyConserves(req: NotifyRequest, providers: set<Channel>, s: MemState, channels: seq<Channel>,
                        world: nat -> World)
    ensures var p := RunAll(req, providers, s, Pairs(req.userIds, channels), world);
      if p.aborted then p.res.Sum() < |req.userIds| * |channels| else p.res.Sum() == |req.userIds| * |channels|
  {
    RunConserves(req, providers, s, Pairs(req.userIds, channels), world);
    PairsCount(req.userIds, channels);
  }

  /** On success the pending counter counts exactly the pairs without a provider or
      an address, and the other two the pairs a provider was called for. */
  lemma {:induction false} PendingCounts(req: NotifyRequest, providers: set<Channel>, s: MemState, pairs: seq<Pair>,
                                         world: nat -> World)
    requires !RunAll(req, providers, s, pairs, world).aborted
    ensures var res := RunAll(req, providers, s, pairs, world).res;
      && res.pending == |pairs| - Dispatches(req, providers, pairs)
      && res.delivered + res.failed == Dispatches(req, providers, pairs)
    decreases |pairs|
  {
    if pairs != [] { PendingCounts(req, providers, s, pairs[..|pairs| - 1], world); }
  }

  lemma {:induction false} AllDispatched(req: NotifyRequest, providers: set<Channel>, pairs: seq<Pair>)
    ensures Dispatches(req, providers, pairs) <= |pairs|
    ensures Dispatches(req, providers, pairs) == |pairs| <==> forall p | p in pairs :: Dispatched(req, providers, p)
    decreases |pairs|
  {
    if pairs != [] {
      var n := |pairs| - 1;
      AllDispatched(req, providers, pairs[..n]);
      assert pairs == pairs[..n] + [pairs[n]];
    }
  }

  /** A successful in-app Notify leaves nothing pending exactly when the in-app
      provider is registered and no requested user's address is empty: the override
      if the request has one, the user id otherwise. */
  lemma InAppPendsIff(req: NotifyRequest, providers: set<Channel>, s: MemState, world: nat -> World)
    requires !RunAll(req, providers, s, Pairs(req.userIds, [InApp]), world).aborted
    ensures var res := RunAll(req, providers, s, Pairs(req.userIds, [InApp]), world).res;
      res.pending == 0 <==> forall user | user in req.userIds ::
        InApp in providers
        && if user in req.addresses && InApp in req.addresses[user]
           then req.addresses[user][InApp] != [] else user != []
  {
    var pairs := Pairs(req.userIds, [InApp]);
    PendingCounts(req, providers, s, pairs, world);
    AllDispatched(req, providers, pairs);
    forall user | user in req.userIds ensures (user, InApp) in pairs {
      EveryPairListed(req.userIds, [InApp], user, InApp);
    }
    forall p | p in pairs ensures p.0 in req.userIds && p == (p.0, InApp) {
      PairsWithin(req.userIds, [InApp], p);
    }
  }

  // ---- The counters and the abort, told from the request and the environment ----

  /** A provider is called for the pair: it is registered, and the request's override
      for the pair is not empty, or there is none and the pair is the in-app one of a
      non-empty user id. */
  predicate Called(req: NotifyRequest, providers: set<Channel>, pair: Pair) {
    && pair.1 in providers
    && if pair.0 in req.addresses && pair.1 in req.addresses[pair.0]
       then req.addresses[pair.0][pair.1] != []
       else pair.1 == InApp && pair.0 != []
  }

  lemma DispatchedIffCalled(req: NotifyRequest, providers: set<Channel>, pair: Pair)
    ensures Dispatched(req, providers, pair) <==> Called(req, providers, pair)
  {}

  /** A successful Notify leaves nothing pending exactly when a provider is called for
      every requested user and channel. */
  lemma NothingPendsIff(req: NotifyRequest, providers: set<Channel>, s: MemState, channels: seq<Channel>,
                        world: nat -> World)
    requires !RunAll(req, providers, s, Pairs(req.userIds, channels), world).aborted
    ensures RunAll(req, providers, s, Pairs(req.userIds, channels), world).res.pending == 0
      <==> forall user, kind | user in req.userIds && kind in channels :: Called(req, providers, (user, kind))
  {
    var pairs := Pairs(req.userIds, channels);
    PendingCounts(req, providers, s, pairs, world);
    AllDispatched(req, providers, pairs);
    forall user, kind | user in req.userIds && kind in channels ensures (user, kind) in pairs {
      EveryPairListed(req.userIds, channels, user, kind);
    }
    forall p | p in pairs ensures p.0 in req.userIds && p.1 in channels && p == (p.0, p.1) {
      PairsWithin(req.userIds, channels, p);
    }
  }

  function Failures(req: NotifyRequest, providers: set<Channel>, pairs: seq<Pair>, world: nat -> World): nat
    decreases |pairs|
  {
    if pairs == [] then 0
    else
      var n := |pairs| - 1;
      Failures(req, providers, pairs[..n], world)
        + if Called(req, providers, pairs[n]) && world(n).sent.SendError? then 1 else 0
  }

  function Receipts(req: NotifyRequest, providers: set<Channel>, pairs: seq<Pair>, world: nat -> World): nat
    decreases |pairs|
  {
    if pairs == [] then 0
    else
      var n := |pairs| - 1;
      Receipts(req, providers, pairs[..n], world)
        + if Called(req, providers, pairs[n]) && world(n).sent.Receipt? && !world(n).updateFails then 1 else 0
  }

  function CallsMade(req: NotifyRequest, providers: set<Channel>, pairs: seq<Pair>): nat
    decreases |pairs|
  {
    if pairs == [] then 0
    else
      var n := |pairs| - 1;
      CallsMade(req, providers, pairs[..n]) + if Called(req, providers, pairs[n]) then 1 else 0
  }

  /** Each counter on its own, over the pairs done: all of them on success, those before
      the failing one on an abort. Failed counts the calls that gave an error, delivered
      those that gave a receipt whose status write succeeded, pending the rest. */
  ghost predicate Counted(req: NotifyRequest, providers: set<Channel>, done: seq<Pair>, world: nat -> World,
                          res: NotifyResult) {
    && res.failed == Failures(req, providers, done, world)
    && res.delivered == Receipts(req, providers, done, world)
    && res.pending == |done| - CallsMade(req, providers, done)
  }

  lemma PairCounts(req: NotifyRequest, providers: set<Channel>, p: Progress, done: seq<Pair>, pair: Pair,
                   world: nat -> World)
    requires !p.aborted && Counted(req, providers, done, world, p.res)
    ensures var q := PairStep(req, providers, p, pair, world(|done|));
      if q.aborted then (
        && q.res == p.res && q.sends == p.sends + (if world(|done|).createFails then 0 else 1)
      ) else (
        && Counted(req, providers, done + [pair], world, q.res)
        && q.sends == p.sends + (if Called(req, providers, pair) then 1 else 0)
      )
  {
    assert (done + [pair])[..|done|] == done;
  }

  lemma {:induction false} CleanRunCounts(req: NotifyRequest, providers: set<Channel>, s: MemState, pairs: seq<Pair>,
                                          world: nat -> World)
    requires !RunAll(req, providers, s, pairs, world).aborted
    ensures Counted(req, providers, pairs, world, RunAll(req, providers, s, pairs, world).res)
    ensures RunAll(req, providers, s, pairs, world).sends == CallsMade(req, providers, pairs)
    decreases |pairs|
  {
    if pairs != [] {
      var n := |pairs| - 1;
      RunUnfolds(req, providers, s, pairs, world);
      CleanRunCounts(req, providers, s, pairs[..n], world);
      PairCounts(req, providers, RunAll(req, providers, s, pairs[..n], world), pairs[..n], pairs[n], world);
      assert pairs[..n] + [pairs[n]] == pairs;
    }
  }

  lemma RunUnfolds(req: NotifyRequest, providers: set<Channel>, s: MemState, pairs: seq<Pair>, world: nat -> World)
    requires pairs != []
    ensures var n := |pairs| - 1; var q := RunAll(req, providers, s, pairs[..n], world);
      RunAll(req, providers, s, pairs, world)
      == if q.aborted then q else PairStep(req, providers, q, pairs[n], world(n))
  {}

  /** Every run: the counters count the pairs done, and the provider was called for
      those, and for the failing pair too unless its create failed. */
  lemma CountersCount(req: NotifyRequest, providers: set<Channel>, s: MemState, pairs: seq<Pair>, world: nat -> World)
    ensures var p := RunAll(req, providers, s, pairs, world); var k := p.res.Sum();
      if !p.aborted then (
        && Counted(req, providers, pairs, world, p.res) && p.sends == CallsMade(req, providers, pairs)
      ) else (
        && k < |pairs| && Counted(req, providers, pairs[..k], world, p.res)
        && p.sends == CallsMade(req, providers, pairs[..k]) + (if world(k).createFails then 0 else 1)
      )
  {
    var p := RunAll(req, providers, s, pairs, world);
    if !p.aborted {
      CleanRunCounts(req, providers, s, pairs, world);
    } else {
      RunConserves(req, providers, s, pairs, world);
      var k := p.res.Sum();
      CleanRunCounts(req, providers, s, pairs[..k], world);
      PairCounts(req, providers, RunAll(req, providers, s, pairs[..k], world), pairs[..k], pairs[k], world);
      RunConserves(req, providers, s, pairs[..k], world);
      assert pairs[..k + 1][..k] == pairs[..k];
    }
  }

  /** The pair makes the call fail: its create fails, or the status write after a
      receipt does. */
  predicate Fails(req: NotifyRequest, providers: set<Channel>, pair: Pair, w: World) {
    w.createFails || (Called(req, providers, pair) && w.sent.Receipt? && w.updateFails)
  }

  lemma PairAbortsIff(req: NotifyRequest, providers: set<Channel>, p: Progress, pair: Pair, w: World)
    requires Consistent(p.store) && w.minted !in p.store.notifs && !p.aborted
    ensures PairStep(req, providers, p, pair, w).aborted <==> Fails(req, providers, pair, w)
  {
    CreateKeepsConsistent(p.store, NewRow(req, pair, w), w.minted);
  }

  /** Notify fails exactly when some pair makes it fail, and then at the first one. */
  lemma {:induction false} AbortsIff(req: NotifyRequest, providers: set<Channel>, s: MemState, pairs: seq<Pair>,
                                     world: nat -> World)
    requires Consistent(s) && MintsFresh(s, world)
    ensures RunAll(req, providers, s, pairs, world).aborted
      <==> exists i :: 0 <= i < |pairs| && Fails(req, providers, pairs[i], world(i))
    ensures RunAll(req, providers, s, pairs, world).aborted ==>
      var k := RunAll(req, providers, s, pairs, world).res.Sum();
      && k < |pairs| && Fails(req, providers, pairs[k], world(k))
      && forall i | 0 <= i < k :: !Fails(req, providers, pairs[i], world(i))
    decreases |pairs|
  {
    if pairs != [] {
      var n := |pairs| - 1;
      var front, q := pairs[..n], RunAll(req, providers, s, pairs[..n], world);
      AbortsIff(req, providers, s, front, world);
      RunConserves(req, providers, s, front, world);
      assert forall i | 0 <= i < n :: front[i] == pairs[i];
      if !q.aborted {
        RunKeepsStore(req, providers, s, front, world);
        PairAbortsIff(req, providers, q, pairs[n], world(n));
        CleanRunCounts(req, providers, s, front, world);
        PairCounts(req, providers, q, front, pairs[n], world);
      }
    }
  }

  /** What an aborted call leaves in the store: what the pairs before the failing one
      left, and the failing pair's row if its create did not fail. */
  lemma AbortLeaves(req: NotifyRequest, providers: set<Channel>, s: MemState, pairs: seq<Pair>, world: nat -> World)
    requires Consistent(s) && MintsFresh(s, world) && RunAll(req, providers, s, pairs, world).aborted
    ensures var p := RunAll(req, providers, s, pairs, world); var k := p.res.Sum();
      && k < |pairs|
      && var q := RunAll(req, providers, s, pairs[..k], world);
         && !q.aborted
         && p.store == if world(k).createFails then q.store
                       else MemCreate(q.store, NewRow(req, pairs[k], world(k)), world(k).minted).0
  {
    RunConserves(req, providers, s, pairs, world);
    AbortsIff(req, providers, s, pairs, world);
    var k := RunAll(req, providers, s, pairs, world).res.Sum();
    RunKeepsStore(req, providers, s, pairs[..k], world);
    RunUnfolds(req, providers, s, pairs[..k + 1], world);
    AbortedStep(req, providers, RunAll(req, providers, s, pairs[..k], world), pairs[k], world(k));
    assert pairs[..k + 1][..k] == pairs[..k];
  }

  lemma AbortedStep(req: NotifyRequest, providers: set<Channel>, q: Progress, pair: Pair, w: World)
    requires !q.aborted && Consistent(q.store) && w.minted !in q.store.notifs
    ensures PairStep(req, providers, q, pair, w).aborted ==>
      PairStep(req, providers, q, pair, w).store
      == if w.createFails then q.store else MemCreate(q.store, NewRow(req, pair, w), w.minted).0
  {
    PairAbortsIff(req, providers, q, pair, w);
  }

  // ---- The rows, told from the request and the environment ----

  /** What a provider's answer leaves as the status: failed on an error, the receipt's
      own status, or delivered if that is unset. */
  predicate Leaves(sent: Sent, status: Status) {
    match sent
    case SendError => status == Failed
    case Receipt(Unset) => status == Delivered
    case Receipt(other) => status == other
  }

  /** The pair wrote the user's row. */
  predicate WroteRow(req: NotifyRequest, providers: set<Channel>, pair: Pair, w: World, user: Str) {
    pair.0 == user && Called(req, providers, pair) && !w.updateFails
  }

  lemma {:induction false} LastWriteWins(req: NotifyRequest, providers: set<Channel>, pairs: seq<Pair>,
                                         world: nat -> World, user: Str, i: nat, initial: Status, time: Int64)
    requires i < |pairs| && WroteRow(req, providers, pairs[i], world(i), user)
    requires forall j | i < j < |pairs| :: !WroteRow(req, providers, pairs[j], world(j), user)
    ensures var status := LastStatus(req, providers, pairs, world, user, initial);
      Leaves(world(i).sent, status) && LastTime(req, providers, pairs, world, user, status, time) == world(i).at
    decreases |pairs|
  {
    var n := |pairs| - 1;
    if i < n {
      LastWriteWins(req, providers, pairs[..n], world, user, i, initial, time);
    }
  }

  /** After a successful Notify the row of a user whose row was written has the status
      of the last pair that wrote it, and that status' timestamp is that pair's time. */
  lemma LastWriteShows(req: NotifyRequest, providers: set<Channel>, s: MemState, pairs: seq<Pair>,
                       world: nat -> World, user: Str, i: nat)
    requires Consistent(s) && MintsFresh(s, world) && !RunAll(req, providers, s, pairs, world).aborted
    requires i < |pairs| && WroteRow(req, providers, pairs[i], world(i), user)
    requires forall j | i < j < |pairs| :: !WroteRow(req, providers, pairs[j], world(j), user)
    ensures var row := RowFor(RunAll(req, providers, s, pairs, world).store, UserKey(req, user));
      && row.Some? && Leaves(world(i).sent, row.value.status)
      && (row.value.status == Delivered ==> row.value.deliveredAt == world(i).at)
      && (row.value.status == Acked ==> row.value.ackAt == world(i).at)
      && (row.value.status == Read ==> row.value.readAt == world(i).at)
  {
    RunRow(req, providers, s, pairs, world, user);
    FirstRowIsFirstPair(req, s, pairs, world, user);
    var first := FirstRow(req, s, pairs, world, user).value;
    LastWriteWins(req, providers, pairs, world, user, i, first.status, first.deliveredAt);
    LastWriteWins(req, providers, pairs, world, user, i, first.status, first.ackAt);
    LastWriteWins(req, providers, pairs, world, user, i, first.status, first.readAt);
  }

  lemma {:induction false} NoWriteStays(req: NotifyRequest, providers: set<Channel>, pairs: seq<Pair>,
                                        world: nat -> World, user: Str, row: Notification)
    requires forall j | 0 <= j < |pairs| :: !WroteRow(req, providers, pairs[j], world(j), user)
    ensures Settled(req, providers, pairs, world, user, row, row)
    decreases |pairs|
  {
    if pairs != [] { NoWriteStays(req, providers, pairs[..|pairs| - 1], world, user, row); }
  }

  /** The content of a row created for the user in this environment. */
  predicate HasContent(req: NotifyRequest, user: Str, kind: Channel, w: World, row: Notification) {
    && row.tenant == req.tenant && row.user == user && row.notificationId == req.notificationId
    && row.title == req.title && row.body == req.body
    && row.subjectRef == req.subjectRef && row.subjectType == req.subjectType
    && row.channel == kind && row.id == w.minted && row.createdAt == w.createdAt
  }

  predicate Untouched(row: Notification) {
    row.status == Pending && row.deliveredAt == 0 && row.ackAt == 0 && row.readAt == 0
  }

  lemma SettledContent(req: NotifyRequest, providers: set<Channel>, pairs: seq<Pair>, world: nat -> World, user: Str,
                       kind: Channel, w: World, row: Notification)
    requires Settled(req, providers, pairs, world, user, NewRow(req, (user, kind), w).(id := w.minted), row)
    ensures HasContent(req, user, kind, w, row)
    ensures (forall j | 0 <= j < |pairs| :: !WroteRow(req, providers, pairs[j], world(j), user)) ==> Untouched(row)
  {
    if forall j | 0 <= j < |pairs| :: !WroteRow(req, providers, pairs[j], world(j), user) {
      NoWriteStays(req, providers, pairs, world, user, NewRow(req, (user, kind), w).(id := w.minted));
    }
  }

  /** The row of a user who had none: the request's content under the user's triple, the
      first channel, the id and time of the user's first pair; and if no pair wrote it,
      it is pending with no other timestamp. */
  lemma NewRowContent(req: NotifyRequest, providers: set<Channel>, s: MemState, channels: seq<Channel>,
                      world: nat -> World, user: Str) returns (f: nat)
    requires Consistent(s) && MintsFresh(s, world) && channels != [] && user in req.userIds
    requires RowFor(s, Key(req.tenant, user, req.notificationId)).None?
    requires !RunAll(req, providers, s, Pairs(req.userIds, channels), world).aborted
    ensures var pairs := Pairs(req.userIds, channels);
      var found := RowFor(RunAll(req, providers, s, pairs, world).store, Key(req.tenant, user, req.notificationId));
      && found.Some? && FirstPairOf(pairs, user, f)
      && HasContent(req, user, channels[0], world(f), found.value)
      && ((forall j | 0 <= j < |pairs| :: !WroteRow(req, providers, pairs[j], world(j), user)) ==>
            Untouched(found.value))
  {
    var pairs := Pairs(req.userIds, channels);
    UserRow(req, providers, s, channels, world, user);
    var row := RowFor(RunAll(req, providers, s, pairs, world).store, UserKey(req, user)).value;
    f :| FirstPairOf(pairs, user, f) && Settled(req, providers, pairs, world, user,
      NewRow(req, (user, channels[0]), world(f)).(id := world(f).minted), row);
    SettledContent(req, providers, pairs, world, user, channels[0], world(f), row);
  }

  /** With a store that does not fail, Notify over memory never aborts. */
  lemma {:induction false} NoFaultNoAbort(req: NotifyRequest, providers: set<Channel>, s: MemState, pairs: seq<Pair>,
                                          world: nat -> World)
    requires Consistent(s) && MintsFresh(s, world)
    requires forall i: nat :: !world(i).createFails && !world(i).updateFails
    ensures !RunAll(req, providers, s, pairs, world).aborted
    decreases |pairs|
  {
    if pairs != [] {
      var n := |pairs| - 1;
      NoFaultNoAbort(req, providers, s, pairs[..n], world);
      RunKeepsStore(req, providers, s, pairs[..n], world);
      var q := RunAll(req, providers, s, pairs[..n], world);
      CreateKeepsConsistent(q.store, NewRow(req, pairs[n], world(n)), world(n).minted);
    }
  }

  // ---- The code ----

  /** An aborted run ignores the pairs that follow. */
  lemma {:induction false} AbortSticks(req: NotifyRequest, providers: set<Channel>, s: MemState, a: seq<Pair>,
                                       b: seq<Pair>, world: nat -> World)
    requires RunAll(req, providers, s, a, world).aborted
    ensures RunAll(req, providers, s, a + b, world) == RunAll(req, providers, s, a, world)
    decreases |b|
  {
    if b == [] {
      assert a + b == a;
    } else {
      AbortSticks(req, providers, s, a, b[..|b| - 1], world);
      assert (a + b)[..|a + b| - 1] == a + b[..|b| - 1];
    }
  }

  /** trace[k] is the progress after k pairs; an abort is final. */
  ghost predicate Traces(req: NotifyRequest, providers: set<Channel>, all: seq<Pair>, world: nat -> World,
                         trace: seq<Progress>) {
    && |trace| == |all| + 1
    && forall k {:trigger all[k]} | 0 <= k < |all| && !trace[k].aborted ::
         && trace[k + 1] == PairStep(req, providers, trace[k], all[k], world(k))
         && (trace[k + 1].aborted ==> trace[|all|] == trace[k + 1])
  }

  lemma RunTrace(req: NotifyRequest, providers: set<Channel>, s: MemState, all: seq<Pair>, world: nat -> World)
    returns (trace: seq<Progress>)
    ensures Traces(req, providers, all, world, trace)
    ensures trace[0] == Progress(s, ZERO, 0, false) && trace[|all|] == RunAll(req, providers, s, all, world)
  {
    trace := seq(|all| + 1, k requires 0 <= k <= |all| => RunAll(req, providers, s, all[..k], world));
    assert all[..|all|] == all;
    forall k | 0 <= k < |all| && !trace[k].aborted
      ensures trace[k + 1] == PairStep(req, providers, trace[k], all[k], world(k))
        && (trace[k + 1].aborted ==> trace[|all|] == trace[k + 1])
    {
      RunStep(req, providers, s, all, k, world);
    }
  }

  lemma RunStep(req: NotifyRequest, providers: set<Channel>, s: MemState, all: seq<Pair>, k: nat, world: nat -> World)
    requires k < |all| && !RunAll(req, providers, s, all[..k], world).aborted
    ensures var p, q := RunAll(req, providers, s, all[..k], world), RunAll(req, providers, s, all[..k + 1], world);
      && q == PairStep(req, providers, p, all[k], world(k))
      && (q.aborted ==> RunAll(req, providers, s, all, world) == q)
  {
    assert all[..k + 1][..k] == all[..k];
    if RunAll(req, providers, s, all[..k + 1], world).aborted {
      AbortSticks(req, providers, s, all[..k + 1], all[k + 1..], world);
      assert all == all[..k + 1] + all[k + 1..];
    }
  }

  /** The user's pairs are consecutive from index i on. */
  ghost predicate PairsFrom(all: seq<Pair>, i: nat, user: Str, channels: seq<Channel>) {
    i + |channels| <= |all| && forall c | 0 <= c < |channels| :: all[i + c] == (user, channels[c])
  }

  ghost predicate UserAt(users: seq<Str>, channels: seq<Channel>, all: seq<Pair>, starts: seq<nat>, u: nat) {
    && u < |users| && u + 1 < |starts|
    && starts[u + 1] == starts[u] + |channels| && PairsFrom(all, starts[u], users[u], channels)
  }

  /** starts[u] is the index of user u's first pair. */
  ghost predicate Offsets(users: seq<Str>, channels: seq<Channel>, all: seq<Pair>, starts: seq<nat>) {
    && |starts| == |users| + 1 && starts[0] == 0 && starts[|users|] == |all|
    && forall u: nat | u < |users| :: UserAt(users, channels, all, starts, u)
  }

  lemma {:induction false} PairOffsets(users: seq<Str>, channels: seq<Channel>) returns (starts: seq<nat>)
    ensures Offsets(users, channels, Pairs(users, channels), starts)
    decreases |users|
  {
    if users == [] {
      starts := [0];
    } else {
      var n := |users| - 1;
      var front := PairOffsets(users[..n], channels);
      starts := front + [front[n] + |channels|];
      OffsetsGrow(users, channels, Pairs(users[..n], channels), front);
    }
  }

  lemma OffsetsGrow(users: seq<Str>, channels: seq<Channel>, all: seq<Pair>, starts: seq<nat>)
    requires users != [] && Offsets(users[..|users| - 1], channels, all, starts)
    ensures var n := |users| - 1;
      Offsets(users, channels, all + ForUser(users[n], channels), starts + [starts[n] + |channels|])
  {
    var n := |users| - 1;
    var all', starts' := all + ForUser(users[n], channels), starts + [starts[n] + |channels|];
    forall u: nat | u < |users| ensures UserAt(users, channels, all', starts', u) {
      if u < n { assert UserAt(users[..n], channels, all, starts, u); }
    }
  }

  /** enabled is ProviderRegistry.Enabled(): the registered kinds in some order. */
  method Notify(store: MemoryStore, providers: set<Channel>, enabled: seq<Channel>, req: NotifyRequest,
                world: nat -> World)
    returns (res: NotifyResult, ok: bool, sends: nat)
    requires forall kind :: kind in enabled <==> kind in providers
    modifies store`notifs, store`notifByKey
    ensures var channels := if req.channels == [] then enabled else req.channels;
      Progress(store.State(), res, sends, !ok)
      == RunAll(req, providers, old(store.State()), Pairs(req.userIds, channels), world)
  {
    var channels := req.channels;
    if |channels| == 0 {
      channels := enabled;
    }
    ghost var all := Pairs(req.userIds, channels);
    ghost var trace := RunTrace(req, providers, store.State(), all, world);
    ghost var starts := PairOffsets(req.userIds, channels);
    res, ok, sends := NotifyUsers(store, providers, req, channels, world, all, trace, starts);
  }

  /** The outer loop. */
  method NotifyUsers(store: MemoryStore, providers: set<Channel>, req: NotifyRequest, channels: seq<Channel>,
                     world: nat -> World, ghost all: seq<Pair>, ghost trace: seq<Progress>, ghost starts: seq<nat>)
    returns (res: NotifyResult, ok: bool, sends: nat)
    requires Traces(req, providers, all, world, trace) && Offsets(req.userIds, channels, all, starts)
    requires trace[0] == Progress(store.State(), ZERO, 0, false)
    modifies store`notifs, store`notifByKey
    ensures Progress(store.State(), res, sends, !ok) == trace[|all|]
  {
    res, sends, ok := NotifyResult(0, 0, 0), 0, true;
    var i := 0;
    for u := 0 to |req.userIds|
      invariant i == starts[u] <= |all| && ok
      invariant Progress(store.State(), res, sends, false) == trace[i]
    {
      var userId := req.userIds[u];
      assert UserAt(req.userIds, channels, all, starts, u);
      ok, res, sends := NotifyUser(store, providers, req, userId, channels, i, world, res, sends, all, trace);
      if !ok {
        return;
      }
      i := i + |channels|;
    }
  }

  /** The inner loop: one user, every channel; i is the index of the first pair. */
  method NotifyUser(store: MemoryStore, providers: set<Channel>, req: NotifyRequest, userId: Str,
                    channels: seq<Channel>, i: nat, world: nat -> World, res0: NotifyResult, sends0: nat,
                    ghost all: seq<Pair>, ghost trace: seq<Progress>)
    returns (ok: bool, res: NotifyResult, sends: nat)
    requires Traces(req, providers, all, world, trace) && PairsFrom(all, i, userId, channels)
    requires Progress(store.State(), res0, sends0, false) == trace[i]
    modifies store`notifs, store`notifByKey
    ensures Progress(store.State(), res, sends, !ok) == trace[if ok then i + |channels| else |all|]
  {
    res, sends, ok := res0, sends0, true;
    for c := 0 to |channels|
      invariant ok
      invariant Progress(store.State(), res, sends, false) == trace[i + c]
    {
      assert all[i + c] == (userId, channels[c]);
      ok, res, sends := NotifyPair(store, providers, req, userId, channels[c], world(i + c), res, sends);
      if !ok {
        return;
      }
    }
  }

  /** The body of the inner loop. */
  method NotifyPair(store: MemoryStore, providers: set<Channel>, req: NotifyRequest, userId: Str, kind: Channel,
                    w: World,
                    res0: NotifyResult, sends0: nat)
    returns (ok: bool, res: NotifyResult, sends: nat)
    modifies store`notifs, store`notifByKey
    ensures Progress(store.State(), res, sends, !ok)
      == PairStep(req, providers, Progress(old(store.State()), res0, sends0, false), (userId, kind), w)
  {
    res, sends := res0, sends0;
    var row := Notification([], req.notificationId, req.tenant, userId, req.subjectRef, req.subjectType,
      req.title, req.body, kind, Pending, w.createdAt, 0, 0, 0);
    if w.createFails {
      return false, res, sends;
    }
    var id, _ := store.CreateNotification(row, w.minted);
    ok, res, sends := DeliverPair(store, providers, req, userId, kind, id, w, res, sends);
  }

  /** Provider and address looked up; without either the row stays pending. */
  method DeliverPair(store: MemoryStore, providers: set<Channel>, req: NotifyRequest, userId: Str, kind: Channel,
                     id: Str, w: World, res0: NotifyResult, sends0: nat)
    returns (ok: bool, res: NotifyResult, sends: nat)
    modifies store`notifs
    ensures Progress(store.State(), res, sends, !ok)
      == Deliver(req, providers, Progress(old(store.State()), res0, sends0, false), (userId, kind), id, w)
  {
    res, sends := res0, sends0;
    var to := AddressFor(req, userId, kind);
    if kind !in providers || to == [] {
      res := res.(pending := res.pending + 1);
      return true, res, sends;
    }
    sends := sends + 1;
    ok, res := Dispatch(store, req, id, w, res);
  }

  /** The provider call and the status write that follows it. */
  method Dispatch(store: MemoryStore, req: NotifyRequest, id: Str, w: World, res0: NotifyResult)
    returns (ok: bool, res: NotifyResult)
    modifies store`notifs
    ensures (store.State(), res, ok) == DispatchStep(req, old(store.State()), id, res0, w)
  {
    res := res0;
    if w.sent.SendError? {
      res := res.(failed := res.failed + 1);
      if !w.updateFails {
        var _ := store.UpdateStatus(req.tenant, id, Failed, w.at);
      }
      return true, res;
    }
    var status := w.sent.status;
    if status == Unset {
      status := Delivered;
    }
    if w.updateFails {
      return false, res;
    }
    var updated := store.UpdateStatus(req.tenant, id, status, w.at);
    if updated.Failure? {
      return false, res;
    }
    res := res.(delivered := res.delivered + 1);
    ok := true;
  }
}
