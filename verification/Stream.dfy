/** streamHandler.serve (internal/server/stream.go) draining its connection's queue
    while pushes to the same user interleave: each registry call, queue operation
    and stream send is one atomic step. A push works on the snapshot it took, so it
    may reach a connection that has left the registry meanwhile. */
module Stream {
  import opened Domain

  datatype Item<T> = Heartbeat | Event(e: T)

  /** Holding: an event was taken and its send has not returned. Closing: serve is
      returning, the deferred Unregister has not run. */
  datatype Phase<T> = Opening | Registered | Streaming | Holding(e: T) | Closing | Closed

  /** accepted, taken and sent record what trySend queued, what serve took off the
      queue, and what the stream's Send accepted. */
  datatype Session<T> = Session(
    user: Str, cap: nat, phase: Phase<T>, queue: seq<T>,
    accepted: seq<T>, taken: seq<T>, sent: seq<Item<T>>)

  datatype Push<T> = Push(user: Str, ev: T, todo: seq<nat>, delivered: nat)

  datatype Hub<T> = Hub(sessions: seq<Session<T>>, live: set<nat>, pushes: seq<Push<T>>)

  datatype Step<T> =
    | Open(c: nat) | Greet(c: nat, ok: bool) | Tick(c: nat, ok: bool) | Take(c: nat) | Emit(c: nat, ok: bool)
    | Done(c: nat) | Close(c: nat)
    | StartPush(user: Str, ev: T, snapshot: seq<nat>) | SendNext(p: nat)

  ghost predicate Enabled<T>(h: Hub<T>, step: Step<T>) {
    match step
    case Open(c) => c < |h.sessions| && h.sessions[c].phase == Opening
    case Greet(c, _) => c < |h.sessions| && h.sessions[c].phase == Registered
    case Tick(c, _) => c < |h.sessions| && h.sessions[c].phase == Streaming
    case Take(c) => c < |h.sessions| && h.sessions[c].phase == Streaming && h.sessions[c].queue != []
    case Emit(c, _) => c < |h.sessions| && h.sessions[c].phase.Holding?
    case Done(c) => c < |h.sessions| && h.sessions[c].phase == Streaming
    case Close(c) => c < |h.sessions| && h.sessions[c].phase == Closing
    case StartPush(user, _, snapshot) =>
      && (forall c: nat :: c in snapshot <==> c in h.live && c < |h.sessions| && h.sessions[c].user == user)
      && (forall i, j | 0 <= i < j < |snapshot| :: snapshot[i] != snapshot[j])
    case SendNext(p) => p < |h.pushes| && h.pushes[p].todo != [] && h.pushes[p].todo[0] < |h.sessions|
  }

  function Put<T>(h: Hub<T>, c: nat, s: Session<T>): Hub<T>
    requires c < |h.sessions|
  {
    h.(sessions := h.sessions[c := s])
  }

  function Sending<T>(s: Session<T>, item: Item<T>, ok: bool): Session<T> {
    if ok then s.(sent := s.sent + [item], phase := Streaming) else s.(phase := Closing)
  }

  function TrySend<T>(s: Session<T>, ev: T): (Session<T>, bool) {
    if |s.queue| < s.cap then (s.(queue := s.queue + [ev], accepted := s.accepted + [ev]), true) else (s, false)
  }

  ghost function Next<T>(h: Hub<T>, step: Step<T>): Hub<T>
    requires Enabled(h, step)
  {
    match step
    case Open(c) => Put(h, c, h.sessions[c].(phase := Registered)).(live := h.live + {c})
    case Greet(c, ok) => Put(h, c, Sending(h.sessions[c], Heartbeat, ok))
    case Tick(c, ok) => Put(h, c, Sending(h.sessions[c], Heartbeat, ok))
    case Take(c) =>
      var s := h.sessions[c];
      Put(h, c, s.(phase := Holding(s.queue[0]), queue := s.queue[1..], taken := s.taken + [s.queue[0]]))
    case Emit(c, ok) => Put(h, c, Sending(h.sessions[c], Event(h.sessions[c].phase.e), ok))
    case Done(c) => Put(h, c, h.sessions[c].(phase := Closing))
    case Close(c) => Put(h, c, h.sessions[c].(phase := Closed)).(live := h.live - {c})
    case StartPush(user, ev, snapshot) => h.(pushes := h.pushes + [Push(user, ev, snapshot, 0)])
    case SendNext(p) =>
      var push := h.pushes[p];
      var (s, ok) := TrySend(h.sessions[push.todo[0]], push.ev);
      Put(h, push.todo[0], s).(
        pushes := h.pushes[p := push.(todo := push.todo[1..], delivered := push.delivered + if ok then 1 else 0)])
  }

  function Events<T>(sent: seq<Item<T>>): seq<T> {
    if sent == [] then []
    else
      var last := sent[|sent| - 1];
      Events(sent[..|sent| - 1]) + if last.Event? then [last.e] else []
  }

  /** Between Register and the return of serve. */
  predicate Serving<T>(phase: Phase<T>) {
    phase != Opening && phase != Closed
  }

  ghost predicate SessionOk<T>(s: Session<T>) {
    && s.accepted == s.taken + s.queue
    && |s.queue| <= s.cap
    && (s.sent != [] ==> s.sent[0] == Heartbeat)
    && match s.phase
       case Opening => s.sent == [] && s.taken == []
       case Registered => s.sent == [] && s.taken == []
       case Streaming => s.sent != [] && s.taken == Events(s.sent)
       case Holding(e) => s.sent != [] && s.taken == Events(s.sent) + [e]
       case _ => Events(s.sent) <= s.taken && |s.taken| <= |Events(s.sent)| + 1
  }

  ghost predicate LiveOk<T>(h: Hub<T>) {
    forall c: nat :: c in h.live <==> c < |h.sessions| && Serving(h.sessions[c].phase)
  }

  ghost predicate PushOk<T>(sessions: seq<Session<T>>, push: Push<T>) {
    forall i | 0 <= i < |push.todo| :: push.todo[i] < |sessions| && sessions[push.todo[i]].user == push.user
  }

  ghost predicate Inv<T>(h: Hub<T>) {
    && (forall c | 0 <= c < |h.sessions| :: SessionOk(h.sessions[c]))
    && LiveOk(h)
    && (forall p | 0 <= p < |h.pushes| :: PushOk(h.sessions, h.pushes[p]))
  }

  ghost predicate Init<T>(h: Hub<T>) {
    && h.live == {} && h.pushes == []
    && forall c | 0 <= c < |h.sessions| ::
         var s := h.sessions[c];
         s.phase == Opening && s.queue == [] && s.accepted == [] && s.taken == [] && s.sent == []
  }

  lemma SendingOk<T>(s: Session<T>, item: Item<T>, ok: bool)
    requires SessionOk(s)
    requires (item == Heartbeat && (s.phase == Registered || s.phase == Streaming))
      || (s.phase.Holding? && item == Event(s.phase.e))
    ensures SessionOk(Sending(s, item, ok))
  {
  }

  lemma NextKeepsSessions<T>(h: Hub<T>, step: Step<T>)
    requires Inv(h) && Enabled(h, step)
    ensures forall c | 0 <= c < |h.sessions| :: SessionOk(Next(h, step).sessions[c])
  {
    match step
    case Open(c) => assert SessionOk(h.sessions[c]);
    case Greet(c, ok) => SendingOk(h.sessions[c], Heartbeat, ok);
    case Tick(c, ok) => SendingOk(h.sessions[c], Heartbeat, ok);
    case Take(c) =>
    case Emit(c, ok) => SendingOk(h.sessions[c], Event(h.sessions[c].phase.e), ok);
    case Done(c) => assert SessionOk(h.sessions[c]);
    case Close(c) => assert SessionOk(h.sessions[c]);
    case StartPush(_, _, _) =>
    case SendNext(p) =>
  }

  lemma NextKeepsLive<T>(h: Hub<T>, step: Step<T>)
    requires Inv(h) && Enabled(h, step)
    ensures LiveOk(Next(h, step))
  {}

  lemma NextKeepsPushes<T>(h: Hub<T>, step: Step<T>)
    requires Inv(h) && Enabled(h, step)
    ensures forall p | 0 <= p < |Next(h, step).pushes| :: PushOk(Next(h, step).sessions, Next(h, step).pushes[p])
  {
    var t := Next(h, step);
    forall p | 0 <= p < |t.pushes| ensures PushOk(t.sessions, t.pushes[p]) {
      if p < |h.pushes| { assert PushOk(h.sessions, h.pushes[p]); }
    }
  }

  lemma NextKeepsInv<T>(h: Hub<T>, step: Step<T>)
    requires Inv(h) && Enabled(h, step)
    ensures Inv(Next(h, step))
  {
    NextKeepsSessions(h, step);
    NextKeepsLive(h, step);
    NextKeepsPushes(h, step);
  }

  ghost predicate Behaviour<T>(states: seq<Hub<T>>, steps: seq<Step<T>>) {
    && |states| == |steps| + 1
    && Init(states[0])
    && forall i | 0 <= i < |steps| :: Enabled(states[i], steps[i]) && states[i + 1] == Next(states[i], steps[i])
  }

  lemma {:induction false} BehaviourInv<T>(states: seq<Hub<T>>, steps: seq<Step<T>>, i: nat)
    requires Behaviour(states, steps) && i < |states|
    ensures Inv(states[i])
  {
    if i > 0 {
      BehaviourInv(states, steps, i - 1);
      NextKeepsInv(states[i - 1], steps[i - 1]);
    }
  }

  /** In every interleaving, for every connection: what serve took followed by what
      is still queued is, in order, what trySend accepted; the queue is bounded; the
      stream starts with the handshake heartbeat and carries a prefix of the accepted
      events in order; and it is in the registry exactly while serve runs. */
  lemma EveryStreamIsInOrder<T>(states: seq<Hub<T>>, steps: seq<Step<T>>, i: nat, c: nat)
    requires Behaviour(states, steps) && i < |states| && c < |states[i].sessions|
    ensures var s := states[i].sessions[c];
      && s.taken + s.queue == s.accepted
      && |s.queue| <= s.cap
      && (s.sent != [] ==> s.sent[0] == Heartbeat)
      && Events(s.sent) <= s.taken <= s.accepted && |s.taken| <= |Events(s.sent)| + 1
      && (s.phase == Streaming ==> Events(s.sent) == s.taken)
      && (c in states[i].live <==> s.phase != Opening && s.phase != Closed)
  {
    BehaviourInv(states, steps, i);
    assert SessionOk(states[i].sessions[c]);
  }

  /** A push still has to serve only connections of its own user, each once. */
  lemma PushStaysWithItsUser<T>(states: seq<Hub<T>>, steps: seq<Step<T>>, i: nat, p: nat)
    requires Behaviour(states, steps) && i < |states| && p < |states[i].pushes|
    ensures var push := states[i].pushes[p];
      && (forall k | 0 <= k < |push.todo| ::
            push.todo[k] < |states[i].sessions| && states[i].sessions[push.todo[k]].user == push.user)
      && (forall k, l | 0 <= k < l < |push.todo| :: push.todo[k] != push.todo[l])
  {
    BehaviourInv(states, steps, i);
    assert PushOk(states[i].sessions, states[i].pushes[p]);
    TodoDistinct(states, steps, i);
  }

  lemma {:induction false} TodoDistinct<T>(states: seq<Hub<T>>, steps: seq<Step<T>>, i: nat)
    requires Behaviour(states, steps) && i < |states|
    ensures forall p, k, l | 0 <= p < |states[i].pushes| && 0 <= k < l < |states[i].pushes[p].todo| ::
      states[i].pushes[p].todo[k] != states[i].pushes[p].todo[l]
  {
    if i > 0 {
      TodoDistinct(states, steps, i - 1);
      assert states[i] == Next(states[i - 1], steps[i - 1]);
    }
  }

  function Delivered<T>(pushes: seq<Push<T>>): nat {
    if pushes == [] then 0 else Delivered(pushes[..|pushes| - 1]) + pushes[|pushes| - 1].delivered
  }

  function Accepted<T>(sessions: seq<Session<T>>): nat {
    if sessions == [] then 0 else Accepted(sessions[..|sessions| - 1]) + |sessions[|sessions| - 1].accepted|
  }

  lemma {:induction false} DeliveredPut<T>(pushes: seq<Push<T>>, p: nat, push: Push<T>)
    requires p < |pushes|
    ensures Delivered(pushes[p := push]) == Delivered(pushes) - pushes[p].delivered + push.delivered
  {
    var n := |pushes| - 1;
    if p < n {
      DeliveredPut(pushes[..n], p, push);
      assert pushes[p := push][..n] == pushes[..n][p := push];
    } else {
      assert pushes[p := push][..n] == pushes[..n];
    }
  }

  lemma {:induction false} AcceptedPut<T>(sessions: seq<Session<T>>, c: nat, s: Session<T>)
    requires c < |sessions|
    ensures Accepted(sessions[c := s]) == Accepted(sessions) - |sessions[c].accepted| + |s.accepted|
  {
    var n := |sessions| - 1;
    if c < n {
      AcceptedPut(sessions[..n], c, s);
      assert sessions[c := s][..n] == sessions[..n][c := s];
    } else {
      assert sessions[c := s][..n] == sessions[..n];
    }
  }

  lemma NextCounts<T>(h: Hub<T>, step: Step<T>)
    requires Enabled(h, step) && Delivered(h.pushes) == Accepted(h.sessions)
    ensures Delivered(Next(h, step).pushes) == Accepted(Next(h, step).sessions)
  {
    var t := Next(h, step);
    match step
    case StartPush(_, _, _) => assert t.pushes[..|h.pushes|] == h.pushes;
    case SendNext(p) =>
      var c := h.pushes[p].todo[0];
      AcceptedPut(h.sessions, c, t.sessions[c]);
      DeliveredPut(h.pushes, p, t.pushes[p]);
    case _ => AcceptedPut(h.sessions, step.c, t.sessions[step.c]);
  }

  lemma {:induction false} NothingAcceptedYet<T>(sessions: seq<Session<T>>)
    requires forall c | 0 <= c < |sessions| :: sessions[c].accepted == []
    ensures Accepted(sessions) == 0
  {
    if sessions != [] { NothingAcceptedYet(sessions[..|sessions| - 1]); }
  }

  /** The counts the pushes report add up to exactly the events that were queued. */
  lemma {:induction false} CountsAreConserved<T>(states: seq<Hub<T>>, steps: seq<Step<T>>, i: nat)
    requires Behaviour(states, steps) && i < |states|
    ensures Delivered(states[i].pushes) == Accepted(states[i].sessions)
  {
    if i == 0 {
      NothingAcceptedYet(states[0].sessions);
    } else {
      CountsAreConserved(states, steps, i - 1);
      NextCounts(states[i - 1], steps[i - 1]);
    }
  }

  // ---- What becomes of one push ----

  /** Step m is push p's attempt on connection c. */
  ghost predicate TriesAt<T>(states: seq<Hub<T>>, steps: seq<Step<T>>, p: nat, c: nat, m: int) {
    && 0 <= m < |steps| <= |states| && steps[m] == SendNext(p) && p < |states[m].pushes|
    && states[m].pushes[p].todo != [] && states[m].pushes[p].todo[0] == c
  }

  /** The attempt queues the event at the end if there is room, and drops it if not. */
  ghost predicate Offered<T>(s: Session<T>, s': Session<T>, ev: T) {
    if |s.queue| < s.cap then s'.queue == s.queue + [ev] && s'.accepted == s.accepted + [ev]
    else s'.queue == s.queue && s'.accepted == s.accepted
  }

  /** The push started by step i is push number |states[i].pushes| of its user and
      event in every later state. */
  lemma {:induction false} PushKept<T>(states: seq<Hub<T>>, steps: seq<Step<T>>, i: nat, j: nat)
    requires Behaviour(states, steps) && i < j <= |steps| && steps[i].StartPush?
    ensures var p := |states[i].pushes|;
      p < |states[j].pushes| && states[j].pushes[p].user == steps[i].user && states[j].pushes[p].ev == steps[i].ev
    decreases j
  {
    assert states[j] == Next(states[j - 1], steps[j - 1]);
    if j > i + 1 { PushKept(states, steps, i, j - 1); }
  }

  /** c is still to be tried, and has not been. */
  ghost predicate StillToDo<T>(states: seq<Hub<T>>, steps: seq<Step<T>>, p: nat, c: nat, i: nat, j: nat)
    requires j < |states| && p < |states[j].pushes|
  {
    c in states[j].pushes[p].todo && forall m | i < m < j :: !TriesAt(states, steps, p, c, m)
  }

  /** c was tried by step m, the only one to try it, and is not to be tried again. */
  ghost predicate TriedOnce<T>(states: seq<Hub<T>>, steps: seq<Step<T>>, p: nat, c: nat, i: nat, j: nat, m: nat)
    requires j < |states| && p < |states[j].pushes|
  {
    && c !in states[j].pushes[p].todo && i < m < j && TriesAt(states, steps, p, c, m)
    && forall m' | i < m' < j && TriesAt(states, steps, p, c, m') :: m' == m
  }

  lemma StartTakesLive<T>(h: Hub<T>, step: Step<T>, c: nat)
    requires Enabled(h, step) && step.StartPush?
    requires c in h.live && c < |h.sessions| && h.sessions[c].user == step.user
    ensures c in Next(h, step).pushes[|h.pushes|].todo
  {}

  /** One more step: push p's list of connections still to try. */
  lemma TodoStep<T>(h: Hub<T>, step: Step<T>, p: nat)
    requires Enabled(h, step) && p < |h.pushes|
    ensures p < |Next(h, step).pushes|
    ensures Next(h, step).pushes[p].todo == if step == SendNext(p) then h.pushes[p].todo[1..] else h.pushes[p].todo
  {}

  lemma HeadLeaves(todo: seq<nat>, c: nat)
    requires todo != [] && forall k, l | 0 <= k < l < |todo| :: todo[k] != todo[l]
    ensures c in todo[1..] <==> c in todo && c != todo[0]
  {
    assert todo == [todo[0]] + todo[1..];
  }

  /** One step keeps the alternative: still to be tried, or tried by one step. */
  lemma OneMoreTry<T>(states: seq<Hub<T>>, steps: seq<Step<T>>, p: nat, c: nat, i: nat, j: nat, m: nat)
    returns (m': nat)
    requires i < j < |steps| && |steps| < |states| && p < |states[j].pushes| && p < |states[j + 1].pushes|
    requires StillToDo(states, steps, p, c, i, j) || TriedOnce(states, steps, p, c, i, j, m)
    requires forall k, l | 0 <= k < l < |states[j].pushes[p].todo| ::
      states[j].pushes[p].todo[k] != states[j].pushes[p].todo[l]
    requires steps[j] == SendNext(p) ==> states[j].pushes[p].todo != []
    requires states[j + 1].pushes[p].todo
      == if steps[j] == SendNext(p) then states[j].pushes[p].todo[1..] else states[j].pushes[p].todo
    ensures StillToDo(states, steps, p, c, i, j + 1) || TriedOnce(states, steps, p, c, i, j + 1, m')
  {
    m' := m;
    if steps[j] == SendNext(p) {
      HeadLeaves(states[j].pushes[p].todo, c);
      if states[j].pushes[p].todo[0] == c {
        m' := j;
        assert TriesAt(states, steps, p, c, j);
      }
    }
  }

  /** A connection that was live for the user when the push started is, at any later
      moment, either still to be tried or has been tried by exactly one step. */
  lemma {:induction false} PushServesEveryone<T>(states: seq<Hub<T>>, steps: seq<Step<T>>, i: nat, j: nat, c: nat)
    returns (m: nat)
    requires Behaviour(states, steps) && i < j <= |steps| && steps[i].StartPush?
    requires c in states[i].live && c < |states[i].sessions| && states[i].sessions[c].user == steps[i].user
    ensures |states[i].pushes| < |states[j].pushes|
    ensures StillToDo(states, steps, |states[i].pushes|, c, i, j)
      || TriedOnce(states, steps, |states[i].pushes|, c, i, j, m)
    decreases j
  {
    m := 0;
    PushKept(states, steps, i, j);
    if j == i + 1 {
      StartTakesLive(states[i], steps[i], c);
    } else {
      m := PushServesEveryone(states, steps, i, j - 1, c);
      TodoStep(states[j - 1], steps[j - 1], |states[i].pushes|);
      TodoDistinct(states, steps, j - 1);
      m := OneMoreTry(states, steps, |states[i].pushes|, c, i, j - 1, m);
    }
  }

  /** What an attempt does: the event is offered to that connection, no other
      connection changes, and the push counts one more exactly if there was room. */
  lemma AttemptOffers<T>(states: seq<Hub<T>>, steps: seq<Step<T>>, i: nat, c: nat, m: nat)
    requires Behaviour(states, steps) && i < m < |steps| && steps[i].StartPush?
    requires TriesAt(states, steps, |states[i].pushes|, c, m)
    ensures var p, h, h' := |states[i].pushes|, states[m], states[m + 1];
      && c < |h.sessions| == |h'.sessions|
      && Offered(h.sessions[c], h'.sessions[c], steps[i].ev)
      && (forall d | 0 <= d < |h.sessions| && d != c :: h'.sessions[d] == h.sessions[d])
      && p < |h'.pushes|
      && h'.pushes[p].delivered
         == h.pushes[p].delivered + if |h.sessions[c].queue| < h.sessions[c].cap then 1 else 0
  {
    PushKept(states, steps, i, m);
    assert states[m + 1] == Next(states[m], steps[m]);
  }

  /** The step is push p's attempt on a connection whose queue is not full. */
  ghost predicate RoomAt<T>(h: Hub<T>, step: Step<T>, p: nat) {
    && step == SendNext(p) && p < |h.pushes| && h.pushes[p].todo != [] && h.pushes[p].todo[0] < |h.sessions|
    && |h.sessions[h.pushes[p].todo[0]].queue| < h.sessions[h.pushes[p].todo[0]].cap
  }

  /** The attempts of push p up to moment j that found room. */
  ghost function FoundRoom<T>(states: seq<Hub<T>>, steps: seq<Step<T>>, p: nat, i: nat, j: nat): nat
    requires j <= |steps| < |states|
    decreases j
  {
    if j <= i then 0
    else
      FoundRoom(states, steps, p, i, j - 1) + if RoomAt(states[j - 1], steps[j - 1], p) then 1 else 0
  }

  lemma DeliveredStep<T>(h: Hub<T>, step: Step<T>, p: nat)
    requires Enabled(h, step) && p < |h.pushes|
    ensures p < |Next(h, step).pushes|
    ensures Next(h, step).pushes[p].delivered == h.pushes[p].delivered + if RoomAt(h, step, p) then 1 else 0
  {}

  /** The count a push reports is the number of its attempts that found room. */
  lemma {:induction false} DeliveredIsFoundRoom<T>(states: seq<Hub<T>>, steps: seq<Step<T>>, i: nat, j: nat)
    requires Behaviour(states, steps) && i < j <= |steps| && steps[i].StartPush?
    ensures |states[i].pushes| < |states[j].pushes|
    ensures states[j].pushes[|states[i].pushes|].delivered
      == FoundRoom(states, steps, |states[i].pushes|, i + 1, j)
    decreases j
  {
    if j == i + 1 {
      assert states[j] == Next(states[i], steps[i]);
    } else {
      DeliveredIsFoundRoom(states, steps, i, j - 1);
      DeliveredStep(states[j - 1], steps[j - 1], |states[i].pushes|);
    }
  }

  // ---- Nothing gets stuck ----

  /** The step a connection's goroutine can take in each phase, whatever the others do. */
  lemma SessionGoesOn<T>(h: Hub<T>, c: nat, ok: bool)
    requires c < |h.sessions|
    ensures match h.sessions[c].phase
      case Opening => Enabled(h, Open(c))
      case Registered => Enabled(h, Greet(c, ok))
      case Streaming =>
        Enabled(h, Tick(c, ok)) && Enabled(h, Done(c)) && (h.sessions[c].queue != [] ==> Enabled(h, Take(c)))
      case Holding(_) => Enabled(h, Emit(c, ok))
      case Closing => Enabled(h, Close(c))
      case Closed => true
  {}

  /** A push that has connections left can try the next one. */
  lemma PushGoesOn<T>(states: seq<Hub<T>>, steps: seq<Step<T>>, i: nat, p: nat)
    requires Behaviour(states, steps) && i < |states| && p < |states[i].pushes| && states[i].pushes[p].todo != []
    ensures Enabled(states[i], SendNext(p))
  {
    BehaviourInv(states, steps, i);
    assert PushOk(states[i].sessions, states[i].pushes[p]);
  }

  // ---- What is sent ----

  /** A stream's record grows only by its own sends that succeed: a heartbeat for the
      handshake and for each tick, the held event for an emit. */
  lemma SentGrowsBy<T>(h: Hub<T>, step: Step<T>, c: nat)
    requires Enabled(h, step) && c < |h.sessions|
    ensures c < |Next(h, step).sessions|
    ensures var s, s' := h.sessions[c], Next(h, step).sessions[c];
      if step == Greet(c, true) || step == Tick(c, true) then s'.sent == s.sent + [Heartbeat]
      else if step == Emit(c, true) then s.phase.Holding? && s'.sent == s.sent + [Event(s.phase.e)]
      else s'.sent == s.sent
  {}

  /** A send on the stream that fails. */
  predicate FailedSend<T>(step: Step<T>, c: nat) {
    (step.Greet? || step.Tick? || step.Emit?) && step.c == c && !step.ok
  }

  /** After a failed send serve only returns: nothing more is sent on the stream. */
  lemma {:induction false} FailedSendIsLast<T>(states: seq<Hub<T>>, steps: seq<Step<T>>, i: nat, j: nat, c: nat)
    requires Behaviour(states, steps) && i < j <= |steps| && FailedSend(steps[i], c) && c < |states[i].sessions|
    ensures c < |states[j].sessions| && states[j].sessions[c].sent == states[i].sessions[c].sent
    ensures states[j].sessions[c].phase == Closing || states[j].sessions[c].phase == Closed
    decreases j
  {
    if j == i + 1 {
      assert states[j] == Next(states[i], steps[i]);
    } else {
      FailedSendIsLast(states, steps, i, j - 1, c);
      ReturningStays(states[j - 1], steps[j - 1], c);
    }
  }

  lemma ReturningStays<T>(h: Hub<T>, step: Step<T>, c: nat)
    requires Enabled(h, step) && c < |h.sessions| && (h.sessions[c].phase == Closing || h.sessions[c].phase == Closed)
    ensures c < |Next(h, step).sessions|
    ensures var s, s' := h.sessions[c], Next(h, step).sessions[c];
      s'.sent == s.sent && (s'.phase == Closing || s'.phase == Closed)
  {}
}
