/** realtime/registry.go: user id -> live connections, kept as slices over backing
    arrays that Register appends to and Unregister swap-removes from in place, and
    the bounded, non-blocking queue of each connection. */
module Registry {
  import opened Domain
  import opened Order

  const DEFAULT_EVENT_BUFFER := 64

  class Conn<T> {
    const id: Str
    const user: Str
    const cap: nat
    var queue: seq<T>

    constructor (id: Str, user: Str, buffer: int)
      ensures this.id == id && this.user == user && queue == []
      ensures cap == if buffer <= 0 then 64 else buffer
    {
      this.id := id;
      this.user := user;
      cap := if buffer <= 0 then DEFAULT_EVENT_BUFFER else buffer;
      queue := [];
    }
  }

  /** A Go slice: the first len elements of a backing array. */
  datatype Slice<T> = Slice(arr: array<Conn?<T>>, len: nat)

  /** What the slices hold. */
  type Table<T> = map<Str, seq<Conn?<T>>>

  /** Connections sit under their own user, no user has an empty slice, and no
      connection id occurs twice. */
  ghost predicate TableOk<T>(m: Table<T>) {
    && (forall u | u in m :: m[u] != [])
    && (forall u, i | u in m && 0 <= i < |m[u]| :: m[u][i] != null && m[u][i].user == u)
    && (forall u, i, v, j | u in m && 0 <= i < |m[u]| && v in m && 0 <= j < |m[v]|
          && m[u][i].id == m[v][j].id :: u == v && i == j)
  }

  ghost predicate At<T>(m: Table<T>, u: Str, i: int, c: Conn<T>) {
    u in m && 0 <= i < |m[u]| && m[u][i] == c
  }

  /** The connection is registered. */
  ghost predicate Has<T>(m: Table<T>, c: Conn<T>) {
    exists u, i :: At(m, u, i, c)
  }

  ghost predicate HasId<T>(m: Table<T>, id: Str) {
    exists u, i :: HoldsId(m, u, i, id)
  }

  /** Slot i of user u holds the connection with that id. */
  ghost predicate HoldsId<T>(m: Table<T>, u: Str, i: int, id: Str) {
    u in m && 0 <= i < |m[u]| && m[u][i] != null && m[u][i].id == id
  }

  function Append<T>(m: Table<T>, c: Conn<T>): Table<T> {
    m[c.user := (if c.user in m then m[c.user] else []) + [c]]
  }

  function SwapRemove<A>(s: seq<A>, i: nat): seq<A>
    requires i < |s|
  {
    s[i := s[|s| - 1]][..|s| - 1]
  }

  function RemoveAt<T>(m: Table<T>, u: Str, i: nat): Table<T>
    requires u in m && i < |m[u]|
  {
    if |m[u]| == 1 then m - {u} else m[u := SwapRemove(m[u], i)]
  }

  /** Registering adds exactly the connection, and keeps the table well formed
      exactly when the connection's id is new. */
  lemma AppendAdds<T>(m: Table<T>, c: Conn<T>, d: Conn<T>)
    requires TableOk(m)
    ensures TableOk(Append(m, c)) <==> !HasId(m, c.id)
    ensures Has(Append(m, c), d) <==> Has(m, d) || d == c
  {
    AppendOkIff(m, c);
    var t := Append(m, c);
    if Has(m, d) {
      var u, i :| At(m, u, i, d);
      assert At(t, u, i, d);
    }
    if d == c { assert At(t, c.user, |t[c.user]| - 1, c); }
    if Has(t, d) && d != c {
      var u, i :| At(t, u, i, d);
      assert At(m, u, i, d);
    }
  }

  lemma AppendOkIff<T>(m: Table<T>, c: Conn<T>)
    requires TableOk(m)
    ensures TableOk(Append(m, c)) <==> !HasId(m, c.id)
  {
    var t := Append(m, c);
    var last := |t[c.user]| - 1;
    assert t[c.user][last] == c;
    if HasId(m, c.id) {
      var u, i :| HoldsId(m, u, i, c.id);
      assert t[u][i].id == t[c.user][last].id && (u != c.user || i != last);
    } else {
      forall u, i | u in m && 0 <= i < |m[u]| ensures m[u][i].id != c.id && At(t, u, i, m[u][i]) {
        assert HoldsId(m, u, i, m[u][i].id);
      }
    }
  }

  /** Swap-remove at the connection's position removes exactly that connection. */
  lemma RemoveAtRemoves<T>(m: Table<T>, u: Str, i: nat, d: Conn<T>)
    requires TableOk(m) && u in m && i < |m[u]|
    ensures TableOk(RemoveAt(m, u, i))
    ensures Has(RemoveAt(m, u, i), d) <==> Has(m, d) && d != m[u][i]
  {
    var t := RemoveAt(m, u, i);
    var last := |m[u]| - 1;
    RemoveAtOk(m, u, i);
    if Has(t, d) {
      var v, j :| At(t, v, j, d);
      var k := if v == u && j == i then last else j;
      assert At(m, v, k, d);
      assert m[v][k].id == m[u][i].id ==> v == u && k == i;
    }
    if Has(m, d) && d != m[u][i] {
      var v, j :| At(m, v, j, d);
      assert At(t, v, if v == u && j == last then i else j, d);
    }
  }

  /** The table after the two steps of a removal. */
  lemma ShrinkRemoves<T>(m: Table<T>, u: Str, i: nat, list: seq<Conn?<T>>)
    requires u in m && i < |m[u]| == |list| && list[..|list| - 1] == SwapRemove(m[u], i)
    ensures RemoveAt(m, u, i)
      == if |list| == 1 then m[u := list] - {u} else m[u := list][u := list[..|list| - 1]]
  {}

  lemma RemoveAtOk<T>(m: Table<T>, u: Str, i: nat)
    requires TableOk(m) && u in m && i < |m[u]|
    ensures TableOk(RemoveAt(m, u, i))
  {
    var t := RemoveAt(m, u, i);
    var last := |m[u]| - 1;
    forall v, j | v in t && 0 <= j < |t[v]| ensures v in m && t[v][j] == m[v][if v == u && j == i then last else j] {}
    forall v, j, w, k | v in t && 0 <= j < |t[v]| && w in t && 0 <= k < |t[w]| && t[v][j].id == t[w][k].id
      ensures v == w && j == k
    {
      var j', k' := if v == u && j == i then last else j, if w == u && k == i then last else k;
      assert m[v][j'].id == m[w][k'].id;
    }
  }

  /** The table without the connection that has the id, if there is one. */
  ghost function RemoveId<T>(m: Table<T>, id: Str): Table<T> {
    if HasId(m, id) then
      var u, i :| HoldsId(m, u, i, id);
      RemoveAt(m, u, i)
    else m
  }

  /** Unregistering an id removes exactly the connection that has it. */
  lemma RemoveIdRemoves<T>(m: Table<T>, id: Str, d: Conn<T>)
    requires TableOk(m)
    ensures TableOk(RemoveId(m, id))
    ensures Has(RemoveId(m, id), d) <==> Has(m, d) && d.id != id
  {
    if HasId(m, id) {
      var u, i :| HoldsId(m, u, i, id);
      RemoveAtRemoves(m, u, i, d);
      if Has(m, d) {
        var v, j :| At(m, v, j, d);
        assert m[v][j].id == m[u][i].id ==> v == u && j == i;
      }
    } else if Has(m, d) {
      var v, j :| At(m, v, j, d);
      assert HoldsId(m, v, j, d.id);
    }
  }

  // ---- Runs of registrations ----

  datatype Change<T> = Registers(c: Conn<T>) | Unregisters(id: Str)

  ghost function Changed<T>(m: Table<T>, op: Change<T>): Table<T> {
    match op
    case Registers(c) => Append(m, c)
    case Unregisters(id) => RemoveId(m, id)
  }

  /** The table after the changes. */
  ghost function After<T>(m: Table<T>, ops: seq<Change<T>>): Table<T>
    decreases |ops|
  {
    if ops == [] then m
    else
      Changed(After(m, ops[..|ops| - 1]), ops[|ops| - 1])
  }

  /** No change registers an id that is registered at that moment. */
  ghost predicate Clean<T>(m: Table<T>, ops: seq<Change<T>>)
    decreases |ops|
  {
    ops == [] ||
      var n := |ops| - 1;
      Clean(m, ops[..n]) && (ops[n].Registers? ==> !HasId(After(m, ops[..n]), ops[n].c.id))
  }

  lemma {:induction false} CleanPrefix<T>(m: Table<T>, ops: seq<Change<T>>, n: nat)
    requires Clean(m, ops) && n <= |ops|
    ensures Clean(m, ops[..n])
    decreases |ops|
  {
    if n < |ops| {
      CleanPrefix(m, ops[..|ops| - 1], n);
      assert ops[..|ops| - 1][..n] == ops[..n];
    } else {
      assert ops[..n] == ops;
    }
  }

  lemma AfterStep<T>(m: Table<T>, ops: seq<Change<T>>, i: nat)
    requires Clean(m, ops) && i < |ops|
    ensures After(m, ops[..i + 1]) == Changed(After(m, ops[..i]), ops[i])
    ensures ops[i].Registers? ==> !HasId(After(m, ops[..i]), ops[i].c.id)
  {
    CleanPrefix(m, ops, i + 1);
    assert ops[..i + 1][..i] == ops[..i];
  }

  /** No two registrations carry the same connection id. */
  ghost predicate UniqueIds<T>(ops: seq<Change<T>>) {
    forall i, j | 0 <= i < j < |ops| && ops[i].Registers? && ops[j].Registers? :: ops[i].c.id != ops[j].c.id
  }

  /** Change i registered the connection and no later one unregistered it. */
  predicate StillIn<T>(ops: seq<Change<T>>, i: nat, c: Conn<T>) {
    i < |ops| && ops[i] == Registers(c) && forall j | i < j < |ops| :: ops[j] != Unregisters(c.id)
  }

  ghost predicate Current<T>(ops: seq<Change<T>>, c: Conn<T>) {
    exists i :: StillIn(ops, i, c)
  }

  lemma CurrentSnoc<T>(ops: seq<Change<T>>, c: Conn<T>)
    requires ops != []
    ensures var n := |ops| - 1;
      Current(ops, c) <==> ops[n] == Registers(c) || (Current(ops[..n], c) && ops[n] != Unregisters(c.id))
  {
    var n := |ops| - 1;
    if ops[n] == Registers(c) { assert StillIn(ops, n, c); }
    if Current(ops[..n], c) && ops[n] != Unregisters(c.id) {
      var i :| StillIn(ops[..n], i, c);
      assert StillIn(ops, i, c);
    }
    if Current(ops, c) && ops[n] != Registers(c) {
      var i :| StillIn(ops, i, c);
      assert StillIn(ops[..n], i, c);
    }
  }

  /** From an empty registry, after any sequence of registrations with unique ids and
      of removals: the table is well formed and holds exactly the connections that
      were registered and not unregistered since. */
  lemma {:induction false} HoldsExactlyCurrent<T>(ops: seq<Change<T>>, c: Conn<T>)
    requires UniqueIds(ops)
    ensures Clean(map[], ops) && TableOk(After(map[], ops))
    ensures Has(After(map[], ops), c) <==> Current(ops, c)
    decreases |ops|
  {
    if ops != [] {
      var n := |ops| - 1;
      var m: Table<T> := After(map[], ops[..n]);
      HoldsExactlyCurrent(ops[..n], c);
      CurrentSnoc(ops, c);
      match ops[n]
      case Registers(d) =>
        NewIdIsNew(ops, m);
        AppendAdds(m, d, c);
      case Unregisters(id) => RemoveIdRemoves(m, id, c);
    }
  }

  lemma {:induction false} NewIdIsNew<T>(ops: seq<Change<T>>, m: Table<T>)
    requires ops != [] && UniqueIds(ops) && ops[|ops| - 1].Registers? && m == After(map[], ops[..|ops| - 1])
    ensures !HasId(m, ops[|ops| - 1].c.id)
    decreases |ops|, 0
  {
    var n := |ops| - 1;
    if HasId(m, ops[n].c.id) {
      var u, i :| HoldsId(m, u, i, ops[n].c.id);
      assert At(m, u, i, m[u][i]);
      HoldsExactlyCurrent(ops[..n], m[u][i]);
    }
  }

  /** No null and no connection twice. */
  ghost predicate Distinct<T>(xs: seq<Conn?<T>>) {
    (forall i | 0 <= i < |xs| :: xs[i] != null) && (forall i, j | 0 <= i < j < |xs| :: xs[i] != xs[j])
  }

  ghost function Among<T>(room: set<Conn<T>>, xs: seq<Conn?<T>>): set<Conn<T>> {
    set c | c in room && c in xs
  }

  lemma AmongGrows<T>(room: set<Conn<T>>, xs: seq<Conn?<T>>, i: nat)
    requires i < |xs| && Distinct(xs)
    ensures |Among(room, xs[..i + 1])| == |Among(room, xs[..i])| + if xs[i] in room then 1 else 0
  {
    assert xs[..i + 1] == xs[..i] + [xs[i]];
    assert xs[i] !in xs[..i];
    if xs[i] in room {
      assert Among(room, xs[..i + 1]) == Among(room, xs[..i]) + {xs[i]};
    } else {
      assert Among(room, xs[..i + 1]) == Among(room, xs[..i]);
    }
  }

  class Registry<T> {
    var byUser: map<Str, Slice<T>>

    ghost function Arrays(): set<array<Conn?<T>>>
      reads this
    {
      set u | u in byUser :: byUser[u].arr
    }

    /** Slices lie within their arrays and no two users share one. */
    ghost predicate Shaped()
      reads this
    {
      && (forall u | u in byUser :: byUser[u].len <= byUser[u].arr.Length)
      && (forall u, v | u in byUser && v in byUser && byUser[u].arr == byUser[v].arr :: u == v)
    }

    ghost function Contents(): Table<T>
      requires Shaped()
      reads this, Arrays()
    {
      map u | u in byUser :: byUser[u].arr[..byUser[u].len]
    }

    ghost predicate Valid()
      reads this, Arrays()
    {
      Shaped() && TableOk(Contents())
    }

    constructor ()
      ensures Valid() && Contents() == map[] && Arrays() == {}
    {
      byUser := map[];
    }

    /** byUser[user] = s, over an array no other user's slice uses. */
    method SetSlice(user: Str, s: Slice<T>)
      requires Shaped() && s.len <= s.arr.Length
      requires forall v | v in byUser && v != user :: byUser[v].arr != s.arr
      modifies this
      ensures Shaped() && Contents() == old(Contents())[user := s.arr[..s.len]]
      ensures byUser == old(byUser)[user := s]
      ensures Arrays() <= old(Arrays()) + {s.arr}
    {
      byUser := byUser[user := s];
    }

    /** The larger array an append moves to when the slice is full. */
    static method Grow(s: Slice<T>) returns (arr: array<Conn?<T>>)
      requires s.len <= s.arr.Length
      ensures fresh(arr) && s.len < arr.Length && arr[..s.len] == s.arr[..s.len]
    {
      arr := new Conn?<T>[2 * s.len + 1](i requires 0 <= i reads s.arr => if i < s.arr.Length then s.arr[i] else null);
    }

    /** The user's slice with room for one more: in spare capacity if there is
        some, else in a larger array. */
    method SliceWithRoom(user: Str) returns (s: Slice<T>)
      requires Shaped()
      ensures Shaped() && s.len < s.arr.Length && s.arr[..s.len] == (if user in byUser then Contents()[user] else [])
      ensures if user in byUser && s.arr == byUser[user].arr then s == byUser[user] else fresh(s.arr)
    {
      if user in byUser {
        s := byUser[user];
      } else {
        var none := new Conn?<T>[0];
        s := Slice(none, 0);
      }
      if s.len == s.arr.Length {
        var arr := Grow(s);
        s := Slice(arr, s.len);
      }
    }

    /** Writing past a slice's end changes no slice's contents. */
    method WritePast(s: Slice<T>, c: Conn<T>)
      requires Shaped() && s.len < s.arr.Length
      requires forall u | u in byUser && byUser[u].arr == s.arr :: byUser[u].len <= s.len
      modifies s.arr
      ensures Shaped() && Contents() == old(Contents())
      ensures s.arr[..s.len + 1] == old(s.arr[..s.len]) + [c]
    {
      s.arr[s.len] := c;
      assert forall u | u in byUser :: byUser[u].arr[..byUser[u].len] == old(byUser[u].arr[..byUser[u].len]);
    }

    /** append. */
    method AppendConn(c: Conn<T>)
      requires Shaped()
      modifies this, Arrays()
      ensures Shaped() && Contents() == Append(old(Contents()), c)
      ensures fresh(Arrays() - old(Arrays()))
    {
      var s := SliceWithRoom(c.user);
      WritePast(s, c);
      SetSlice(c.user, Slice(s.arr, s.len + 1));
    }

    /** Appends unconditionally; ids are generated, hence new to the registry. */
    method Register(c: Conn<T>)
      requires Shaped()
      modifies this, Arrays()
      ensures Shaped() && Contents() == Append(old(Contents()), c)
      ensures old(Valid()) ==> (Valid() <==> !HasId(old(Contents()), c.id))
      ensures fresh(Arrays() - old(Arrays()))
    {
      if Valid() { AppendOkIff(Contents(), c); }
      AppendConn(c);
    }

    /** Finds the slot of an id, ranging over the users in an arbitrary order. */
    method Locate(connId: Str) returns (found: bool, user: Str, i: nat)
      requires Valid()
      ensures found ==> user in byUser && i < byUser[user].len && HoldsId(Contents(), user, i, connId)
      ensures !found ==> !HasId(Contents(), connId)
    {
      ghost var m: Table<T> := Contents();
      var users := byUser.Keys;
      while users != {}
        invariant users <= byUser.Keys
        invariant forall u, j | u in m && u !in users && 0 <= j < |m[u]| :: m[u][j].id != connId
        decreases |users|
      {
        var u :| u in users;
        var s := byUser[u];
        for j := 0 to s.len
          invariant forall k | 0 <= k < j :: m[u][k].id != connId
        {
          assert m[u][j] == s.arr[j];
          if s.arr[j].id == connId {
            return true, u, j;
          }
        }
        users := users - {u};
      }
      found, user, i := false, [], 0;
    }

    method DropUser(user: Str)
      requires Shaped()
      modifies this
      ensures Shaped() && Contents() == old(Contents()) - {user}
      ensures Arrays() <= old(Arrays())
    {
      byUser := byUser - {user};
    }

    /** Reslices a user's slice to n, or drops the user when nothing is left. */
    method Shrink(user: Str, n: nat)
      requires Shaped() && user in byUser && n <= byUser[user].len
      modifies this
      ensures Shaped() && Arrays() <= old(Arrays())
      ensures Contents() == if n == 0 then old(Contents()) - {user}
                            else old(Contents())[user := old(Contents())[user][..n]]
    {
      if n == 0 {
        DropUser(user);
      } else {
        var s := byUser[user];
        assert s.arr[..n] == s.arr[..s.len][..n];
        SetSlice(user, Slice(s.arr, n));
      }
    }

    /** conns[i] = conns[last]; conns[last] = nil. */
    static method SwapOut(arr: array<Conn?<T>>, len: nat, i: nat)
      requires i < len <= arr.Length
      modifies arr
      ensures arr[..len - 1] == SwapRemove(old(arr[..len]), i)
    {
      arr[i] := arr[len - 1];
      arr[len - 1] := null;
    }

    /** .. on a user's slice: other users' slices are other arrays. */
    method SwapOutSlot(user: Str, i: nat)
      requires Shaped() && user in byUser && i < byUser[user].len
      modifies byUser[user].arr
      ensures Shaped() && user in byUser
      ensures byUser[user].arr[..byUser[user].len - 1] == SwapRemove(old(Contents())[user], i)
      ensures Contents() == old(Contents())[user := byUser[user].arr[..byUser[user].len]]
    {
      SwapOut(byUser[user].arr, byUser[user].len, i);
    }

    /** The in-place swap-remove of slot i, dropping the user with its last slot. */
    method RemoveSlot(user: Str, i: nat)
      requires Shaped() && user in byUser && i < byUser[user].len
      modifies this, Arrays()
      ensures Shaped() && Contents() == RemoveAt(old(Contents()), user, i)
      ensures Arrays() <= old(Arrays())
    {
      ghost var m: Table<T> := Contents();
      SwapOutSlot(user, i);
      ghost var list := Contents()[user];
      assert list[..|list| - 1] == SwapRemove(m[user], i);
      ShrinkRemoves(m, user, i, list);
      Shrink(user, byUser[user].len - 1);
    }

    /** Unknown ids change nothing; a known one loses exactly its own slot. */
    method Unregister(connId: Str)
      requires Valid()
      modifies this, Arrays()
      ensures Valid() && Arrays() <= old(Arrays())
      ensures Contents() == RemoveId(old(Contents()), connId)
    {
      var found, user, i := Locate(connId);
      if found {
        RemoveAtOk(Contents(), user, i);
        RemoveSlot(user, i);
      }
    }

    /** One registration or removal. */
    method Perform(op: Change<T>)
      requires Valid() && (op.Registers? ==> !HasId(Contents(), op.c.id))
      modifies this, Arrays()
      ensures Valid() && fresh(Arrays() - old(Arrays()))
      ensures Contents() == Changed(old(Contents()), op)
    {
      match op {
        case Registers(c) => Register(c);
        case Unregisters(id) => Unregister(id);
      }
    }

    /** A copy in an array of its own: no later call of the registry writes to it. */
    method Connections(userId: Str) returns (snapshot: array<Conn?<T>>)
      requires Shaped()
      ensures fresh(snapshot)
      ensures snapshot[..] == UserConns(userId)
    {
      if userId !in byUser {
        snapshot := new Conn?<T>[0];
        return;
      }
      var s := byUser[userId];
      snapshot := new Conn?<T>[s.len](i requires 0 <= i reads s.arr => if i < s.arr.Length then s.arr[i] else null);
      assert snapshot[..] == s.arr[..s.len];
    }

    method Get(connId: Str) returns (c: Conn?<T>)
      requires Valid()
      ensures c == null <==> !HasId(Contents(), connId)
      ensures c != null ==> c.id == connId && Has(Contents(), c)
    {
      var found, user, i := Locate(connId);
      if found {
        c := byUser[user].arr[i];
        assert At(Contents(), user, i, c);
        assert HoldsId(Contents(), user, i, connId);
      } else {
        c := null;
      }
    }

    method Count(userId: Str) returns (n: nat)
      requires Valid()
      ensures n == if userId in Contents() then |Contents()[userId]| else 0
    {
      n := if userId in byUser then byUser[userId].len else 0;
    }

    /** A user's registered connections. */
    ghost function UserConns(userId: Str): seq<Conn?<T>>
      requires Shaped()
      reads this, Arrays()
    {
      if userId in Contents() then Contents()[userId] else []
    }

    /** The connections with room for one more event. */
    static ghost function Room(xs: seq<Conn?<T>>): set<Conn<T>>
      reads set c | c in xs
    {
      set c: Conn<T> | c in xs && |c.queue| < c.cap
    }

    method Push(userId: Str, ev: T) returns (pushed: nat)
      requires Valid()
      modifies UserConns(userId)
      ensures pushed == old(|Room(UserConns(userId))|)
      ensures forall c: Conn<T> | c in UserConns(userId) ::
        c.queue == if c in old(Room(UserConns(userId))) then old(c.queue) + [ev] else old(c.queue)
    {
      pushed := PushSnapshot(userId, ev);
    }

    method PushSnapshot(userId: Str, ev: T) returns (pushed: nat)
      requires Shaped() && Distinct(UserConns(userId))
      modifies UserConns(userId)
      ensures Shaped()
      ensures pushed == old(|Room(UserConns(userId))|)
      ensures forall c: Conn<T> | c in old(UserConns(userId)) ::
        c.queue == if c in old(Room(UserConns(userId))) then old(c.queue) + [ev] else old(c.queue)
    {
      ghost var xs := UserConns(userId);
      var snapshot := Connections(userId);
      assert snapshot[..] == xs;
      pushed := PushEach(snapshot, ev, xs);
    }

    /** The loop of Push over its snapshot. */
    static method PushEach(snapshot: array<Conn?<T>>, ev: T, ghost xs: seq<Conn?<T>>) returns (pushed: nat)
      requires xs == snapshot[..] && Distinct(xs)
      modifies xs
      ensures pushed == old(|Room(xs)|)
      ensures forall c: Conn<T> | c in xs ::
        c.queue == if c in old(Room(xs)) then old(c.queue) + [ev] else old(c.queue)
    {
      ghost var room := Room(xs);
      pushed := 0;
      for i := 0 to snapshot.Length
        invariant xs == snapshot[..]
        invariant pushed == |Among(room, xs[..i])|
        invariant forall j | 0 <= j < |xs| ::
          xs[j].queue == if j < i && xs[j] in room then old(xs[j].queue) + [ev] else old(xs[j].queue)
      {
        var c: Conn<T> := snapshot[i];
        AmongGrows(room, xs, i);
        var ok := TrySend(c, ev);
        if ok {
          pushed := pushed + 1;
        }
      }
      assert xs[..|xs|] == xs;
      assert Among(room, xs) == room;
    }

    ghost function AllConns(): set<Conn?<T>>
      requires Shaped()
      reads this, Arrays()
    {
      set u, i | u in Contents() && 0 <= i < |Contents()[u]| :: Contents()[u][i]
    }

    /** One connection by id: false if it is unknown or full. */
    method PushTo(connId: Str, ev: T) returns (ok: bool)
      requires Valid()
      modifies AllConns()
      ensures !HasId(old(Contents()), connId) ==> !ok
      ensures forall c: Conn<T> | c in old(AllConns()) ::
        if c.id == connId
        then ok == (old(|c.queue|) < c.cap) && c.queue == if ok then old(c.queue) + [ev] else old(c.queue)
        else c.queue == old(c.queue)
    {
      ghost var m: Table<T> := Contents();
      var c := Get(connId);
      assert Contents() == m;
      if c == null {
        assert forall u, i | u in m && 0 <= i < |m[u]| :: HoldsId(m, u, i, m[u][i].id);
        return false;
      }
      ok := TrySend(c, ev);
    }

    /** A send that never blocks: a full queue drops the event. */
    static method TrySend(c: Conn<T>, ev: T) returns (ok: bool)
      modifies c
      ensures ok <==> old(|c.queue|) < c.cap
      ensures c.queue == if ok then old(c.queue) + [ev] else old(c.queue)
    {
      if |c.queue| < c.cap {
        c.queue := c.queue + [ev];
        ok := true;
      } else {
        ok := false;
      }
    }
  }

  /** Any clean sequence of registrations and removals. */
  method PerformAll<T>(r: Registry<T>, ops: seq<Change<T>>)
    requires r.Valid() && Clean(r.Contents(), ops)
    modifies r, r.Arrays()
    ensures r.Valid() && r.Contents() == After(old(r.Contents()), ops)
    ensures fresh(r.Arrays() - old(r.Arrays()))
    decreases |ops|
  {
    if ops != [] {
      var n := |ops| - 1;
      AfterStep(r.Contents(), ops, n);
      CleanPrefix(r.Contents(), ops, n);
      assert ops[..n + 1] == ops;
      PerformAll(r, ops[..n]);
      r.Perform(ops[n]);
    }
  }

  /** A snapshot, then any clean sequence of registrations and removals: the slices
      hold what After says, and the snapshot still holds what it held. */
  method SnapshotStays<T>(r: Registry<T>, userId: Str, ops: seq<Change<T>>) returns (snapshot: array<Conn?<T>>)
    requires r.Valid() && Clean(r.Contents(), ops)
    modifies r, r.Arrays()
    ensures r.Valid() && r.Contents() == After(old(r.Contents()), ops)
    ensures snapshot[..] == old(r.UserConns(userId))
  {
    snapshot := r.Connections(userId);
    PerformAll(r, ops);
  }

  /** A user's slice holds exactly the user's registered connections, each once, so
      its length is how many there are. */
  lemma CountIsConnections<T>(m: Table<T>, u: Str, conns: seq<Conn?<T>>)
    requires TableOk(m) && conns == if u in m then m[u] else []
    ensures forall c: Conn<T> :: c in conns <==> Has(m, c) && c.user == u
    ensures |Elements(conns)| == |conns|
  {
    forall c: Conn<T> ensures c in conns <==> Has(m, c) && c.user == u {
      if Has(m, c) && c.user == u {
        var v, i :| At(m, v, i, c);
      }
      if c in conns {
        var i :| 0 <= i < |conns| && conns[i] == c;
        assert At(m, u, i, c);
      }
    }
    DistinctElements(conns);
  }

  lemma {:induction false} DistinctElements<A>(s: seq<A>)
    requires forall i, j | 0 <= i < j < |s| :: s[i] != s[j]
    ensures |Elements(s)| == |s|
  {
    if s != [] {
      var n := |s| - 1;
      DistinctElements(s[..n]);
      ElementsSnoc(s[..n], s[n]);
      assert s == s[..n] + [s[n]];
    }
  }

  datatype Receipt = Accepted(status: Status) | Rejected

  /** The in-app provider (internal/server/inapp.go): delivered exactly when some
      live connection of the user had room. */
  method Send<T>(registry: Registry?<T>, hasRow: bool, to: Str, ev: T) returns (r: Receipt)
    requires registry != null ==> registry.Valid()
    modifies if registry == null then [] else registry.UserConns(to)
    ensures r == Rejected <==> registry == null || !hasRow
    ensures registry != null && hasRow ==>
      r == Accepted(if exists c :: c in old(registry.Room(registry.UserConns(to))) then Delivered else Pending)
    ensures registry != null ==> forall c: Conn<T> | c in old(registry.UserConns(to)) ::
      c.queue == if hasRow && c in old(registry.Room(registry.UserConns(to))) then old(c.queue) + [ev] else old(c.queue)
  {
    if registry == null {
      return Rejected;
    }
    if !hasRow {
      return Rejected;
    }
    ghost var room := registry.Room(registry.UserConns(to));
    var delivered := registry.Push(to, ev);
    assert delivered == 0 <==> room == {};
    if delivered == 0 {
      return Accepted(Pending);
    }
    r := Accepted(Delivered);
  }
}
