/** Queries that race with writes. Postgres answers a query with two statements, the
    page and then the unread count; EntDB lists the user's nodes and then reads each
    one again. Other calls run in between, so the parts of one answer may come from
    different moments. */
module ReadRace {
  import opened Domain
  import opened Order
  import opened StoreApi
  import opened Memory
  import opened Postgres
  import opened Effects

  // ---- How calls move the unread count ----

  function One(b: bool): int {
    if b then 1 else 0
  }

  predicate UnreadAt(s: MemState, id: Str, tenant: Str, user: Str) {
    id in s.notifs && Unread(s.notifs[id], tenant, user)
  }

  ghost function UnreadOf(s: MemState, tenant: Str, user: Str): nat {
    |UnreadAmong(s, tenant, user, s.notifs.Keys)|
  }

  /** What one call adds to the user's unread count. */
  function Change(s: MemState, op: StoreOp, tenant: Str, user: Str): int {
    match op
    case Create(n, minted) =>
      if NotifKey(n) in s.notifByKey then 0
      else One(Unread(n, tenant, user)) - One(UnreadAt(s, NewId(n.id, minted), tenant, user))
    case Update(t, id, status, _) =>
      if id in s.notifs && s.notifs[id].tenant == t && Owned(s.notifs[id], tenant, user)
      then One(status != Read) - One(s.notifs[id].status != Read)
      else 0
    case _ => 0
  }

  lemma PutCounts(s: MemState, id: Str, row: Notification, tenant: Str, user: Str)
    ensures UnreadOf(s.(notifs := s.notifs[id := row]), tenant, user)
      == UnreadOf(s, tenant, user) - One(UnreadAt(s, id, tenant, user)) + One(Unread(row, tenant, user))
  {
    var before := UnreadAmong(s, tenant, user, s.notifs.Keys);
    var t := s.(notifs := s.notifs[id := row]);
    var after := UnreadAmong(t, tenant, user, t.notifs.Keys);
    assert after == if Unread(row, tenant, user) then before + {id} else before - {id};
  }

  lemma ChangeCounts(s: MemState, op: StoreOp, tenant: Str, user: Str)
    requires Filed(s)
    ensures UnreadOf(MemStep(s, op).0, tenant, user) == UnreadOf(s, tenant, user) + Change(s, op, tenant, user)
  {
    match op
    case Create(n, minted) =>
      var id := NewId(n.id, minted);
      PutCounts(s, id, n.(id := id), tenant, user);
    case Update(t, id, status, at) =>
      if id in s.notifs { PutCounts(s, id, Stamp(s.notifs[id], status, at), tenant, user); }
    case _ =>
  }

  ghost function NetChange(s: MemState, ops: seq<StoreOp>, tenant: Str, user: Str): int
    requires Filed(s)
    decreases |ops|
  {
    if ops == [] then 0
    else
      StepKeepsFiled(s, ops[0]);
      Change(s, ops[0], tenant, user) + NetChange(MemStep(s, ops[0]).0, ops[1..], tenant, user)
  }

  /** Conservation of the unread count over every run. */
  lemma {:induction false} NetCounts(s: MemState, ops: seq<StoreOp>, tenant: Str, user: Str)
    requires Filed(s)
    ensures UnreadOf(MemRun(s, ops).0, tenant, user) == UnreadOf(s, tenant, user) + NetChange(s, ops, tenant, user)
    decreases |ops|
  {
    if ops != [] {
      StepKeepsFiled(s, ops[0]);
      ChangeCounts(s, ops[0], tenant, user);
      NetCounts(MemStep(s, ops[0]).0, ops[1..], tenant, user);
    }
  }

  // ---- Which states show a given page ----

  predicate Below(items: seq<Notification>, n: Notification) {
    items != [] && Newer(items[|items| - 1], n)
  }

  /** A page as a query cuts it: newest first, at most l rows, and a cursor only on a
      full page, printed from its last row. */
  ghost predicate WellCut(items: seq<Notification>, next: Str, l: nat) {
    && l >= 1 && |items| <= l && Ascending(Newer, items)
    && (next != [] ==> |items| == l && next == Decimal.FormatInt(items[l - 1].createdAt))
  }

  /** The rows in b begin with items, and go on exactly when `more` says so. */
  ghost predicate ShownFrom(b: set<Notification>, items: seq<Notification>, more: bool) {
    && (forall n | n in items :: n in b)
    && (forall n | n in b && n !in items :: more && Below(items, n))
    && (more ==> exists n :: n in b && n !in items)
  }

  lemma CutIsWell(b: set<Notification>, l: nat)
    requires StrictOrderOn(Newer, b) && l >= 1
    ensures var sorted := Listing(Newer, b); WellCut(PageItems(sorted, l), PageCursor(sorted, l), l)
  {}

  /** A cut page is shown by its own rows. */
  lemma CutShows(sorted: seq<Notification>, b: set<Notification>, l: nat)
    requires StrictOrderOn(Newer, b) && Lists(Newer, sorted, b) && l >= 1
    ensures ShownFrom(b, PageItems(sorted, l), |sorted| > l)
  {
    var items := PageItems(sorted, l);
    forall n | n in items ensures n in b {
      assert n in Elements(sorted);
    }
    forall n | n in b && n !in items ensures |sorted| > l && Below(items, n) {
      assert n in Elements(sorted);
      var j :| 0 <= j < |sorted| && sorted[j] == n;
      assert j >= l;
    }
    if |sorted| > l {
      assert sorted[l] in Elements(sorted);
      forall i | 0 <= i < l ensures sorted[i] != sorted[l] {
        assert Newer(sorted[i], sorted[l]) && !Newer(sorted[l], sorted[l]);
      }
      assert sorted[l] !in items;
    }
  }

  /** Rows shown from b are where the sorted b begins. */
  lemma ShownIsPrefix(b: set<Notification>, items: seq<Notification>, more: bool)
    requires StrictOrderOn(Newer, b) && Ascending(Newer, items) && ShownFrom(b, items, more)
    ensures StrictOrderOn(Newer, b - Elements(items))
    ensures Listing(Newer, b) == items + Listing(Newer, b - Elements(items))
  {
    var others := b - Elements(items);
    var rest := Listing(Newer, others);
    var xs := items + rest;
    forall i, j | 0 <= i < |items| && 0 <= j < |rest| ensures Newer(items[i], rest[j]) {
      assert rest[j] in Elements(rest);
      assert rest[j] in others && Below(items, rest[j]);
      assert items[i] in items && items[|items| - 1] in items;
      if i < |items| - 1 { assert Newer(items[i], items[|items| - 1]); }
    }
    forall n ensures n in Elements(xs) <==> n in b {
      assert n in rest <==> n in Elements(rest);
      assert n in items <==> n in Elements(items);
    }
    ListsUnique(Newer, xs, Listing(Newer, b), b);
  }

  /** A set of rows yields a given page exactly when it shows it. */
  lemma PageIffShown(b: set<Notification>, l: nat, items: seq<Notification>, next: Str)
    requires StrictOrderOn(Newer, b) && WellCut(items, next, l)
    ensures var sorted := Listing(Newer, b);
      PageItems(sorted, l) == items && PageCursor(sorted, l) == next <==> ShownFrom(b, items, next != [])
  {
    var sorted := Listing(Newer, b);
    CutShows(sorted, b, l);
    if ShownFrom(b, items, next != []) {
      ShownIsPrefix(b, items, next != []);
      var rest := Listing(Newer, b - Elements(items));
      if next == [] {
        assert b - Elements(items) == {};
      } else {
        var n :| n in b && n !in items;
        assert n in b - Elements(items);
        assert sorted[..l] == items;
      }
    }
  }

  /** The calls leave the query showing that page: its rows read as it says, every
      other row they leave wanted sorts below it, and there is one exactly if it has a
      cursor. */
  ghost predicate ShowsAfter(s: MemState, ops: seq<StoreOp>, q: Query, items: seq<Notification>, next: Str) {
    && (forall n | n in items :: RowAfter(s, ops, n) && Wanted(n, q))
    && (forall n | RowAfter(s, ops, n) && Wanted(n, q) && n !in items :: next != [] && Below(items, n))
    && (next != [] ==> exists n :: RowAfter(s, ops, n) && Wanted(n, q) && n !in items)
  }

  lemma MatchingAfter(s: MemState, ops: seq<StoreOp>, q: Query, n: Notification)
    requires Filed(s) && NoClashAlong(s, ops)
    ensures n in Matching(MemRun(s, ops).0, q) <==> RowAfter(s, ops, n) && Wanted(n, q)
  {
    RowsAreFromTheCalls(s, ops, n);
  }

  /** Whether the state after a run shows a given page, told from the calls. */
  lemma ShowsIff(s: MemState, ops: seq<StoreOp>, q: Query, items: seq<Notification>, next: Str)
    requires Filed(s) && NoClashAlong(s, ops) && WellCut(items, next, ClampLimit(q.limit))
    ensures var page := MemFind(MemRun(s, ops).0, q);
      page.items == items && page.next == next <==> ShowsAfter(s, ops, q, items, next)
  {
    var t := MemRun(s, ops).0;
    MatchingIsOrdered(t, q);
    PageIffShown(Matching(t, q), ClampLimit(q.limit), items, next);
    forall n ensures n in Matching(t, q) <==> RowAfter(s, ops, n) && Wanted(n, q) {
      MatchingAfter(s, ops, q, n);
    }
  }

  // ---- Postgres: page, then count ----

  /** The page statement runs on p, the count statement on p'. */
  ghost function TwoStatements(p: PgState, p': PgState, q: Query): StoreResult
    requires Constrained(p)
  {
    var page := PgFind(p, q);
    Page(page.items, page.next, |UnreadRows(p', q.tenant, q.user)|)
  }

  /** The page is the one of the moment it is taken, and the count differs from that
      moment's by what the calls in between add to it; so the answer is that moment's
      exactly when they add nothing. */
  lemma TwoStatementsIff(s: MemState, between: seq<StoreOp>, p: PgState, p': PgState, q: Query)
    requires Matches(s, p) && Matches(MemRun(s, between).0, p')
    ensures Constrained(p)
    ensures var answer := TwoStatements(p, p', q); var page := MemFind(s, q);
      && answer.items == page.items && answer.next == page.next
      && answer.unread == page.unread + NetChange(s, between, q.tenant, q.user)
      && (answer == page <==> NetChange(s, between, q.tenant, q.user) == 0)
  {
    FindAgrees(s, p, q);
    UnreadCountAgrees(MemRun(s, between).0, p', q.tenant, q.user);
    NetCounts(s, between, q.tenant, q.user);
  }

  lemma PageIsWell(s: MemState, q: Query)
    requires Filed(s)
    ensures WellCut(MemFind(s, q).items, MemFind(s, q).next, ClampLimit(q.limit))
  {
    MatchingIsOrdered(s, q);
    CutIsWell(Matching(s, q), ClampLimit(q.limit));
  }

  /** The answer is the reference's at moment k between the statements exactly when the
      calls before k leave the page showing and the calls from k on add nothing to the
      user's unread count. */
  lemma FitsMomentIff(s: MemState, between: seq<StoreOp>, p: PgState, p': PgState, q: Query, k: nat)
    requires Matches(s, p) && NoClashAlong(s, between) && Matches(MemRun(s, between).0, p') && k <= |between|
    ensures Constrained(p)
    ensures var answer := TwoStatements(p, p', q); var t := MemRun(s, between[..k]).0;
      answer == MemFind(t, q) <==>
        && ShowsAfter(s, between[..k], q, MemFind(s, q).items, MemFind(s, q).next)
        && NetChange(t, between[k..], q.tenant, q.user) == 0
  {
    TwoStatementsIff(s, between, p, p', q);
    PageAtMoment(s, between, q, k);
    CountFrom(s, between, k, q);
  }

  lemma PageAtMoment(s: MemState, ops: seq<StoreOp>, q: Query, k: nat)
    requires Filed(s) && NoClashAlong(s, ops) && k <= |ops|
    ensures var later, page := MemFind(MemRun(s, ops[..k]).0, q), MemFind(s, q);
      later.items == page.items && later.next == page.next <==> ShowsAfter(s, ops[..k], q, page.items, page.next)
  {
    RunSplits(s, ops, k);
    PageIsWell(s, q);
    ShowsIff(s, ops[..k], q, MemFind(s, q).items, MemFind(s, q).next);
  }

  lemma CountFrom(s: MemState, ops: seq<StoreOp>, k: nat, q: Query)
    requires Filed(s) && k <= |ops|
    ensures var t := MemRun(s, ops[..k]).0;
      MemFind(s, q).unread + NetChange(s, ops, q.tenant, q.user)
      == MemFind(t, q).unread + NetChange(t, ops[k..], q.tenant, q.user)
  {
    RunSplits(s, ops, k);
    NetCounts(s, ops, q.tenant, q.user);
    NetCounts(MemRun(s, ops[..k]).0, ops[k..], q.tenant, q.user);
  }

  /** An answer that no moment explains, from any store: an unread row that is created
      between the statements and would be on the page is counted and not shown. */
  lemma TornAnswer(s: MemState, n: Notification, minted: Str, p: PgState, p': PgState, q: Query)
    requires Matches(s, p) && NotifKey(n) !in s.notifByKey && NewId(n.id, minted) !in s.notifs && n.status != Read
    requires Matches(MemStep(s, Create(n, minted)).0, p')
    requires n.(id := NewId(n.id, minted)) in MemFind(MemStep(s, Create(n, minted)).0, q).items
    ensures Constrained(p) && TwoStatements(p, p', q) != MemFind(s, q)
    ensures TwoStatements(p, p', q) != MemFind(MemStep(s, Create(n, minted)).0, q)
  {
    var t := MemStep(s, Create(n, minted)).0;
    FindAgrees(s, p, q);
    UnreadCountAgrees(t, p', q.tenant, q.user);
    ChangeCounts(s, Create(n, minted), q.tenant, q.user);
    PageIsNewestPrefix(s, q);
    PageIsNewestPrefix(t, q);
  }

  // ---- EntDB: list, then read each node again ----

  /** Every listed row is read again at some moment of the run, and no call of the run
      reuses an id. */
  ghost predicate ReadsWithin(s: MemState, ops: seq<StoreOp>, when: map<Str, nat>)
    requires Filed(s)
  {
    NoClashAlong(s, ops) && forall id | id in s.notifs :: id in when && when[id] <= |ops|
  }

  /** The row of a listed id when it is read again, after when[id] of the calls. */
  ghost function Reread(s: MemState, ops: seq<StoreOp>, when: map<Str, nat>, id: Str): (r: Notification)
    requires Filed(s) && id in s.notifs && ReadsWithin(s, ops, when)
    ensures r == Rewritten(ops[..when[id]], s.notifs[id]) && r.id == id
  {
    RunSplits(s, ops, when[id]);
    OldRowAfter(s, ops[..when[id]], id);
    MemRun(s, ops[..when[id]]).0.notifs[id]
  }

  ghost function Gathered(s: MemState, ops: seq<StoreOp>, when: map<Str, nat>, q: Query): set<Notification>
    requires Filed(s) && ReadsWithin(s, ops, when)
  {
    set id | id in s.notifs && Owned(s.notifs[id], q.tenant, q.user) && Wanted(Reread(s, ops, when, id), q)
      :: Reread(s, ops, when, id)
  }

  lemma GatheredIsOrdered(s: MemState, ops: seq<StoreOp>, when: map<Str, nat>, q: Query)
    requires Filed(s) && ReadsWithin(s, ops, when)
    ensures StrictOrderOn(Newer, Gathered(s, ops, when, q))
  {
    NewerIsStrict(Gathered(s, ops, when, q));
  }

  ghost function UnreadReads(s: MemState, ops: seq<StoreOp>, when: map<Str, nat>, q: Query): set<Str>
    requires Filed(s) && ReadsWithin(s, ops, when)
  {
    set id | id in s.notifs && Unread(Reread(s, ops, when, id), q.tenant, q.user)
  }

  ghost function ListThenRead(s: MemState, ops: seq<StoreOp>, when: map<Str, nat>, q: Query): StoreResult
    requires Filed(s) && ReadsWithin(s, ops, when)
  {
    GatheredIsOrdered(s, ops, when, q);
    var sorted := Listing(Newer, Gathered(s, ops, when, q));
    var limit := ClampLimit(q.limit);
    Page(PageItems(sorted, limit), PageCursor(sorted, limit), |UnreadReads(s, ops, when, q)|)
  }

  // ---- The page of such a query ----

  function Unfiltered(q: Query): Query {
    q.(unreadOnly := false)
  }

  /** The rows of a newest-first list, each rewritten by the calls before its read. */
  function Versions(ops: seq<StoreOp>, when: map<Str, nat>, rows: seq<Notification>): (r: seq<Notification>)
    requires forall n | n in rows :: n.id in when && when[n.id] <= |ops|
    ensures |r| == |rows| && forall i | 0 <= i < |r| :: r[i] == Rewritten(ops[..when[rows[i].id]], rows[i])
  {
    seq(|rows|, i requires 0 <= i < |rows| =>
      assert rows[i] in rows; Rewritten(ops[..when[rows[i].id]], rows[i]))
  }

  function Filter(q: Query, rows: seq<Notification>): seq<Notification> {
    if rows == [] then [] else (if Wanted(rows[0], q) then [rows[0]] else []) + Filter(q, rows[1..])
  }

  lemma {:induction false} FilterLists(q: Query, rows: seq<Notification>)
    requires Ascending(Newer, rows)
    ensures Ascending(Newer, Filter(q, rows))
    ensures forall n :: n in Filter(q, rows) <==> n in rows && Wanted(n, q)
  {
    if rows != [] {
      FilterLists(q, rows[1..]);
      assert rows == [rows[0]] + rows[1..];
      var rest := Filter(q, rows[1..]);
      forall i | 0 <= i < |rest| ensures Newer(rows[0], rest[i]) {
        assert rest[i] in rest;
        var j :| 0 <= j < |rows[1..]| && rows[1..][j] == rest[i];
        assert rows[j + 1] == rest[i];
      }
    }
  }

  lemma {:induction false} FilterKeepsAll(q: Query, rows: seq<Notification>)
    requires forall n | n in rows :: Wanted(n, q)
    ensures Filter(q, rows) == rows
  {
    if rows != [] {
      FilterKeepsAll(q, rows[1..]);
      assert rows[0] in rows && rows == [rows[0]] + rows[1..];
    }
  }

  lemma VersionsAscend(ops: seq<StoreOp>, when: map<Str, nat>, rows: seq<Notification>)
    requires Ascending(Newer, rows) && forall n | n in rows :: n.id in when && when[n.id] <= |ops|
    ensures Ascending(Newer, Versions(ops, when, rows))
  {
    var vs := Versions(ops, when, rows);
    forall i, j | 0 <= i < j < |vs| ensures Newer(vs[i], vs[j]) {
      assert Newer(rows[i], rows[j]);
    }
  }

  /** The rows a query lists when its filter on status is left out. */
  ghost predicate Listed(s: MemState, q: Query, rows: seq<Notification>) {
    && Lists(Newer, rows, Matching(s, Unfiltered(q)))
    && forall n | n in rows :: n.id in s.notifs && s.notifs[n.id] == n
  }

  lemma ListedRows(s: MemState, q: Query) returns (rows: seq<Notification>)
    requires Filed(s)
    ensures Listed(s, q, rows)
    ensures !q.unreadOnly ==> MemFind(s, q).items == PageItems(rows, ClampLimit(q.limit))
    ensures !q.unreadOnly ==> MemFind(s, q).next == PageCursor(rows, ClampLimit(q.limit))
  {
    MatchingIsOrdered(s, Unfiltered(q));
    rows := Listing(Newer, Matching(s, Unfiltered(q)));
    forall n | n in rows ensures n.id in s.notifs && s.notifs[n.id] == n {
      assert n in Elements(rows);
    }
    assert !q.unreadOnly ==> Unfiltered(q) == q;
  }

  /** What was gathered are the versions that are still wanted when they are read. */
  lemma GatheredIff(s: MemState, ops: seq<StoreOp>, when: map<Str, nat>, q: Query, rows: seq<Notification>,
                    v: Notification)
    requires Filed(s) && ReadsWithin(s, ops, when) && Listed(s, q, rows)
    ensures v in Gathered(s, ops, when, q) <==> v in Versions(ops, when, rows) && Wanted(v, q)
  {
    var vs := Versions(ops, when, rows);
    if v in Gathered(s, ops, when, q) {
      assert s.notifs[v.id] in Matching(s, Unfiltered(q));
      assert s.notifs[v.id] in Elements(rows);
      var i :| 0 <= i < |rows| && rows[i] == s.notifs[v.id];
      assert vs[i] == v;
    }
    if v in vs && Wanted(v, q) {
      var i :| 0 <= i < |vs| && vs[i] == v;
      assert rows[i] in rows;
      assert v == Reread(s, ops, when, rows[i].id);
    }
  }

  lemma SortedReads(s: MemState, ops: seq<StoreOp>, when: map<Str, nat>, q: Query, rows: seq<Notification>)
    requires Filed(s) && ReadsWithin(s, ops, when) && Listed(s, q, rows)
    ensures StrictOrderOn(Newer, Gathered(s, ops, when, q))
    ensures Listing(Newer, Gathered(s, ops, when, q)) == Filter(q, Versions(ops, when, rows))
  {
    var kept, all := Filter(q, Versions(ops, when, rows)), Gathered(s, ops, when, q);
    GatheredIsOrdered(s, ops, when, q);
    VersionsAscend(ops, when, rows);
    FilterLists(q, Versions(ops, when, rows));
    forall v ensures v in Elements(kept) <==> v in all {
      GatheredIff(s, ops, when, q, rows, v);
    }
    ListsUnique(Newer, kept, Listing(Newer, all), all);
  }

  /** Whatever runs between the listing and the reads, the page is cut from the rows
      that were there at the listing, in that order, each in the version of its own
      read, without those the filter drops in that version. */
  lemma PageOfTheListing(s: MemState, ops: seq<StoreOp>, when: map<Str, nat>, q: Query)
    returns (rows: seq<Notification>)
    requires Filed(s) && ReadsWithin(s, ops, when)
    ensures Listed(s, q, rows)
    ensures var answer := ListThenRead(s, ops, when, q); var kept := Filter(q, Versions(ops, when, rows));
      answer.items == PageItems(kept, ClampLimit(q.limit)) && answer.next == PageCursor(kept, ClampLimit(q.limit))
  {
    rows := ListedRows(s, q);
    SortedReads(s, ops, when, q, rows);
  }

  /** Cutting a page from a list and from its versions. */
  lemma VersionsCut(ops: seq<StoreOp>, when: map<Str, nat>, rows: seq<Notification>, l: nat)
    requires l >= 1 && forall n | n in rows :: n.id in when && when[n.id] <= |ops|
    ensures var vs := Versions(ops, when, rows); var page := PageItems(rows, l);
      && PageCursor(vs, l) == PageCursor(rows, l) && |PageItems(vs, l)| == |page|
      && forall i | 0 <= i < |page| :: var n := page[i];
           n.id in when && when[n.id] <= |ops| && PageItems(vs, l)[i] == Rewritten(ops[..when[n.id]], n)
  {
    var page := PageItems(rows, l);
    forall i | 0 <= i < |page| ensures page[i] == rows[i] && rows[i] in rows {}
  }

  lemma UnfilteredPage(s: MemState, ops: seq<StoreOp>, when: map<Str, nat>, q: Query)
    requires Filed(s) && ReadsWithin(s, ops, when) && !q.unreadOnly
    ensures var answer := ListThenRead(s, ops, when, q); var page := MemFind(s, q);
      && answer.next == page.next && |answer.items| == |page.items|
      && forall i | 0 <= i < |page.items| :: var n := page.items[i];
           n.id in when && when[n.id] <= |ops| && answer.items[i] == Rewritten(ops[..when[n.id]], n)
  {
    var rows := ListedRows(s, q);
    SortedReads(s, ops, when, q, rows);
    VersionsWanted(ops, when, q, rows, s);
    FilterKeepsAll(q, Versions(ops, when, rows));
    VersionsCut(ops, when, rows, ClampLimit(q.limit));
  }

  lemma VersionsWanted(ops: seq<StoreOp>, when: map<Str, nat>, q: Query, rows: seq<Notification>, s: MemState)
    requires !q.unreadOnly && Listed(s, q, rows) && forall n | n in rows :: n.id in when && when[n.id] <= |ops|
    ensures forall v | v in Versions(ops, when, rows) :: Wanted(v, q)
  {
    var vs := Versions(ops, when, rows);
    forall i | 0 <= i < |vs| ensures Wanted(vs[i], q) {
      assert rows[i] in Elements(rows);
    }
  }

  /** The calls' last writes leave status and timestamps of the row as they are. */
  predicate LeftAsIs(ops: seq<StoreOp>, n: Notification) {
    && LastStatus(ops, n.tenant, n.id, n.status) == n.status
    && LastTime(ops, n.tenant, n.id, Delivered, n.deliveredAt) == n.deliveredAt
    && LastTime(ops, n.tenant, n.id, Acked, n.ackAt) == n.ackAt
    && LastTime(ops, n.tenant, n.id, Read, n.readAt) == n.readAt
  }

  /** Without the unread filter the page has the rows, order and cursor of the moment
      of the listing, and it is that moment's page exactly when, for each row on it,
      the last writes between the listing and its read leave it as it was. */
  lemma PageIsTheListingsIff(s: MemState, ops: seq<StoreOp>, when: map<Str, nat>, q: Query)
    requires Filed(s) && ReadsWithin(s, ops, when) && !q.unreadOnly
    ensures var answer := ListThenRead(s, ops, when, q); var page := MemFind(s, q);
      && answer.next == page.next && |answer.items| == |page.items|
      && (forall i | 0 <= i < |page.items| :: SameCreation(page.items[i], answer.items[i]))
      && (answer.items == page.items <==> forall n | n in page.items ::
            n.id in when && when[n.id] <= |ops| && LeftAsIs(ops[..when[n.id]], n))
  {
    UnfilteredPage(s, ops, when, q);
    SameVersionsIff(ops, when, MemFind(s, q).items, ListThenRead(s, ops, when, q).items);
  }

  lemma SameVersionsIff(ops: seq<StoreOp>, when: map<Str, nat>, rows: seq<Notification>, vs: seq<Notification>)
    requires |vs| == |rows|
    requires forall i | 0 <= i < |rows| :: var n := rows[i];
      n.id in when && when[n.id] <= |ops| && vs[i] == Rewritten(ops[..when[n.id]], n)
    ensures forall i | 0 <= i < |rows| :: SameCreation(rows[i], vs[i])
    ensures vs == rows <==> forall n | n in rows ::
      n.id in when && when[n.id] <= |ops| && LeftAsIs(ops[..when[n.id]], n)
  {
    if vs == rows {
      forall n | n in rows ensures n.id in when && when[n.id] <= |ops| && LeftAsIs(ops[..when[n.id]], n) {
        var i :| 0 <= i < |rows| && rows[i] == n;
        assert vs[i] == rows[i];
      }
    } else {
      var i :| 0 <= i < |rows| && vs[i] != rows[i];
      assert rows[i] in rows && !LeftAsIs(ops[..when[rows[i].id]], rows[i]);
    }
  }

  // ---- Its unread count ----

  /** The user's listed rows whose last status before the read is not read. */
  ghost function StillUnread(s: MemState, ops: seq<StoreOp>, when: map<Str, nat>, q: Query): set<Str>
    requires Filed(s) && ReadsWithin(s, ops, when)
  {
    set id | id in s.notifs && Owned(s.notifs[id], q.tenant, q.user)
      && LastStatus(ops[..when[id]], s.notifs[id].tenant, id, s.notifs[id].status) != Read
  }

  lemma UnreadReadsAre(s: MemState, ops: seq<StoreOp>, when: map<Str, nat>, q: Query)
    requires Filed(s) && ReadsWithin(s, ops, when)
    ensures UnreadReads(s, ops, when, q) == StillUnread(s, ops, when, q)
  {}

  /** The answer's count against the listing's: rows turned unread before their read
      are gained, rows turned read are lost. */
  lemma UnreadOfReads(s: MemState, ops: seq<StoreOp>, when: map<Str, nat>, q: Query)
    requires Filed(s) && ReadsWithin(s, ops, when)
    ensures var before := UnreadAmong(s, q.tenant, q.user, s.notifs.Keys); var after := StillUnread(s, ops, when, q);
      && ListThenRead(s, ops, when, q).unread == |after|
      && |after| == MemFind(s, q).unread + |after - before| - |before - after|
  {
    var before, after := UnreadAmong(s, q.tenant, q.user, s.notifs.Keys), StillUnread(s, ops, when, q);
    UnreadReadsAre(s, ops, when, q);
    DifferenceSizes(after, before);
  }

  lemma DifferenceSizes(a: set<Str>, b: set<Str>)
    ensures |a| == |b| + |a - b| - |b - a|
  {
    assert a == (a - b) + (a * b) && b == (b - a) + (a * b);
  }

  // ---- The moments it fits ----

  /** The answer is the reference's at moment k of the run exactly when the calls before
      k leave its page showing and move the unread count as the reads found it. */
  lemma ReadsFitMomentIff(s: MemState, ops: seq<StoreOp>, when: map<Str, nat>, q: Query, k: nat)
    requires Filed(s) && ReadsWithin(s, ops, when) && k <= |ops|
    ensures var answer := ListThenRead(s, ops, when, q);
      answer == MemFind(MemRun(s, ops[..k]).0, q) <==>
        && ShowsAfter(s, ops[..k], q, answer.items, answer.next)
        && |StillUnread(s, ops, when, q)| == MemFind(s, q).unread + NetChange(s, ops[..k], q.tenant, q.user)
  {
    var answer := ListThenRead(s, ops, when, q);
    RunSplits(s, ops, k);
    GatheredIsOrdered(s, ops, when, q);
    CutIsWell(Gathered(s, ops, when, q), ClampLimit(q.limit));
    ShowsIff(s, ops[..k], q, answer.items, answer.next);
    NetCounts(s, ops[..k], q.tenant, q.user);
    UnreadReadsAre(s, ops, when, q);
  }

  function MarkRead(n: Notification, at: Int64): StoreOp {
    Update(n.tenant, n.id, Read, at)
  }

  /** The status of two rows that are marked read one after the other. */
  lemma MarkedInTurn(a: Notification, b: Notification, at: Int64, k: nat)
    requires a.id != b.id && k <= 2
    ensures var ops := [MarkRead(a, at), MarkRead(b, at)][..k];
      && Rewritten(ops, a).status == (if k >= 1 then Read else a.status)
      && Rewritten(ops, b).status == (if k == 2 then Read else b.status)
  {
    var first, second := MarkRead(a, at), MarkRead(b, at);
    assert [first, second][..0] == [] && [first, second][..1] == [first] + [];
    assert [first, second][..2] == [first] + ([second] + []);
    RewrittenCons(first, [], a);
    RewrittenCons(first, [], b);
    RewrittenCons(first, [second] + [], a);
    RewrittenCons(first, [second] + [], b);
    RewrittenCons(second, [], Stamp(a, Read, at));
    RewrittenCons(second, [], b);
  }

  lemma MarkingIsClean(s: MemState, a: StoreOp, b: StoreOp)
    requires Filed(s) && a.Update? && b.Update?
    ensures NoClashAlong(s, [a, b])
  {
    StepKeepsFiled(s, a);
    var s1 := MemStep(s, a).0;
    StepKeepsFiled(s1, b);
    assert [a, b][1..] == [b] && [b][1..] == [];
    assert NoClashAlong(s1, [b]);
  }

  /** All rows are read again at once, except one that is read after two calls. */
  function OneLate(s: MemState, late: Str): map<Str, nat> {
    map id | id in s.notifs :: if id == late then 2 else 0
  }

  lemma ShownVersion(s: MemState, ops: seq<StoreOp>, when: map<Str, nat>, q: Query, n: Notification)
    requires Filed(s) && ReadsWithin(s, ops, when) && !q.unreadOnly && n in MemFind(s, q).items
    ensures n.id in when && when[n.id] <= |ops|
    ensures Rewritten(ops[..when[n.id]], n) in ListThenRead(s, ops, when, q).items
  {
    UnfilteredPage(s, ops, when, q);
    var i :| 0 <= i < |MemFind(s, q).items| && MemFind(s, q).items[i] == n;
    assert ListThenRead(s, ops, when, q).items[i] == Rewritten(ops[..when[n.id]], n);
  }

  /** A row shown at moment k is the listed row as the calls before k leave it. */
  lemma ShownAtMoment(s: MemState, ops: seq<StoreOp>, k: nat, q: Query, n: Notification)
    requires Filed(s) && NoClashAlong(s, ops) && k <= |ops|
    requires n in MemFind(MemRun(s, ops[..k]).0, q).items && n.id in s.notifs
    ensures n == Rewritten(ops[..k], s.notifs[n.id])
  {
    RunSplits(s, ops, k);
    OldRowAfter(s, ops[..k], n.id);
    PageIsNewestPrefix(MemRun(s, ops[..k]).0, q);
  }

  /** Such an answer, too, may fit no moment: on any page with two unread rows, let both
      be marked read in turn, the first read again before and the second after. The
      answer shows the first unread and the second read, and no moment does. */
  lemma TornReads(s: MemState, q: Query, a: Notification, b: Notification, at: Int64, k: nat)
    requires Filed(s) && !q.unreadOnly && a in MemFind(s, q).items && b in MemFind(s, q).items
    requires a.id != b.id && a.status != Read && b.status != Read && k <= 2
    ensures var ops := [MarkRead(a, at), MarkRead(b, at)];
      && ReadsWithin(s, ops, OneLate(s, b.id))
      && ListThenRead(s, ops, OneLate(s, b.id), q) != MemFind(MemRun(s, ops[..k]).0, q)
  {
    var ops, when := [MarkRead(a, at), MarkRead(b, at)], OneLate(s, b.id);
    MarkingIsClean(s, ops[0], ops[1]);
    PageIsNewestPrefix(s, q);
    ShownVersion(s, ops, when, q, a);
    ShownVersion(s, ops, when, q, b);
    var a', b' := Rewritten(ops[..0], a), Rewritten(ops[..2], b);
    MarkedInTurn(a, b, at, 0);
    MarkedInTurn(a, b, at, 2);
    MarkedInTurn(a, b, at, k);
    if ListThenRead(s, ops, when, q) == MemFind(MemRun(s, ops[..k]).0, q) {
      ShownAtMoment(s, ops, k, q, a');
      ShownAtMoment(s, ops, k, q, b');
    }
  }
}
