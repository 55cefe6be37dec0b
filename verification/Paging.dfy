/** Cursor paging through the client handler (internal/server/handlers.go): what a
    client sees who follows next_cursor on an unchanged store. */
module Paging {
  import opened Domain
  import opened Order
  import opened Decimal
  import opened StoreApi
  import opened Memory

  /** decodeCursor: a decimal int64, and strictly positive. */
  function DecodeCursor(c: Str): Option<Int64> {
    match ParseInt(c)
    case None => None
    case Some(ms) => if ms <= 0 then None else Some(ms)
  }

  /** A printed cursor is accepted back exactly when its boundary is positive. */
  lemma DecodeOfPrinted(ms: Int64)
    ensures DecodeCursor(FormatInt(ms)) == if ms > 0 then Some(ms) else None
  {
    ParseOfFormat(ms);
  }

  datatype Request = Request(tenant: Str, user: Str, limit: int, unreadOnly: bool)

  datatype Response = Ok(items: seq<Notification>, next: Str, unread: nat) | InvalidArgument

  function QueryFor(r: Request, cursor: Option<Int64>): Query {
    Query(r.tenant, r.user, cursor, r.limit, r.unreadOnly)
  }

  /** GetNotifications: an empty cursor asks for the first page. */
  ghost function GetNotifications(s: MemState, r: Request, cursor: Str): Response
    requires Filed(s)
  {
    if cursor != [] && DecodeCursor(cursor) == None then InvalidArgument
    else
      var page := MemFind(s, QueryFor(r, if cursor == [] then None else DecodeCursor(cursor)));
      Ok(page.items, page.next, page.unread)
  }

  /** Over all byte strings: the handler refuses a cursor exactly when it is not empty
      and is not a decimal text of an int64 above zero; otherwise it answers with the
      store's page below that boundary, or the first page if the cursor is empty. */
  lemma CursorAcceptedIff(s: MemState, r: Request, cursor: Str)
    requires Filed(s)
    ensures GetNotifications(s, r, cursor) == InvalidArgument
      <==> cursor != [] && forall v: Int64 :: v > 0 ==> !Denotes(cursor, v)
    ensures forall v: Int64 | v > 0 && Denotes(cursor, v) ::
      var page := MemFind(s, Query(r.tenant, r.user, Some(v), r.limit, r.unreadOnly));
      GetNotifications(s, r, cursor) == Ok(page.items, page.next, page.unread)
    ensures cursor == [] ==>
      var page := MemFind(s, Query(r.tenant, r.user, None, r.limit, r.unreadOnly));
      GetNotifications(s, r, cursor) == Ok(page.items, page.next, page.unread)
  {
    forall v: Int64 ensures ParseInt(cursor) == Some(v) <==> Denotes(cursor, v) {
      ParseIntIff(cursor, v);
    }
    if cursor == [] {
      forall v: Int64 ensures !Denotes(cursor, v) { assert ParseInt(cursor) == None; }
    }
  }

  /** pages is what a client collects from `cursor` on, up to the page with no
      next cursor; no request of the walk is refused. */
  ghost predicate IsWalk(s: MemState, r: Request, cursor: Str, pages: seq<seq<Notification>>)
    requires Filed(s)
    decreases |pages|
  {
    && pages != []
    && var response := GetNotifications(s, r, cursor);
    && response.Ok? && response.items == pages[0]
    && if response.next == [] then |pages| == 1 else IsWalk(s, r, response.next, pages[1..])
  }

  /** The user's rows under the request's filter, newest first. */
  ghost function Inbox(s: MemState, r: Request): seq<Notification>
    requires Filed(s)
  {
    MatchingIsOrdered(s, QueryFor(r, None));
    Listing(Newer, Matching(s, QueryFor(r, None)))
  }

  // ---- The walk on a sorted list ----

  /** Drops the rows that are not strictly older than c from a newest-first list. */
  function Older(rows: seq<Notification>, c: Int64): (r: seq<Notification>)
    ensures |r| <= |rows|
  {
    if rows == [] || rows[0].createdAt < c then rows else Older(rows[1..], c)
  }

  function Walk(rows: seq<Notification>, l: nat): (pages: seq<seq<Notification>>)
    requires l >= 1
    ensures pages != []
    decreases |rows|
  {
    if |rows| <= l then [rows]
    else [rows[..l]] + Walk(Older(rows[l..], rows[l - 1].createdAt), l)
  }

  /** Every cursor the walk prints is positive. */
  predicate CursorsPositive(rows: seq<Notification>, l: nat)
    requires l >= 1
    decreases |rows|
  {
    |rows| <= l || (rows[l - 1].createdAt > 0 && CursorsPositive(Older(rows[l..], rows[l - 1].createdAt), l))
  }

  function Flatten(pages: seq<seq<Notification>>): seq<Notification> {
    if pages == [] then [] else pages[0] + Flatten(pages[1..])
  }

  lemma {:induction false} OlderLists(rows: seq<Notification>, s: set<Notification>, c: Int64)
    requires StrictOrderOn(Newer, s) && Lists(Newer, rows, s)
    ensures Lists(Newer, Older(rows, c), set r | r in s && r.createdAt < c)
    decreases |rows|
  {
    if rows == [] {
      assert s == {};
    } else {
      assert rows[0] in s;
      if rows[0].createdAt < c {
        forall r | r in s ensures r.createdAt < c {}
        assert s == set r | r in s && r.createdAt < c;
      } else {
        OlderLists(rows[1..], s - {rows[0]}, c);
        assert (set r | r in s - {rows[0]} && r.createdAt < c) == set r | r in s && r.createdAt < c;
      }
    }
  }

  /** The first k rows of a newest-first list are not older than row k - 1. */
  lemma OlderSkipsPrefix(rows: seq<Notification>, k: nat)
    requires Ascending(Newer, rows) && 1 <= k <= |rows|
    ensures Older(rows, rows[k - 1].createdAt) == Older(rows[k..], rows[k - 1].createdAt)
  {
    OlderSkips(rows, k, rows[k - 1].createdAt);
  }

  lemma {:induction false} OlderSkips(rows: seq<Notification>, k: nat, c: Int64)
    requires k <= |rows| && forall i | 0 <= i < k :: rows[i].createdAt >= c
    ensures Older(rows, c) == Older(rows[k..], c)
    decreases k
  {
    if k > 0 {
      OlderSkips(rows[1..], k - 1, c);
      assert rows[1..][k - 1..] == rows[k..];
    } else {
      assert rows[0..] == rows;
    }
  }

  // ---- The handler performs exactly that walk ----

  ghost function ListFrom(s: MemState, r: Request, cursor: Option<Int64>): seq<Notification>
    requires Filed(s)
  {
    MatchingIsOrdered(s, QueryFor(r, cursor));
    Listing(Newer, Matching(s, QueryFor(r, cursor)))
  }

  /** The rows older than c are those of the wider query that are older than c. */
  lemma OlderMatching(s: MemState, r: Request, cursor: Option<Int64>, c: Int64)
    requires cursor.Some? ==> c < cursor.value
    ensures Matching(s, QueryFor(r, Some(c))) == set x | x in Matching(s, QueryFor(r, cursor)) && x.createdAt < c
  {}

  /** Asking for rows older than a page's last row is dropping from the list. */
  lemma NextList(s: MemState, r: Request, cursor: Option<Int64>)
    requires Filed(s)
    requires |ListFrom(s, r, cursor)| > ClampLimit(r.limit)
    ensures var rows := ListFrom(s, r, cursor);
      var l := ClampLimit(r.limit);
      var c := rows[l - 1].createdAt;
      ListFrom(s, r, Some(c)) == Older(rows[l..], c)
  {
    var rows := ListFrom(s, r, cursor);
    var l := ClampLimit(r.limit);
    var c := rows[l - 1].createdAt;
    var all := Matching(s, QueryFor(r, cursor));
    MatchingIsOrdered(s, QueryFor(r, cursor));
    MatchingIsOrdered(s, QueryFor(r, Some(c)));
    ListedAreOlder(s, r, cursor, l - 1);
    OlderMatching(s, r, cursor, c);
    ListingOfOlder(rows, all, l, Matching(s, QueryFor(r, Some(c))));
  }

  lemma ListedAreOlder(s: MemState, r: Request, cursor: Option<Int64>, i: nat)
    requires Filed(s) && i < |ListFrom(s, r, cursor)|
    ensures cursor.Some? ==> ListFrom(s, r, cursor)[i].createdAt < cursor.value
  {
    MatchingIsOrdered(s, QueryFor(r, cursor));
    assert ListFrom(s, r, cursor)[i] in Elements(ListFrom(s, r, cursor));
  }

  lemma ListingOfOlder(rows: seq<Notification>, all: set<Notification>, l: nat, older: set<Notification>)
    requires StrictOrderOn(Newer, all) && Lists(Newer, rows, all) && 1 <= l <= |rows| && StrictOrderOn(Newer, older)
    requires older == set x | x in all && x.createdAt < rows[l - 1].createdAt
    ensures Listing(Newer, older) == Older(rows[l..], rows[l - 1].createdAt)
  {
    OlderLists(rows, all, rows[l - 1].createdAt);
    OlderSkipsPrefix(rows, l);
    ListsUnique(Newer, Older(rows, rows[l - 1].createdAt), Listing(Newer, older), older);
  }

  function Boundary(cursor: Str): Option<Int64> {
    if cursor == [] then None else DecodeCursor(cursor)
  }

  /** One request answers with the page cut from the list at that cursor. */
  lemma OneRequest(s: MemState, r: Request, cursor: Str)
    requires Filed(s) && (cursor == [] || DecodeCursor(cursor).Some?)
    ensures var rows := ListFrom(s, r, Boundary(cursor)); var l := ClampLimit(r.limit);
      var response := GetNotifications(s, r, cursor);
      && response.Ok? && response.items == PageItems(rows, l) && response.next == PageCursor(rows, l)
  {}

  lemma LastRequest(s: MemState, r: Request, cursor: Str, pages: seq<seq<Notification>>)
    requires Filed(s) && (cursor == [] || DecodeCursor(cursor).Some?)
    requires |ListFrom(s, r, Boundary(cursor))| <= ClampLimit(r.limit)
    ensures IsWalk(s, r, cursor, pages) <==> pages == [ListFrom(s, r, Boundary(cursor))]
  {
    OneRequest(s, r, cursor);
  }

  lemma MoreRequests(s: MemState, r: Request, cursor: Str, pages: seq<seq<Notification>>)
    requires Filed(s) && (cursor == [] || DecodeCursor(cursor).Some?) && pages != []
    requires |ListFrom(s, r, Boundary(cursor))| > ClampLimit(r.limit)
    ensures var rows := ListFrom(s, r, Boundary(cursor)); var l := ClampLimit(r.limit);
      IsWalk(s, r, cursor, pages)
      <==> pages[0] == rows[..l] && IsWalk(s, r, FormatInt(rows[l - 1].createdAt), pages[1..])
  {
    OneRequest(s, r, cursor);
  }

  lemma RefusedRequest(s: MemState, r: Request, c: Int64, pages: seq<seq<Notification>>)
    requires Filed(s) && c <= 0
    ensures !IsWalk(s, r, FormatInt(c), pages)
  {
    DecodeOfPrinted(c);
  }

  lemma NextRequest(s: MemState, r: Request, cursor: Str)
    requires Filed(s) && |ListFrom(s, r, Boundary(cursor))| > ClampLimit(r.limit)
    requires ListFrom(s, r, Boundary(cursor))[ClampLimit(r.limit) - 1].createdAt > 0
    ensures var rows := ListFrom(s, r, Boundary(cursor)); var l := ClampLimit(r.limit); var c := rows[l - 1].createdAt;
      && DecodeCursor(FormatInt(c)).Some?
      && ListFrom(s, r, Boundary(FormatInt(c))) == Older(rows[l..], c)
  {
    DecodeOfPrinted(ListFrom(s, r, Boundary(cursor))[ClampLimit(r.limit) - 1].createdAt);
    NextList(s, r, Boundary(cursor));
  }

  /** A client that starts at a decodable cursor completes a walk exactly when every
      later cursor is positive, and then it has collected exactly Walk. */
  lemma {:induction false} WalkFrom(s: MemState, r: Request, cursor: Str, pages: seq<seq<Notification>>)
    requires Filed(s) && (cursor == [] || DecodeCursor(cursor).Some?)
    ensures var rows := ListFrom(s, r, Boundary(cursor)); var l := ClampLimit(r.limit);
      IsWalk(s, r, cursor, pages) <==> CursorsPositive(rows, l) && pages == Walk(rows, l)
    decreases |pages|
  {
    var rows := ListFrom(s, r, Boundary(cursor));
    var l := ClampLimit(r.limit);
    if |rows| <= l {
      LastRequest(s, r, cursor, pages);
    } else if pages != [] {
      var c := rows[l - 1].createdAt;
      MoreRequests(s, r, cursor, pages);
      if c > 0 {
        NextRequest(s, r, cursor);
        WalkFrom(s, r, FormatInt(c), pages[1..]);
        ThenTheRest(rows, l, pages, IsWalk(s, r, FormatInt(c), pages[1..]));
      } else {
        RefusedRequest(s, r, c, pages[1..]);
      }
    }
  }

  /** A walk of more than one page is its first page and the walk of the rest. */
  lemma ThenTheRest(rows: seq<Notification>, l: nat, pages: seq<seq<Notification>>, restIsWalk: bool)
    requires 1 <= l < |rows| && pages != [] && rows[l - 1].createdAt > 0
    requires var rest := Older(rows[l..], rows[l - 1].createdAt);
      restIsWalk <==> CursorsPositive(rest, l) && pages[1..] == Walk(rest, l)
    ensures pages[0] == rows[..l] && restIsWalk <==> CursorsPositive(rows, l) && pages == Walk(rows, l)
  {
    WalkUnfolds(rows, l, pages);
  }

  lemma WalkUnfolds(rows: seq<Notification>, l: nat, pages: seq<seq<Notification>>)
    requires 1 <= l < |rows| && pages != []
    ensures pages == Walk(rows, l)
      <==> pages[0] == rows[..l] && pages[1..] == Walk(Older(rows[l..], rows[l - 1].createdAt), l)
  {
    assert pages == [pages[0]] + pages[1..];
    assert Walk(rows, l)[1..] == Walk(Older(rows[l..], rows[l - 1].createdAt), l);
  }

  // ---- What the walk contains ----

  /** r ties on created-at with the last row of some page and sorts after it. */
  ghost predicate Skipped(pages: seq<seq<Notification>>, r: Notification) {
    exists i :: 0 <= i < |pages| && SkippedAfter(pages[i], r)
  }

  predicate SkippedAfter(page: seq<Notification>, r: Notification) {
    page != [] && r.createdAt == page[|page| - 1].createdAt && Newer(page[|page| - 1], r)
  }

  ghost predicate SortedRows(rows: seq<Notification>) {
    Ascending(Newer, rows) && StrictOrderOn(Newer, Elements(rows))
  }

  lemma {:induction false} OlderIsSuffix(rows: seq<Notification>, c: Int64)
    requires Ascending(Newer, rows)
    ensures Older(rows, c) == rows[|rows| - |Older(rows, c)|..]
    ensures forall r :: r in Older(rows, c) <==> r in rows && r.createdAt < c
  {
    if rows != [] && rows[0].createdAt >= c {
      OlderIsSuffix(rows[1..], c);
      assert rows[1..][|rows| - 1 - |Older(rows, c)|..] == rows[|rows| - |Older(rows, c)|..];
      assert rows == [rows[0]] + rows[1..];
    } else {
      forall i | 0 <= i < |rows| ensures rows[i].createdAt < c {
        if i > 0 { assert Newer(rows[0], rows[i]); }
      }
    }
  }

  lemma SuffixSorted(rows: seq<Notification>, k: nat)
    requires SortedRows(rows) && k <= |rows|
    ensures SortedRows(rows[k..])
  {
    assert Elements(rows[k..]) <= Elements(rows);
  }

  lemma OlderSorted(rows: seq<Notification>, c: Int64)
    requires SortedRows(rows)
    ensures SortedRows(Older(rows, c))
  {
    OlderIsSuffix(rows, c);
    SuffixSorted(rows, |rows| - |Older(rows, c)|);
  }

  /** What the recursion of Walk needs: the rest is sorted, and exactly the rows
      after the page that are older than its last one. */
  lemma RestOfWalk(rows: seq<Notification>, l: nat)
    requires 1 <= l < |rows| && SortedRows(rows)
    ensures var c := rows[l - 1].createdAt; var rest := Older(rows[l..], c);
      && SortedRows(rest) && |rest| < |rows|
      && (forall r :: r in rest <==> r in rows[l..] && r.createdAt < c)
      && Walk(rows, l)[0] == rows[..l] && Walk(rows, l)[1..] == Walk(rest, l)
  {
    SuffixSorted(rows, l);
    OlderIsSuffix(rows[l..], rows[l - 1].createdAt);
    OlderSorted(rows[l..], rows[l - 1].createdAt);
  }

  /** Every page holds rows of the list. */
  lemma {:induction false} PageWithin(rows: seq<Notification>, l: nat, i: nat, r: Notification)
    requires l >= 1 && SortedRows(rows) && i < |Walk(rows, l)| && r in Walk(rows, l)[i]
    ensures r in rows
    decreases |rows|
  {
    if |rows| > l {
      RestOfWalk(rows, l);
      if i > 0 {
        assert Walk(rows, l)[i] == Walk(rows, l)[1..][i - 1];
        PageWithin(Older(rows[l..], rows[l - 1].createdAt), l, i - 1, r);
      }
    }
  }

  /** Collected rows are exactly those not skipped. */
  lemma {:induction false} WalkContents(rows: seq<Notification>, l: nat, r: Notification)
    requires l >= 1 && SortedRows(rows)
    ensures r in Flatten(Walk(rows, l)) <==> r in rows && !Skipped(Walk(rows, l), r)
    decreases |rows|
  {
    if |rows| <= l {
      WholeInbox(rows, r);
    } else {
      var c := rows[l - 1].createdAt;
      var rest := Older(rows[l..], c);
      RestOfWalk(rows, l);
      WalkContents(rest, l, r);
      FlattenSplits(Walk(rows, l), r);
      SkippedSplits(Walk(rows, l), r);
      if r in rows[..l] {
        PageRowStays(rows, l, r);
      } else {
        TailRow(rows, l, r);
      }
    }
  }

  lemma FlattenSplits(pages: seq<seq<Notification>>, r: Notification)
    requires pages != []
    ensures r in Flatten(pages) <==> r in pages[0] || r in Flatten(pages[1..])
  {}

  /** A row after the first page is skipped there exactly if it is not in the rest. */
  lemma TailRow(rows: seq<Notification>, l: nat, r: Notification)
    requires 1 <= l < |rows| && SortedRows(rows) && r !in rows[..l]
    ensures r in rows <==> r in rows[l..]
    ensures r in rows ==>
      (r in Older(rows[l..], rows[l - 1].createdAt) <==> !SkippedAfter(rows[..l], r))
  {
    assert rows == rows[..l] + rows[l..];
    RestOfWalk(rows, l);
    if r in rows[l..] { TailIsAfter(rows, l, r); }
  }

  lemma WholeInbox(rows: seq<Notification>, r: Notification)
    requires SortedRows(rows)
    ensures Flatten([rows]) == rows
    ensures r in rows ==> !Skipped([rows], r)
  {
    assert Flatten([rows]) == rows + [];
    if r in rows {
      assert rows[..|rows|] == rows;
      LastIsLast(rows, |rows|, r);
    }
  }

  lemma SkippedSplits(pages: seq<seq<Notification>>, r: Notification)
    requires pages != []
    ensures Skipped(pages, r) <==> SkippedAfter(pages[0], r) || Skipped(pages[1..], r)
  {
    if Skipped(pages, r) && !SkippedAfter(pages[0], r) {
      var i :| 0 <= i < |pages| && SkippedAfter(pages[i], r);
      assert SkippedAfter(pages[1..][i - 1], r);
    }
    if Skipped(pages[1..], r) {
      var i :| 0 <= i < |pages[1..]| && SkippedAfter(pages[1..][i], r);
      assert SkippedAfter(pages[i + 1], r);
    }
  }

  /** A row on the first page is skipped by no page. */
  lemma PageRowStays(rows: seq<Notification>, l: nat, r: Notification)
    requires 1 <= l < |rows| && SortedRows(rows) && r in rows[..l]
    ensures var c := rows[l - 1].createdAt;
      !SkippedAfter(rows[..l], r) && !Skipped(Walk(Older(rows[l..], c), l), r)
  {
    var c := rows[l - 1].createdAt;
    var rest := Older(rows[l..], c);
    RestOfWalk(rows, l);
    forall i, x | 0 <= i < |Walk(rest, l)| && x in Walk(rest, l)[i] ensures x.createdAt < c {
      PageWithin(rest, l, i, x);
    }
    LastIsLast(rows, l, r);
    NotSkippedByOlder(Walk(rest, l), r, c);
  }

  /** A row on a page is not after the page's last row, and not older than it. */
  lemma LastIsLast(rows: seq<Notification>, k: nat, r: Notification)
    requires SortedRows(rows) && 1 <= k <= |rows| && r in rows[..k]
    ensures !SkippedAfter(rows[..k], r) && r.createdAt >= rows[k - 1].createdAt
  {
    var i :| 0 <= i < k && rows[i] == r;
    var last := rows[k - 1];
    assert r in Elements(rows) && last in Elements(rows);
    assert r == last || Newer(r, last);
    assert Newer(r, last) && Newer(last, r) ==> Newer(r, r);
  }

  /** A row after a page sorts after its last row. */
  lemma TailIsAfter(rows: seq<Notification>, k: nat, r: Notification)
    requires SortedRows(rows) && 1 <= k <= |rows| && r in rows[k..]
    ensures Newer(rows[k - 1], r) && r !in rows[..k]
    ensures SkippedAfter(rows[..k], r) <==> r.createdAt == rows[k - 1].createdAt
  {
    var j :| 0 <= j < |rows[k..]| && rows[k..][j] == r;
    assert rows[k + j] == r && Newer(rows[k - 1], rows[k + j]);
    forall i | 0 <= i < k ensures rows[i] != r {
      assert Newer(rows[i], rows[k + j]);
      LessIrreflexive(r.id);
    }
  }

  lemma NotSkippedByOlder(pages: seq<seq<Notification>>, r: Notification, c: Int64)
    requires r.createdAt >= c
    requires forall i, x | 0 <= i < |pages| && x in pages[i] :: x.createdAt < c
    ensures !Skipped(pages, r)
  {
    forall i | 0 <= i < |pages| ensures !SkippedAfter(pages[i], r) {
      if pages[i] != [] { assert pages[i][|pages[i]| - 1] in pages[i]; }
    }
  }

  /** The collected rows come newest first, without duplicates. */
  lemma {:induction false} WalkAscends(rows: seq<Notification>, l: nat)
    requires l >= 1 && SortedRows(rows)
    ensures Ascending(Newer, Flatten(Walk(rows, l)))
    decreases |rows|
  {
    if |rows| <= l {
      assert Flatten([rows]) == rows + [];
    } else {
      var rest := Older(rows[l..], rows[l - 1].createdAt);
      RestOfWalk(rows, l);
      WalkAscends(rest, l);
      var back := Flatten(Walk(rest, l));
      forall i, j | 0 <= i < l && 0 <= j < |back| ensures Newer(rows[i], back[j]) {
        assert back[j] in back;
        WalkContents(rest, l, back[j]);
        assert i < l - 1 ==> Newer(rows[i], rows[l - 1]);
      }
      assert Flatten(Walk(rows, l)) == rows[..l] + back;
    }
  }

  lemma {:induction false} WalkLength(rows: seq<Notification>, l: nat)
    requires l >= 1
    ensures |Walk(rows, l)| == 1 || (|Walk(rows, l)| - 1) * l < |rows|
    decreases |rows|
  {
    if |rows| > l {
      var rest := Older(rows[l..], rows[l - 1].createdAt);
      WalkLength(rest, l);
      OneMore(|Walk(rest, l)|, l);
      assert |Walk(rows, l)| == |Walk(rest, l)| + 1;
    }
  }

  lemma OneMore(k: nat, l: nat)
    requires k >= 1
    ensures k * l == (k - 1) * l + l
  {}

  lemma MulMonotone(a: nat, b: nat, l: nat)
    requires a >= b
    ensures a * l >= b * l
  {
    assert a * l == b * l + (a - b) * l;
  }

  /** At most max(1, ceil(n / l)) pages. */
  lemma CeilBound(pages: nat, n: nat, l: nat)
    requires l >= 1 && pages >= 1 && (pages == 1 || (pages - 1) * l < n)
    ensures pages <= if n <= l then 1 else (n + l - 1) / l
  {
    var q := (n + l - 1) / l;
    assert n + l - 1 == q * l + (n + l - 1) % l;
    if pages - 1 >= q { MulMonotone(pages - 1, q, l); }
    if pages - 1 >= 1 { MulMonotone(pages - 1, 1, l); }
  }

  /** The j-th multiple of the page size. */
  function CutAt(j: nat, l: nat): nat {
    j * l
  }

  /** No timestamp straddles a multiple of the page size. */
  ghost predicate CleanCuts(rows: seq<Notification>, l: nat)
    requires l >= 1
  {
    forall j: nat | 0 < CutAt(j, l) < |rows| :: rows[CutAt(j, l) - 1].createdAt != rows[CutAt(j, l)].createdAt
  }

  /** A cut inside a group of equal timestamps loses a row. */
  lemma DirtyCutLoses(rows: seq<Notification>, l: nat)
    requires 1 <= l < |rows| && SortedRows(rows) && rows[l - 1].createdAt == rows[l].createdAt
    ensures Flatten(Walk(rows, l)) != rows
  {
    var lost := rows[l];
    RestOfWalk(rows, l);
    assert rows[l..][0] == lost && lost in rows;
    TailIsAfter(rows, l, lost);
    WalkContents(rows, l, lost);
  }

  /** A clean cut leaves the whole tail to the rest of the walk. */
  lemma CleanCutContinues(rows: seq<Notification>, l: nat)
    requires 1 <= l < |rows| && SortedRows(rows) && rows[l - 1].createdAt != rows[l].createdAt
    ensures Flatten(Walk(rows, l)) == rows[..l] + Flatten(Walk(rows[l..], l))
    ensures Flatten(Walk(rows, l)) == rows <==> Flatten(Walk(rows[l..], l)) == rows[l..]
  {
    assert Newer(rows[l - 1], rows[l]);
    RestOfWalk(rows, l);
    assert Older(rows[l..], rows[l - 1].createdAt) == rows[l..];
    var all := rows[..l] + Flatten(Walk(rows[l..], l));
    assert all[l..] == Flatten(Walk(rows[l..], l));
    assert rows == rows[..l] + rows[l..];
  }

  /** The walk loses nothing exactly when no group of equal timestamps is cut. */
  lemma {:induction false} FullIffCleanCuts(rows: seq<Notification>, l: nat)
    requires l >= 1 && SortedRows(rows)
    ensures Flatten(Walk(rows, l)) == rows <==> CleanCuts(rows, l)
    decreases |rows|
  {
    if |rows| <= l {
      assert Flatten([rows]) == rows + [];
      forall j: nat ensures CutAt(j, l) == 0 || CutAt(j, l) >= l {
        if j > 0 { MulMonotone(j, 1, l); }
      }
    } else {
      CutsShift(rows, l);
      if rows[l - 1].createdAt == rows[l].createdAt {
        DirtyCutLoses(rows, l);
      } else {
        CleanCutContinues(rows, l);
        SuffixSorted(rows, l);
        FullIffCleanCuts(rows[l..], l);
      }
    }
  }

  lemma CutAtShift(j: nat, l: nat)
    requires j >= 1
    ensures CutAt(j, l) == CutAt(j - 1, l) + l
    ensures j > 1 ==> CutAt(j - 1, l) >= l
  {
    OneMore(j, l);
    MulMonotone(j - 1, if j > 1 then 1 else 0, l);
  }

  lemma CleanTail(rows: seq<Notification>, l: nat)
    requires 1 <= l < |rows| && CleanCuts(rows, l)
    ensures rows[l - 1].createdAt != rows[l].createdAt && CleanCuts(rows[l..], l)
  {
    var tail := rows[l..];
    CutAtShift(1, l);
    forall j: nat | 0 < CutAt(j, l) < |tail| ensures tail[CutAt(j, l) - 1].createdAt != tail[CutAt(j, l)].createdAt {
      CutAtShift(j + 1, l);
      assert CutAt(j + 1, l) == CutAt(j, l) + l;
    }
  }

  lemma CutsShift(rows: seq<Notification>, l: nat)
    requires 1 <= l < |rows|
    ensures CleanCuts(rows, l) <==> rows[l - 1].createdAt != rows[l].createdAt && CleanCuts(rows[l..], l)
  {
    if CleanCuts(rows, l) { CleanTail(rows, l); }
    if rows[l - 1].createdAt != rows[l].createdAt && CleanCuts(rows[l..], l) {
      forall j: nat | 0 < CutAt(j, l) < |rows| ensures rows[CutAt(j, l) - 1].createdAt != rows[CutAt(j, l)].createdAt {
        CutAtShift(j, l);
      }
    }
  }

  // ---- Main results, at the handler ----

  lemma InboxSorted(s: MemState, r: Request)
    requires Filed(s)
    ensures SortedRows(Inbox(s, r)) && Inbox(s, r) == ListFrom(s, r, None)
  {
    MatchingIsOrdered(s, QueryFor(r, None));
  }

  /** The inbox is every stored row of the tenant and user, or every unread one. */
  lemma InboxContents(s: MemState, r: Request, n: Notification)
    requires Filed(s)
    ensures n in Inbox(s, r) <==> (
      && n.id in s.notifs && s.notifs[n.id] == n && n.tenant == r.tenant && n.user == r.user
      && (r.unreadOnly ==> n.status != Read))
  {
    MatchingIsOrdered(s, QueryFor(r, None));
    assert n in Inbox(s, r) <==> n in Elements(Inbox(s, r));
  }

  /** A client can complete a walk from the first page exactly when every cursor on
      the way is positive; with positive timestamps it always can. */
  lemma WalkCompletesIff(s: MemState, r: Request)
    requires Filed(s)
    ensures (exists pages :: IsWalk(s, r, [], pages)) <==> CursorsPositive(Inbox(s, r), ClampLimit(r.limit))
    ensures (forall n | n in Inbox(s, r) :: n.createdAt > 0) ==> CursorsPositive(Inbox(s, r), ClampLimit(r.limit))
  {
    var l := ClampLimit(r.limit);
    var rows := Inbox(s, r);
    InboxSorted(s, r);
    WalkFrom(s, r, [], Walk(rows, l));
    if pages :| IsWalk(s, r, [], pages) {
      WalkFrom(s, r, [], pages);
    }
    if forall n | n in rows :: n.createdAt > 0 {
      PositiveCursors(rows, l);
    }
  }

  lemma {:induction false} PositiveCursors(rows: seq<Notification>, l: nat)
    requires l >= 1 && SortedRows(rows) && forall n | n in rows :: n.createdAt > 0
    ensures CursorsPositive(rows, l)
    decreases |rows|
  {
    if |rows| > l {
      RestOfWalk(rows, l);
      PositiveCursors(Older(rows[l..], rows[l - 1].createdAt), l);
    }
  }

  /** How many pages there are, that their rows are `rows` in order without those
      that tie with a page's last row and sort after it, and when that is all of
      `rows`. */
  ghost predicate Accounts(rows: seq<Notification>, l: nat, pages: seq<seq<Notification>>)
    requires l >= 1
  {
    && |pages| <= (if |rows| <= l then 1 else (|rows| + l - 1) / l)
    && Ascending(Newer, Flatten(pages))
    && (forall n :: n in Flatten(pages) <==> n in rows && !Skipped(pages, n))
    && (Flatten(pages) == rows <==> CleanCuts(rows, l))
  }

  /** The exact account of a completed walk. */
  lemma WalkAccount(s: MemState, r: Request, pages: seq<seq<Notification>>)
    requires Filed(s) && IsWalk(s, r, [], pages)
    ensures Accounts(Inbox(s, r), ClampLimit(r.limit), pages)
  {
    InboxSorted(s, r);
    WalkFrom(s, r, [], pages);
    ListAccount(Inbox(s, r), ClampLimit(r.limit));
  }

  lemma ListAccount(rows: seq<Notification>, l: nat)
    requires l >= 1 && SortedRows(rows)
    ensures Accounts(rows, l, Walk(rows, l))
  {
    var pages := Walk(rows, l);
    PageBound(rows, l);
    WalkAscends(rows, l);
    FullIffCleanCuts(rows, l);
    forall n ensures n in Flatten(pages) <==> n in rows && !Skipped(pages, n) {
      WalkContents(rows, l, n);
    }
  }

  lemma PageBound(rows: seq<Notification>, l: nat)
    requires l >= 1
    ensures |Walk(rows, l)| <= if |rows| <= l then 1 else (|rows| + l - 1) / l
  {
    WalkLength(rows, l);
    CeilBound(|Walk(rows, l)|, |rows|, l);
  }

  /** Distinct timestamps: nothing is lost. */
  lemma DistinctTimesLoseNothing(s: MemState, r: Request, pages: seq<seq<Notification>>)
    requires Filed(s) && IsWalk(s, r, [], pages)
    requires forall a, b | a in Inbox(s, r) && b in Inbox(s, r) && a.createdAt == b.createdAt :: a == b
    ensures Flatten(pages) == Inbox(s, r)
  {
    var rows := Inbox(s, r);
    InboxSorted(s, r);
    WalkAccount(s, r, pages);
    forall k | 0 < k < |rows| ensures rows[k - 1].createdAt != rows[k].createdAt {
      assert Newer(rows[k - 1], rows[k]);
      LessIrreflexive(rows[k].id);
      assert rows[k - 1] in rows && rows[k] in rows;
    }
  }

  /** A store reached from empty by two creates of one user. */
  lemma TwoRows(a: Notification, b: Notification, r: Request) returns (s: MemState)
    requires a.id != [] && b.id != [] && a.id != b.id && NotifKey(a) != NotifKey(b)
    requires Wanted(a, QueryFor(r, None)) && Wanted(b, QueryFor(r, None))
    ensures Filed(EMPTY) && s == MemRun(EMPTY, [Create(a, []), Create(b, [])]).0
    ensures Filed(s) && Matching(s, QueryFor(r, None)) == {a, b}
  {
    var s1 := MemStep(EMPTY, Create(a, [])).0;
    StepKeepsConsistent(EMPTY, Create(a, []));
    StepKeepsConsistent(s1, Create(b, []));
    RunOfOne(s1, Create(b, []));
    RunCons(EMPTY, Create(a, []), [Create(b, [])]);
    assert [Create(a, [])] + [Create(b, [])] == [Create(a, []), Create(b, [])];
    s := MemStep(s1, Create(b, [])).0;
    TwoMatch(s, a, b, QueryFor(r, None));
  }

  lemma TwoMatch(s: MemState, a: Notification, b: Notification, q: Query)
    requires s.notifs == map[a.id := a, b.id := b] && Wanted(a, q) && Wanted(b, q)
    ensures a.id != b.id ==> Matching(s, q) == {a, b}
  {
    if a.id != b.id {
      assert s.notifs[a.id] == a && s.notifs[b.id] == b;
    }
  }

  /** Both failures are reachable: two rows with one timestamp, read one per page. If
      the timestamp is positive the walk completes and loses a row; if it is not, the
      handler refuses its own cursor and no walk completes. */
  lemma TieLosesOrRefuses(a: Notification, b: Notification, r: Request) returns (s: MemState)
    requires a.id != [] && b.id != [] && a.id != b.id && NotifKey(a) != NotifKey(b)
    requires Wanted(a, QueryFor(r, None)) && Wanted(b, QueryFor(r, None))
    requires a.createdAt == b.createdAt && r.limit == 1
    ensures Filed(EMPTY) && s == MemRun(EMPTY, [Create(a, []), Create(b, [])]).0 && Filed(s)
    ensures if a.createdAt > 0
      then (exists pages :: IsWalk(s, r, [], pages))
        && forall pages | IsWalk(s, r, [], pages) :: exists lost :: lost in Inbox(s, r) && lost !in Flatten(pages)
      else forall pages :: !IsWalk(s, r, [], pages)
  {
    s := TwoRows(a, b, r);
    InboxSorted(s, r);
    var rows := Inbox(s, r);
    assert |{a, b}| == 2 && |rows| == 2;
    assert rows[0] in Elements(rows) && rows[1] in Elements(rows);
    WalkCompletesIff(s, r);
    if a.createdAt > 0 {
      assert forall n | n in rows :: n in Elements(rows);
      forall pages | IsWalk(s, r, [], pages) ensures exists lost :: lost in rows && lost !in Flatten(pages) {
        TieLost(s, r, pages);
      }
    }
  }

  lemma TieLost(s: MemState, r: Request, pages: seq<seq<Notification>>)
    requires Filed(s) && IsWalk(s, r, [], pages) && r.limit == 1
    requires |Inbox(s, r)| == 2 && Inbox(s, r)[0].createdAt == Inbox(s, r)[1].createdAt
    ensures exists lost :: lost in Inbox(s, r) && lost !in Flatten(pages)
  {
    var rows := Inbox(s, r);
    InboxSorted(s, r);
    WalkFrom(s, r, [], pages);
    assert Older(rows[1..], rows[0].createdAt) == [] by {
      assert rows[1..][1..] == [];
    }
    assert pages == [rows[..1]] + [[]];
    assert Flatten(pages) == rows[..1] by {
      assert pages[1..] == [[]] && pages[1..][1..] == [];
      assert Flatten(pages[1..]) == [] + Flatten([]);
    }
    LessIrreflexive(rows[0].id);
    assert Newer(rows[0], rows[1]);
    assert rows[1] in rows && rows[1] !in rows[..1];
  }
}
