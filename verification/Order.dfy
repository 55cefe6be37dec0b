/** Sorting, once for both row types. A sorted listing of a finite set under a
    strict total order exists and is unique, so a page built from it depends on
    the rows alone and not on the order a map or a table hands them out. */
module Order {

  ghost predicate StrictOrderOn<T(!new)>(lt: (T, T) -> bool, s: set<T>) {
    && (forall a | a in s :: !lt(a, a))
    && (forall a, b | a in s && b in s && a != b :: lt(a, b) || lt(b, a))
    && (forall a, b, c | a in s && b in s && c in s && lt(a, b) && lt(b, c) :: lt(a, c))
  }

  ghost predicate Ascending<T(!new)>(lt: (T, T) -> bool, xs: seq<T>) {
    forall i, j | 0 <= i < j < |xs| :: lt(xs[i], xs[j])
  }

  function Elements<T>(xs: seq<T>): set<T> {
    set x | x in xs
  }

  lemma ElementsSnoc<T>(xs: seq<T>, x: T)
    ensures Elements(xs + [x]) == Elements(xs) + {x}
  {}

  /** xs lists exactly the members of s, in order. */
  ghost predicate Lists<T(!new)>(lt: (T, T) -> bool, xs: seq<T>, s: set<T>) {
    Ascending(lt, xs) && Elements(xs) == s
  }

  /** One step of an insertion sort. */
  function Insert<T>(lt: (T, T) -> bool, x: T, xs: seq<T>): seq<T> {
    if xs == [] then [x]
    else if lt(x, xs[0]) then [x] + xs
    else [xs[0]] + Insert(lt, x, xs[1..])
  }

  lemma {:induction false} InsertLists<T(!new)>(lt: (T, T) -> bool, x: T, xs: seq<T>, s: set<T>)
    requires Lists(lt, xs, s) && x !in s && StrictOrderOn(lt, s + {x})
    ensures Lists(lt, Insert(lt, x, xs), s + {x})
  {
    if xs == [] {
      assert s == {};
    } else if lt(x, xs[0]) {
      forall j | 0 <= j < |xs| ensures lt(x, xs[j]) {
        assert xs[j] in s && xs[0] in s;
      }
    } else {
      var tail := xs[1..];
      InsertLists(lt, x, tail, s - {xs[0]});
      var rest := Insert(lt, x, tail);
      assert xs[0] in s;
      forall j | 0 <= j < |rest| ensures lt(xs[0], rest[j]) {
        assert rest[j] in Elements(rest);
        if rest[j] != x {
          assert rest[j] in tail;
        }
      }
      assert Elements([xs[0]] + rest) == {xs[0]} + Elements(rest);
    }
  }

  lemma {:induction false} ListsUnique<T(!new)>(lt: (T, T) -> bool, xs: seq<T>, ys: seq<T>, s: set<T>)
    requires StrictOrderOn(lt, s) && Lists(lt, xs, s) && Lists(lt, ys, s)
    ensures xs == ys
    decreases |xs|
  {
    assert xs != [] ==> xs[0] in s;
    assert ys != [] ==> ys[0] in s;
    if xs != [] && ys != [] {
      assert xs[0] == ys[0];
      ListsUnique(lt, xs[1..], ys[1..], s - {xs[0]});
      assert xs == [xs[0]] + xs[1..] && ys == [ys[0]] + ys[1..];
    }
  }

  lemma {:induction false} ListingExists<T(!new)>(lt: (T, T) -> bool, s: set<T>)
    requires StrictOrderOn(lt, s)
    ensures exists xs :: Lists(lt, xs, s)
  {
    if s == {} {
      assert Lists(lt, [], s);
    } else {
      var x :| x in s;
      ListingExists(lt, s - {x});
      var rest :| Lists(lt, rest, s - {x});
      InsertLists(lt, x, rest, s - {x});
      assert s == s - {x} + {x};
      assert Lists(lt, Insert(lt, x, rest), s);
    }
  }

  /** The sorted listing of a finite set. */
  ghost function Listing<T(!new)>(lt: (T, T) -> bool, s: set<T>): (xs: seq<T>)
    requires StrictOrderOn(lt, s)
    ensures Lists(lt, xs, s)
    ensures |xs| == |s|
  {
    ListingExists(lt, s);
    var xs :| Lists(lt, xs, s);
    ListingSize(lt, xs, s);
    xs
  }

  lemma {:induction false} ListingSize<T(!new)>(lt: (T, T) -> bool, xs: seq<T>, s: set<T>)
    requires StrictOrderOn(lt, s) && Lists(lt, xs, s)
    ensures |xs| == |s|
    decreases |xs|
  {
    if xs == [] {
      assert s == {};
    } else {
      assert xs[0] in s;
      ListingSize(lt, xs[1..], s - {xs[0]});
    }
  }

  /** sort.Slice over a slice without repeated members; ORDER BY over a table. */
  method Sort<T(!new)>(lt: (T, T) -> bool, input: seq<T>, ghost s: set<T>) returns (xs: seq<T>)
    requires StrictOrderOn(lt, s) && Elements(input) == s && |input| == |s|
    ensures xs == Listing(lt, s)
  {
    xs := [];
    var i := 0;
    ghost var done: set<T> := {};
    NoRepeats(input, s);
    while i < |input|
      invariant 0 <= i <= |input|
      invariant done == Elements(input[..i]) && Lists(lt, xs, done)
    {
      assert input[..i + 1] == input[..i] + [input[i]];
      assert input[i] in s && done <= s;
      assert done + {input[i]} <= s;
      assert input[i] !in done;
      InsertLists(lt, input[i], xs, done);
      xs := Insert(lt, input[i], xs);
      done := done + {input[i]};
      i := i + 1;
    }
    assert input[..i] == input;
    ListsUnique(lt, xs, Listing(lt, s), s);
  }

  /** As many positions as members: no member sits at two positions. */
  lemma {:induction false} NoRepeats<T(!new)>(xs: seq<T>, s: set<T>)
    requires Elements(xs) == s && |xs| == |s|
    ensures forall i, j | 0 <= i < j < |xs| :: xs[i] != xs[j]
  {
    if i, j :| 0 <= i < j < |xs| && xs[i] == xs[j] {
      var ys := xs[..j] + xs[j + 1..];
      forall x | x in s ensures x in ys {
        var k :| 0 <= k < |xs| && xs[k] == x;
        if k < j { assert ys[k] == x; }
        else if k == j { assert ys[i] == x; }
        else { assert ys[k - 1] == x; }
      }
      ElementsBound(ys);
      Subset(s, Elements(ys));
    }
  }

  lemma {:induction false} ElementsBound<T>(xs: seq<T>)
    ensures |Elements(xs)| <= |xs|
  {
    if xs == [] {
      assert Elements(xs) == {};
    } else {
      ElementsBound(xs[1..]);
      assert xs == [xs[0]] + xs[1..];
      assert Elements(xs) == {xs[0]} + Elements(xs[1..]);
    }
  }

  lemma {:induction false} Subset<T>(a: set<T>, b: set<T>)
    requires a <= b
    ensures |a| <= |b|
  {
    if a != {} {
      var x :| x in a;
      Subset(a - {x}, b - {x});
    }
  }

  ghost function Image<A(!new), B>(s: set<A>, f: A -> B): set<B> {
    set a | a in s :: f(a)
  }

  /** An injective image has as many members as the set. */
  lemma {:induction false} ImageSize<A(!new), B>(s: set<A>, f: A -> B)
    requires forall a, b | a in s && b in s && f(a) == f(b) :: a == b
    ensures |Image(s, f)| == |s|
  {
    if s != {} {
      var x :| x in s;
      ImageSize(s - {x}, f);
      assert Image(s, f) == Image(s - {x}, f) + {f(x)};
      assert f(x) !in Image(s - {x}, f);
    }
  }

  /** ORDER BY: a table's rows, handed out in any order, then sorted. */
  method OrderBy<T(!new)>(lt: (T, T) -> bool, s: set<T>) returns (xs: seq<T>)
    requires StrictOrderOn(lt, s)
    ensures xs == Listing(lt, s)
  {
    xs := [];
    var todo := s;
    while todo != {}
      invariant todo <= s && Elements(xs) == s - todo && |xs| == |s - todo|
      decreases |todo|
    {
      var x :| x in todo;
      assert s - (todo - {x}) == (s - todo) + {x};
      ElementsSnoc(xs, x);
      xs := xs + [x];
      todo := todo - {x};
    }
    assert s - todo == s;
    xs := Sort(lt, xs, s);
  }
}
