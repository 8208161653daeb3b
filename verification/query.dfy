/** What the store's query chains do to a table's rows: `.eq`, `.not(is null)` and
    `.gte` keep the rows a predicate accepts, `.order` sorts by a timestamp column
    (ascending or descending) and `.limit` keeps a prefix.  Sorting is stable: rows
    with equal keys keep the order in which the table holds them. */
module Query {

  /** `a` may come before `b` in a result ordered by the key, in the given direction. */
  predicate InOrder(a: int, b: int, ascending: bool)
  {
    if ascending then a <= b else a >= b
  }

  /** `s` is ordered by `key` in the given direction. */
  ghost predicate Ordered<T>(s: seq<T>, key: T -> int, ascending: bool)
  {
    forall i, j :: 0 <= i < j < |s| ==> InOrder(key(s[i]), key(s[j]), ascending)
  }

  /** `sub` is `s` with some elements left out, the others kept in their order. */
  ghost predicate IsSubsequence<T>(sub: seq<T>, s: seq<T>)
    decreases |s|
  {
    sub == [] ||
    (s != [] && ((sub[0] == s[0] && IsSubsequence(sub[1..], s[1..])) || IsSubsequence(sub, s[1..])))
  }

  // ---------------------------------------------------------------------------
  // Filtering

  /** The rows of `s` that `p` accepts, in their order. */
  function Filter<T(!new)>(s: seq<T>, p: T -> bool): (r: seq<T>)
    ensures |r| <= |s|
    ensures forall x :: x in r <==> x in s && p(x)
  {
    if s == [] then [] else (if p(s[0]) then [s[0]] else []) + Filter(s[1..], p)
  }

  /** Filtering leaves out rows and keeps the order of the rest. */
  lemma {:induction false} FilterIsSubsequence<T(!new)>(s: seq<T>, p: T -> bool)
    ensures IsSubsequence(Filter(s, p), s)
  {
    if s != [] {
      FilterIsSubsequence(s[1..], p);
      var rest := Filter(s[1..], p);
      if p(s[0]) {
        assert Filter(s, p) == [s[0]] + rest;
        assert ([s[0]] + rest)[1..] == rest;
      } else {
        assert Filter(s, p) == rest;
        if rest != [] {
          assert IsSubsequence(rest, s[1..]);
        }
      }
    }
  }

  /** Filtering keeps every accepted row as often as it occurs and drops every other. */
  lemma {:induction false} FilterCount<T(!new)>(s: seq<T>, p: T -> bool, x: T)
    ensures multiset(Filter(s, p))[x] == if p(x) then multiset(s)[x] else 0
  {
    if s != [] {
      FilterCount(s[1..], p, x);
      assert s == [s[0]] + s[1..];
    }
  }

  /** FilterCount for every row at once. */
  lemma FilterCounts<T(!new)>(s: seq<T>, p: T -> bool)
    ensures forall x :: multiset(Filter(s, p))[x] == if p(x) then multiset(s)[x] else 0
  {
    forall x ensures multiset(Filter(s, p))[x] == if p(x) then multiset(s)[x] else 0 {
      FilterCount(s, p, x);
    }
  }

  /** A predicate that accepts every row keeps the whole sequence. */
  lemma {:induction false} FilterAll<T(!new)>(s: seq<T>, p: T -> bool)
    requires forall x :: x in s ==> p(x)
    ensures Filter(s, p) == s
  {
    if s != [] {
      assert forall x :: x in s[1..] ==> x in s;
      FilterAll(s[1..], p);
    }
  }

  /** A predicate that accepts no row keeps nothing. */
  lemma {:induction false} FilterNone<T(!new)>(s: seq<T>, p: T -> bool)
    requires forall x :: x in s ==> !p(x)
    ensures Filter(s, p) == []
  {
    if s != [] {
      assert forall x :: x in s[1..] ==> x in s;
      FilterNone(s[1..], p);
    }
  }

  /** Two predicates that agree on the rows of `s` keep the same rows. */
  lemma {:induction false} FilterSame<T(!new)>(s: seq<T>, p: T -> bool, q: T -> bool)
    requires forall x :: x in s ==> p(x) == q(x)
    ensures Filter(s, p) == Filter(s, q)
  {
    if s != [] {
      assert forall x :: x in s[1..] ==> x in s;
      FilterSame(s[1..], p, q);
    }
  }

  /** Filtering a row in front of a sequence. */
  lemma FilterCons<T(!new)>(x: T, s: seq<T>, p: T -> bool)
    ensures Filter([x] + s, p) == (if p(x) then [x] else []) + Filter(s, p)
  {
    assert ([x] + s)[1..] == s;
  }

  /** Filtering twice keeps the rows both predicates accept, whichever goes first. */
  lemma {:induction false} FilterFilter<T(!new)>(s: seq<T>, p: T -> bool, q: T -> bool)
    ensures Filter(Filter(s, p), q) == Filter(Filter(s, q), p)
  {
    if s != [] {
      FilterFilter(s[1..], p, q);
      var x, fp, fq := s[0], Filter(s[1..], p), Filter(s[1..], q);
      if p(x) {
        assert Filter(s, p) == [x] + fp;
        FilterCons(x, fp, q);
      } else {
        assert Filter(s, p) == fp;
      }
      if q(x) {
        assert Filter(s, q) == [x] + fq;
        FilterCons(x, fq, p);
      } else {
        assert Filter(s, q) == fq;
      }
    }
  }

  /** Filtering an ordered sequence leaves it ordered. */
  lemma {:induction false} FilterOrdered<T(!new)>(s: seq<T>, p: T -> bool, key: T -> int, ascending: bool)
    requires Ordered(s, key, ascending)
    ensures Ordered(Filter(s, p), key, ascending)
  {
    if s != [] {
      FilterOrdered(s[1..], p, key, ascending);
      var rest := Filter(s[1..], p);
      if p(s[0]) {
        var r := [s[0]] + rest;
        forall i, j | 0 <= i < j < |r| ensures InOrder(key(r[i]), key(r[j]), ascending) {
          if i == 0 {
            assert r[j] in s[1..];
            var k :| 0 <= k < |s[1..]| && s[1..][k] == r[j];
            assert s[k + 1] == r[j];
          } else {
            assert r[i] == rest[i - 1] && r[j] == rest[j - 1];
          }
        }
      }
    }
  }

  // ---------------------------------------------------------------------------
  // Ordering

  /** Puts `x` into `t` before the first row that may not come before it. */
  function Insert<T>(x: T, t: seq<T>, key: T -> int, ascending: bool): (r: seq<T>)
    ensures multiset(r) == multiset(t) + multiset{x}
    ensures Ordered(t, key, ascending) ==> Ordered(r, key, ascending)
  {
    if t == [] then [x]
    else if InOrder(key(x), key(t[0]), ascending) then
      InsertFront(x, t, key, ascending);
      [x] + t
    else
      var rest := Insert(x, t[1..], key, ascending);
      InsertBehind(x, t, rest, key, ascending);
      [t[0]] + rest
  }

  lemma InsertFront<T>(x: T, t: seq<T>, key: T -> int, ascending: bool)
    requires t != [] && InOrder(key(x), key(t[0]), ascending)
    ensures Ordered(t, key, ascending) ==> Ordered([x] + t, key, ascending)
  {
    assert t == [t[0]] + t[1..];
  }

  lemma InsertBehind<T>(x: T, t: seq<T>, rest: seq<T>, key: T -> int, ascending: bool)
    requires t != [] && !InOrder(key(x), key(t[0]), ascending)
    requires multiset(rest) == multiset(t[1..]) + multiset{x}
    requires Ordered(t[1..], key, ascending) ==> Ordered(rest, key, ascending)
    ensures multiset([t[0]] + rest) == multiset(t) + multiset{x}
    ensures Ordered(t, key, ascending) ==> Ordered([t[0]] + rest, key, ascending)
  {
    assert t == [t[0]] + t[1..];
    if Ordered(t, key, ascending) {
      var r := [t[0]] + rest;
      forall j | 0 < j < |r| ensures InOrder(key(t[0]), key(r[j]), ascending) {
        assert r[j] in multiset(rest);
        if r[j] != x {
          assert r[j] in multiset(t[1..]);
          var k :| 0 <= k < |t[1..]| && t[1..][k] == r[j];
          assert t[k + 1] == r[j];
        }
      }
    }
  }

  /** The rows of `s` ordered by `key` (`.order(column, { ascending })`). */
  function OrderBy<T>(s: seq<T>, key: T -> int, ascending: bool): (r: seq<T>)
    ensures Ordered(r, key, ascending)
    ensures multiset(r) == multiset(s)
  {
    if s == [] then []
    else
      assert s == [s[0]] + s[1..];
      Insert(s[0], OrderBy(s[1..], key, ascending), key, ascending)
  }

  /** Inserting a row and then filtering is filtering and then inserting the row if it is accepted. */
  lemma {:induction false} FilterInsert<T(!new)>(x: T, t: seq<T>, p: T -> bool, key: T -> int, ascending: bool)
    requires Ordered(t, key, ascending)
    ensures Filter(Insert(x, t, key, ascending), p)
         == if p(x) then Insert(x, Filter(t, p), key, ascending) else Filter(t, p)
  {
    if t == [] {
    } else if InOrder(key(x), key(t[0]), ascending) {
      FilterInsertFront(x, t, p, key, ascending);
    } else {
      assert Ordered(t[1..], key, ascending);
      FilterInsert(x, t[1..], p, key, ascending);
      FilterInsertBehind(x, t, p, key, ascending);
    }
  }

  lemma FilterInsertFront<T(!new)>(x: T, t: seq<T>, p: T -> bool, key: T -> int, ascending: bool)
    requires Ordered(t, key, ascending)
    requires t != [] && InOrder(key(x), key(t[0]), ascending)
    ensures Filter(Insert(x, t, key, ascending), p)
         == if p(x) then Insert(x, Filter(t, p), key, ascending) else Filter(t, p)
  {
    InsertBeforeHead(x, t, key, ascending);
    FilterCons(x, t, p);
    var ft := Filter(t, p);
    if p(x) && ft != [] {
      FilterHeadFollows(x, t, p, key, ascending);
      InsertBeforeHead(x, ft, key, ascending);
    }
  }

  lemma InsertBeforeHead<T>(x: T, s: seq<T>, key: T -> int, ascending: bool)
    requires s != [] && InOrder(key(x), key(s[0]), ascending)
    ensures Insert(x, s, key, ascending) == [x] + s
  {
  }

  /** A row that may come before the head of an ordered list may come before the head of any filter of it. */
  lemma FilterHeadFollows<T(!new)>(x: T, t: seq<T>, p: T -> bool, key: T -> int, ascending: bool)
    requires Ordered(t, key, ascending)
    requires t != [] && InOrder(key(x), key(t[0]), ascending)
    requires Filter(t, p) != []
    ensures InOrder(key(x), key(Filter(t, p)[0]), ascending)
  {
    var ft := Filter(t, p);
    assert ft[0] in t;
    var k :| 0 <= k < |t| && t[k] == ft[0];
    assert k == 0 || InOrder(key(t[0]), key(t[k]), ascending);
  }

  lemma FilterInsertBehind<T(!new)>(x: T, t: seq<T>, p: T -> bool, key: T -> int, ascending: bool)
    requires t != [] && !InOrder(key(x), key(t[0]), ascending)
    requires Filter(Insert(x, t[1..], key, ascending), p)
          == if p(x) then Insert(x, Filter(t[1..], p), key, ascending) else Filter(t[1..], p)
    ensures Filter(Insert(x, t, key, ascending), p)
         == if p(x) then Insert(x, Filter(t, p), key, ascending) else Filter(t, p)
  {
    var rest := Insert(x, t[1..], key, ascending);
    var ft1 := Filter(t[1..], p);
    assert Insert(x, t, key, ascending) == [t[0]] + rest;
    FilterCons(t[0], rest, p);
    if p(t[0]) {
      assert Filter(t, p) == [t[0]] + ft1;
      if p(x) {
        InsertPastHead(x, t[0], ft1, key, ascending);
      }
    } else {
      assert Filter(t, p) == ft1;
    }
  }

  lemma InsertPastHead<T>(x: T, y: T, s: seq<T>, key: T -> int, ascending: bool)
    requires !InOrder(key(x), key(y), ascending)
    ensures Insert(x, [y] + s, key, ascending) == [y] + Insert(x, s, key, ascending)
  {
    assert ([y] + s)[0] == y;
    assert ([y] + s)[1..] == s;
  }

  /** Filtering and ordering commute: the order of the kept rows does not depend on the dropped ones. */
  lemma {:induction false} FilterOrderBy<T(!new)>(s: seq<T>, p: T -> bool, key: T -> int, ascending: bool)
    ensures Filter(OrderBy(s, key, ascending), p) == OrderBy(Filter(s, p), key, ascending)
  {
    if s != [] {
      FilterOrderBy(s[1..], p, key, ascending);
      FilterInsert(s[0], OrderBy(s[1..], key, ascending), p, key, ascending);
      if p(s[0]) {
        assert Filter(s, p) == [s[0]] + Filter(s[1..], p);
        assert ([s[0]] + Filter(s[1..], p))[1..] == Filter(s[1..], p);
      } else {
        assert Filter(s, p) == Filter(s[1..], p);
      }
    }
  }

  // ---------------------------------------------------------------------------
  // Limiting

  /** The first `n` rows of `s`, or all of them when there are fewer (`.limit(n)`). */
  function Limit<T>(s: seq<T>, n: nat): (r: seq<T>)
    ensures |r| == if |s| < n then |s| else n
    ensures forall k :: 0 <= k < |r| ==> r[k] == s[k]
  {
    if |s| <= n then s else s[..n]
  }

  /** A limited prefix of an ordered sequence is ordered, and no row it leaves out
      comes before a row it keeps. */
  lemma LimitOrdered<T>(s: seq<T>, n: nat, key: T -> int, ascending: bool)
    requires Ordered(s, key, ascending)
    ensures Ordered(Limit(s, n), key, ascending)
    ensures forall j, k :: 0 <= k < |Limit(s, n)| <= j < |s| ==> InOrder(key(Limit(s, n)[k]), key(s[j]), ascending)
  {
  }
}
