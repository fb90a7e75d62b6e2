/** A stable insertion sort over any strict order, as `Array.prototype.sort` with a comparator. */
module StableSort {

  /** Behind everything that it does not come before. */
  function InsertBy<T>(s: seq<T>, x: T, before: (T, T) -> bool): seq<T> {
    if s == [] || !before(x, s[|s| - 1]) then s + [x] else InsertBy(s[..|s| - 1], x, before) + [s[|s| - 1]]
  }

  function SortBy<T>(s: seq<T>, before: (T, T) -> bool): seq<T> {
    if s == [] then [] else InsertBy(SortBy(s[..|s| - 1], before), s[|s| - 1], before)
  }

  lemma {:induction false} InsertByKeepsElements<T>(s: seq<T>, x: T, before: (T, T) -> bool)
    ensures multiset(InsertBy(s, x, before)) == multiset(s) + multiset{x}
  {
    if s != [] && before(x, s[|s| - 1]) {
      InsertByKeepsElements(s[..|s| - 1], x, before);
      assert s == s[..|s| - 1] + [s[|s| - 1]];
    }
  }

  lemma {:induction false} SortByKeepsElements<T>(s: seq<T>, before: (T, T) -> bool)
    ensures multiset(SortBy(s, before)) == multiset(s)
  {
    if s != [] {
      SortByKeepsElements(s[..|s| - 1], before);
      InsertByKeepsElements(SortBy(s[..|s| - 1], before), s[|s| - 1], before);
      assert s == s[..|s| - 1] + [s[|s| - 1]];
    }
  }

  ghost predicate OrderedBy<T(!new)>(s: seq<T>, before: (T, T) -> bool) {
    forall i, j | 0 <= i < j < |s| :: before(s[i], s[j])
  }

  ghost predicate StrictOrder<T(!new)>(before: (T, T) -> bool) {
    (forall x, y :: before(x, y) ==> !before(y, x))
    && (forall x, y, z :: before(x, y) && before(y, z) ==> before(x, z))
  }

  /** The elements of a list are comparable with another. */
  ghost predicate Comparable<T(!new)>(s: seq<T>, x: T, before: (T, T) -> bool) {
    forall y | y in s :: before(x, y) || before(y, x)
  }

  lemma SameElements<T(!new)>(r: seq<T>, s: seq<T>, x: T)
    requires multiset(r) == multiset(s) + multiset{x}
    ensures |r| == |s| + 1 && forall y :: y in r <==> y in s || y == x
  {
    assert |multiset(r)| == |r| && |multiset(s)| == |s|;
    forall y ensures y in r <==> y in s || y == x {
      assert y in r <==> y in multiset(r);
      assert y in s <==> y in multiset(s);
    }
  }

  lemma {:induction false} InsertByKeepsOrder<T(!new)>(s: seq<T>, x: T, before: (T, T) -> bool)
    requires StrictOrder(before) && OrderedBy(s, before) && Comparable(s, x, before)
    ensures OrderedBy(InsertBy(s, x, before), before)
  {
    if s != [] {
      var front, last := s[..|s| - 1], s[|s| - 1];
      assert last in s && forall y | y in front :: y in s;
      if before(x, last) {
        InsertByKeepsOrder(front, x, before);
        var r := InsertBy(front, x, before);
        InsertByKeepsElements(front, x, before);
        SameElements(r, front, x);
        forall i | 0 <= i < |r| ensures before(r[i], last) {
          assert r[i] in r;
          if r[i] != x {
            var k :| 0 <= k < |front| && front[k] == r[i];
            assert s[k] == r[i];
          }
        }
      }
    }
  }

  /** Sorting leaves a list in order alone. */
  lemma {:induction false} SortOfOrdered<T(!new)>(s: seq<T>, before: (T, T) -> bool)
    requires StrictOrder(before) && OrderedBy(s, before)
    ensures SortBy(s, before) == s
  {
    if s != [] {
      var front, last := s[..|s| - 1], s[|s| - 1];
      SortOfOrdered(front, before);
      if front != [] {
        assert before(s[|s| - 2], last);
      }
      assert front + [last] == s;
    }
  }

  /** Elements that are pairwise comparable come out in order. */
  lemma {:induction false} SortByOrders<T(!new)>(s: seq<T>, before: (T, T) -> bool)
    requires StrictOrder(before) && forall i, j | 0 <= i < j < |s| :: before(s[i], s[j]) || before(s[j], s[i])
    ensures OrderedBy(SortBy(s, before), before)
  {
    if s != [] {
      var front, last := s[..|s| - 1], s[|s| - 1];
      SortByOrders(front, before);
      var r := SortBy(front, before);
      SortByKeepsElements(front, before);
      forall y | y in r ensures before(last, y) || before(y, last) {
        assert y in multiset(r) && y in multiset(front);
        var k :| 0 <= k < |front| && front[k] == y;
        assert s[k] == y;
      }
      InsertByKeepsOrder(r, last, before);
    }
  }

  lemma LastIsLatest<T(!new)>(s: seq<T>, y: T, before: (T, T) -> bool)
    requires s != [] && OrderedBy(s, before) && y in multiset(s)
    ensures y == s[|s| - 1] || before(y, s[|s| - 1])
  {
  }

  lemma WithoutLast<T(!new)>(s: seq<T>)
    requires s != []
    ensures multiset(s[..|s| - 1]) == multiset(s) - multiset{s[|s| - 1]} && s[|s| - 1] in multiset(s)
  {
    assert s == s[..|s| - 1] + [s[|s| - 1]];
  }

  lemma SameLast<T(!new)>(a: seq<T>, b: seq<T>, before: (T, T) -> bool)
    requires StrictOrder(before) && OrderedBy(a, before) && OrderedBy(b, before)
    requires multiset(a) == multiset(b) && a != [] && b != []
    ensures a[|a| - 1] == b[|b| - 1]
  {
    WithoutLast(a);
    WithoutLast(b);
    LastIsLatest(b, a[|a| - 1], before);
    LastIsLatest(a, b[|b| - 1], before);
  }

  lemma SameEnds<T>(a: seq<T>, b: seq<T>)
    requires a != [] && b != [] && a[..|a| - 1] == b[..|b| - 1] && a[|a| - 1] == b[|b| - 1]
    ensures a == b
  {
    assert a == a[..|a| - 1] + [a[|a| - 1]] && b == b[..|b| - 1] + [b[|b| - 1]];
  }

  lemma SameFront<T(!new)>(a: seq<T>, b: seq<T>)
    requires a != [] && b != [] && a[|a| - 1] == b[|b| - 1] && multiset(a) == multiset(b)
    ensures multiset(a[..|a| - 1]) == multiset(b[..|b| - 1])
  {
    WithoutLast(a);
    WithoutLast(b);
  }

  /** A list in order is determined by what it holds. */
  lemma {:induction false} OrderedIsUnique<T(!new)>(a: seq<T>, b: seq<T>, before: (T, T) -> bool)
    requires StrictOrder(before) && OrderedBy(a, before) && OrderedBy(b, before) && multiset(a) == multiset(b)
    ensures a == b
  {
    assert |multiset(a)| == |a| && |multiset(b)| == |b|;
    if a != [] {
      SameLast(a, b, before);
      SameFront(a, b);
      OrderedIsUnique(a[..|a| - 1], b[..|b| - 1], before);
      SameEnds(a, b);
    }
  }
}
