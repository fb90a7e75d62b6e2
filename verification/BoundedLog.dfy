/** The audit trail and the adjustment ledger: logs that are sorted and cut to their last records
    on every insertion.  They hold the greatest records of their whole history. */
module BoundedLog {
  import opened Timeline
  import opened Lifecycle

  lemma SortOfOrdered<T(!new)>(s: seq<T>, key: T -> Key)
    requires Ordered(s, key) && UniqueIds(s, key)
    ensures Sort(s, key) == s
  {
  }

  /** Storing a record that is there already changes nothing. */
  lemma StoreAgain<T(!new)>(s: seq<T>, x: T, key: T -> Key)
    requires Ordered(s, key) && UniqueIds(s, key)
    requires var k := Find(s, key(x).id, key); k != -1 && s[k] == x
    ensures Sort(Put(s, x, key), key) == s
  {
    assert Put(s, x, key) == s;
    SortOfOrdered(s, key);
  }

  lemma InsertSnoc<T(!new)>(s: seq<T>, l: T, x: T, key: T -> Key)
    ensures Insert(s + [l], x, key) == if Before(key(x), key(l)) then Insert(s, x, key) + [l] else s + [l, x]
  {
  }

  lemma SortSnoc<T(!new)>(s: seq<T>, x: T, key: T -> Key)
    ensures Sort(s + [x], key) == Insert(Sort(s, key), x, key)
  {
  }

  /** Cutting before an insertion loses nothing that survives the cut after it. */
  lemma {:induction false} CutThenInsert<T(!new)>(s: seq<T>, x: T, key: T -> Key, n: nat)
    ensures Last(Insert(Last(s, n), x, key), n) == Last(Insert(s, x, key), n)
  {
    if n > 0 && s != [] {
      var front, l := s[..|s| - 1], s[|s| - 1];
      var cut := Last(front, n - 1);
      CutThenInsert(front, x, key, n - 1);
      assert s == front + [l];
      CutOfSnoc(front, l, n);
      if Before(key(x), key(l)) {
        CutInside(front, cut, l, x, key, n);
      } else {
        CutAtEnd(front, cut, l, x, key, n);
      }
    }
  }

  lemma CutInside<T(!new)>(front: seq<T>, cut: seq<T>, l: T, x: T, key: T -> Key, n: nat)
    requires n > 0 && Before(key(x), key(l)) && Last(Insert(cut, x, key), n - 1) == Last(Insert(front, x, key), n - 1)
    ensures Last(Insert(cut + [l], x, key), n) == Last(Insert(front + [l], x, key), n)
  {
    InsertSnoc(front, l, x, key);
    InsertSnoc(cut, l, x, key);
    CutOfSnoc(Insert(cut, x, key), l, n);
    CutOfSnoc(Insert(front, x, key), l, n);
  }

  lemma CutAtEnd<T(!new)>(front: seq<T>, cut: seq<T>, l: T, x: T, key: T -> Key, n: nat)
    requires n > 0 && !Before(key(x), key(l)) && cut == Last(front, n - 1)
    ensures Last(Insert(cut + [l], x, key), n) == Last(Insert(front + [l], x, key), n)
  {
    InsertSnoc(front, l, x, key);
    InsertSnoc(cut, l, x, key);
    assert Last(cut + [l, x], n) == Last(front + [l, x], n);
  }

  lemma CutOfSnoc<T>(s: seq<T>, l: T, n: nat)
    requires n > 0
    ensures Last(s + [l], n) == Last(s, n - 1) + [l]
  {
  }

  /** The history without repeats: the first record under each id. */
  ghost function Distinct<T>(history: seq<T>, key: T -> Key): seq<T> {
    if history == [] then []
    else
      var before, x := Distinct(history[..|history| - 1], key), history[|history| - 1];
      if Find(before, key(x).id, key) == -1 then before + [x] else before
  }

  /** What insertion after insertion leaves. */
  ghost function LogOf<T(!new)>(history: seq<T>, key: T -> Key, n: nat): seq<T> {
    if history == [] then []
    else Append(LogOf(history[..|history| - 1], key, n), history[|history| - 1], key, n)
  }

  /** One id, one record: ids are derived from the whole record. */
  ghost predicate IdsIdentify<T(!new)>(history: seq<T>, key: T -> Key) {
    forall x, y | x in history && y in history && key(x).id == key(y).id :: x == y
  }

  lemma {:induction false} DistinctMembers<T(!new)>(history: seq<T>, key: T -> Key)
    requires IdsIdentify(history, key)
    ensures UniqueIds(Distinct(history, key), key)
    ensures forall x :: x in Distinct(history, key) <==> x in history
  {
    if history != [] {
      var front, x := history[..|history| - 1], history[|history| - 1];
      assert history == front + [x];
      DistinctMembers(front, key);
      var before := Distinct(front, key);
      var k := Find(before, key(x).id, key);
      if k != -1 {
        assert before[k] in before && before[k] in history;
        assert before[k] == x;
      }
    }
  }

  lemma LastMembers<T(!new)>(s: seq<T>, key: T -> Key, n: nat)
    requires Ordered(s, key) && UniqueIds(s, key)
    ensures Ordered(Last(s, n), key) && UniqueIds(Last(s, n), key)
    ensures |Last(s, n)| == if |s| <= n then |s| else n
    ensures forall x :: x in Last(s, n) ==> x in s
    ensures forall x, y | x in s && x !in Last(s, n) && y in Last(s, n) :: Before(key(x), key(y))
  {
  }

  /** A record that comes before everything in a full log is cut at once. */
  lemma InsertFirst<T(!new)>(s: seq<T>, x: T, key: T -> Key)
    requires forall y | y in s :: Before(key(x), key(y))
    ensures Insert(s, x, key) == [x] + s
  {
  }

  lemma AppendFresh<T(!new)>(log: seq<T>, x: T, key: T -> Key, n: nat)
    requires Ordered(log, key) && UniqueIds(log, key) && Find(log, key(x).id, key) == -1
    ensures Append(log, x, key, n) == Last(Insert(log, x, key), n)
    ensures Ordered(Insert(log, x, key), key) && UniqueIds(Insert(log, x, key), key)
  {
    SortOfOrdered(log, key);
    SortSnoc(log, x, key);
    PutMembers(log, x, key);
    assert Put(log, x, key) == log + [x];
    SortKeepsMap(log + [x], key);
  }

  /** Adding a record that was cut away before has no effect. */
  lemma AppendCutAway<T(!new)>(before: seq<T>, log: seq<T>, x: T, key: T -> Key, n: nat)
    requires UniqueIds(before, key) && log == Last(Sort(before, key), n)
    requires x in before && Find(log, key(x).id, key) == -1
    ensures Append(log, x, key, n) == log
  {
    SortKeepsMap(before, key);
    LastMembers(Sort(before, key), key, n);
    AppendFresh(log, x, key, n);
    assert x in Sort(before, key) && x !in log;
    InsertFirst(log, x, key);
  }

  ghost predicate NoClash<T(!new)>(s: seq<T>, x: T, key: T -> Key) {
    forall y | y in s && key(y).id == key(x).id :: y == x
  }

  /** One more record, whether new, still there or cut away. */
  lemma AppendKeepsGreatest<T(!new)>(before: seq<T>, log: seq<T>, x: T, key: T -> Key, n: nat)
    requires UniqueIds(before, key) && log == Last(Sort(before, key), n)
    requires NoClash(before, x, key)
    ensures Append(log, x, key, n) == Last(Sort(if Find(before, key(x).id, key) == -1 then before + [x] else before, key), n)
  {
    SortKeepsMap(before, key);
    var sorted := Sort(before, key);
    LastMembers(sorted, key, n);
    var k := Find(log, key(x).id, key);
    if k != -1 {
      assert log[k] in log && log[k] in before;
      assert Find(before, key(x).id, key) != -1;
      SortOfOrdered(log, key);
    } else if Find(before, key(x).id, key) != -1 {
      assert before[Find(before, key(x).id, key)] in before;
      AppendCutAway(before, log, x, key, n);
    } else {
      AppendFresh(log, x, key, n);
      CutThenInsert(sorted, x, key, n);
      SortSnoc(before, x, key);
    }
  }

  lemma DistinctStep<T(!new)>(front: seq<T>, x: T, key: T -> Key)
    requires IdsIdentify(front + [x], key)
    ensures IdsIdentify(front, key) && UniqueIds(Distinct(front, key), key) && NoClash(Distinct(front, key), x, key)
    ensures Distinct(front + [x], key) ==
            if Find(Distinct(front, key), key(x).id, key) == -1 then Distinct(front, key) + [x] else Distinct(front, key)
  {
    assert (front + [x])[..|front|] == front;
    assert forall y | y in front :: y in front + [x];
    DistinctMembers(front, key);
  }

  lemma {:induction false} LogIsLastOfDistinct<T(!new)>(history: seq<T>, key: T -> Key, n: nat)
    requires IdsIdentify(history, key)
    ensures LogOf(history, key, n) == Last(Sort(Distinct(history, key), key), n)
  {
    if history != [] {
      var front, x := history[..|history| - 1], history[|history| - 1];
      assert history == front + [x];
      DistinctStep(front, x, key);
      LogIsLastOfDistinct(front, key, n);
      AppendKeepsGreatest(Distinct(front, key), LogOf(front, key, n), x, key, n);
    }
  }

  /** The incremental bounded log refines sorting the full history and keeping its greatest. */
  lemma LogIsGreatestOfHistory<T(!new)>(history: seq<T>, key: T -> Key, n: nat)
    requires IdsIdentify(history, key)
    ensures LogOf(history, key, n) == Last(Sort(Distinct(history, key), key), n)
    ensures Ordered(LogOf(history, key, n), key) && UniqueIds(LogOf(history, key, n), key)
  {
    LogIsLastOfDistinct(history, key, n);
    DistinctMembers(history, key);
    SortKeepsMap(Distinct(history, key), key);
    LastMembers(Sort(Distinct(history, key), key), key, n);
  }

  /** Which is: bounded, sorted, without repeats, and nothing left out comes after anything kept. */
  lemma LogHoldsGreatest<T(!new)>(history: seq<T>, key: T -> Key, n: nat)
    requires IdsIdentify(history, key)
    ensures var log := LogOf(history, key, n);
            && |log| <= n
            && (forall x | x in log :: x in history)
            && (forall x, y | x in history && x !in log && y in log :: Before(key(x), key(y)))
            && ((exists x :: x in history && x !in log) ==> |log| == n)
  {
    LogIsGreatestOfHistory(history, key, n);
    DistinctMembers(history, key);
    var sorted := Sort(Distinct(history, key), key);
    SortKeepsMap(Distinct(history, key), key);
    LastMembers(sorted, key, n);
    if x :| x in history && x !in LogOf(history, key, n) {
      assert x in sorted;
    }
  }
}
