/** Lists of timestamped records kept the way `sortByTimestampAndId` keeps them: by timestamp,
    then by id.  Ids are numbered in `localeCompare` order. */
module Timeline {
  datatype Option<+T> = None | Some(value: T)

  datatype Key = Key(at: int, id: int)

  predicate Before(a: Key, b: Key) {
    a.at < b.at || (a.at == b.at && a.id < b.id)
  }

  /** In order, ties allowed: what a sort returns. */
  ghost predicate Sorted<T>(s: seq<T>, key: T -> Key) {
    forall i, j | 0 <= i < j < |s| :: !Before(key(s[j]), key(s[i]))
  }

  /** Strictly in order: no two records share timestamp and id. */
  ghost predicate Ordered<T>(s: seq<T>, key: T -> Key) {
    forall i, j | 0 <= i < j < |s| :: Before(key(s[i]), key(s[j]))
  }

  ghost predicate UniqueIds<T>(s: seq<T>, key: T -> Key) {
    forall i, j | 0 <= i < j < |s| :: key(s[i]).id != key(s[j]).id
  }

  /** Stable insertion: after every record that does not come later. */
  function Insert<T(!new)>(s: seq<T>, x: T, key: T -> Key): (r: seq<T>)
    ensures |r| == |s| + 1
    ensures forall y :: y in r <==> y == x || y in s
  {
    if s == [] || !Before(key(x), key(s[|s| - 1])) then s + [x]
    else
      assert s == s[..|s| - 1] + [s[|s| - 1]];
      Insert(s[..|s| - 1], x, key) + [s[|s| - 1]]
  }

  function Sort<T(!new)>(s: seq<T>, key: T -> Key): (r: seq<T>)
    ensures |r| == |s|
    ensures forall y :: y in r <==> y in s
  {
    if s == [] then []
    else
      assert s == s[..|s| - 1] + [s[|s| - 1]];
      Insert(Sort(s[..|s| - 1], key), s[|s| - 1], key)
  }

  lemma {:induction false} InsertSorted<T(!new)>(s: seq<T>, x: T, key: T -> Key)
    requires Sorted(s, key)
    ensures Sorted(Insert(s, x, key), key)
  {
    if s != [] && Before(key(x), key(s[|s| - 1])) {
      var front, last := s[..|s| - 1], s[|s| - 1];
      InsertSorted(front, x, key);
      var r := Insert(front, x, key);
      forall i | 0 <= i < |r| ensures !Before(key(last), key(r[i])) {
        assert r[i] in r;
        if r[i] != x {
          assert r[i] in front;
          var k :| 0 <= k < |front| && front[k] == r[i];
          assert s[k] == r[i];
        }
      }
    }
  }

  lemma {:induction false} SortSorted<T(!new)>(s: seq<T>, key: T -> Key)
    ensures Sorted(Sort(s, key), key)
  {
    if s != [] {
      SortSorted(s[..|s| - 1], key);
      InsertSorted(Sort(s[..|s| - 1], key), s[|s| - 1], key);
    }
  }

  lemma {:induction false} InsertUnique<T(!new)>(s: seq<T>, x: T, key: T -> Key)
    requires UniqueIds(s, key) && forall y | y in s :: key(y).id != key(x).id
    ensures UniqueIds(Insert(s, x, key), key)
  {
    if s != [] && Before(key(x), key(s[|s| - 1])) {
      var front, last := s[..|s| - 1], s[|s| - 1];
      assert forall y | y in front :: y in s;
      InsertUnique(front, x, key);
      var r := Insert(front, x, key);
      forall i | 0 <= i < |r| ensures key(r[i]).id != key(last).id {
        assert r[i] in r;
        if r[i] != x {
          var k :| 0 <= k < |front| && front[k] == r[i];
          assert s[k] == r[i];
        }
      }
    }
  }

  lemma {:induction false} SortUnique<T(!new)>(s: seq<T>, key: T -> Key)
    requires UniqueIds(s, key)
    ensures UniqueIds(Sort(s, key), key)
  {
    if s != [] {
      var front, last := s[..|s| - 1], s[|s| - 1];
      SortUnique(front, key);
      forall y | y in front ensures key(y).id != key(last).id {
        var k :| 0 <= k < |front| && front[k] == y;
        assert s[k] == y;
      }
      InsertUnique(Sort(front, key), last, key);
    }
  }

  lemma SortedUniqueIsOrdered<T(!new)>(s: seq<T>, key: T -> Key)
    requires Sorted(s, key) && UniqueIds(s, key)
    ensures Ordered(s, key)
  {
  }

  lemma SplitAt<T(!new)>(s: seq<T>, k: nat)
    requires k < |s|
    ensures (s[..k] + [s[k]]) + s[k + 1..] == s
  {
  }

  lemma LastsAgree<T(!new)>(a: seq<T>, b: seq<T>, key: T -> Key)
    requires Ordered(a, key) && Ordered(b, key) && a != [] && b != []
    requires a[|a| - 1] in b && b[|b| - 1] in a
    ensures a[|a| - 1] == b[|b| - 1]
  {
    LastIsGreatest(a, b[|b| - 1], key);
    LastIsGreatest(b, a[|a| - 1], key);
  }

  lemma SameFronts<T(!new)>(a: seq<T>, b: seq<T>, last: T)
    requires last !in a && last !in b && forall x :: x in a + [last] <==> x in b + [last]
    ensures forall x :: x in a <==> x in b
  {
    forall x ensures x in a <==> x in b {
      assert x in a + [last] <==> x in a || x == last;
      assert x in b + [last] <==> x in b || x == last;
    }
  }

  /** A strictly ordered list is determined by its members, so any two procedures that keep the
      same records in order keep the same array. */
  lemma {:induction false} OrderedDetermined<T(!new)>(a: seq<T>, b: seq<T>, key: T -> Key)
    requires Ordered(a, key) && Ordered(b, key)
    requires forall x :: x in a <==> x in b
    ensures a == b
  {
    assert (a != [] ==> a[0] in a) && (b != [] ==> b[0] in b);
    if a != [] && b != [] {
      var la, lb := a[|a| - 1], b[|b| - 1];
      LastsAgree(a, b, key);
      var fa, fb := a[..|a| - 1], b[..|b| - 1];
      assert a == fa + [la] && b == fb + [lb];
      LastIsNew(a, key);
      LastIsNew(b, key);
      assert la == lb;
      SameFronts(fa, fb, la);
      OrderedDetermined(fa, fb, key);
    }
  }

  lemma LastIsGreatest<T(!new)>(s: seq<T>, x: T, key: T -> Key)
    requires x in s && Ordered(s, key)
    ensures x == s[|s| - 1] || Before(key(x), key(s[|s| - 1]))
  {
  }

  lemma LastIsNew<T>(s: seq<T>, key: T -> Key)
    requires s != [] && Ordered(s, key)
    ensures s[|s| - 1] !in s[..|s| - 1]
  {
  }

  /** `findIndex` by id: the first index, or -1. */
  function Find<T>(s: seq<T>, id: int, key: T -> Key): (i: int)
    ensures -1 <= i < |s|
    ensures 0 <= i ==> key(s[i]).id == id && forall j | 0 <= j < i :: key(s[j]).id != id
    ensures i == -1 ==> forall j | 0 <= j < |s| :: key(s[j]).id != id
  {
    if s == [] then -1
    else if key(s[0]).id == id then 0
    else
      var i := Find(s[1..], id, key);
      assert forall j | 1 <= j < |s| :: s[j] == s[1..][j - 1];
      if i == -1 then -1 else i + 1
  }

  /** Overwrite the record with the same id, or push a new one. */
  function Put<T>(s: seq<T>, x: T, key: T -> Key): seq<T> {
    var i := Find(s, key(x).id, key);
    if i == -1 then s + [x] else s[i := x]
  }

  lemma PutMembers<T(!new)>(s: seq<T>, x: T, key: T -> Key)
    requires UniqueIds(s, key)
    ensures UniqueIds(Put(s, x, key), key)
    ensures forall y :: y in Put(s, x, key) <==> y == x || (y in s && key(y).id != key(x).id)
  {
    var r, i := Put(s, x, key), Find(s, key(x).id, key);
    forall y ensures y in r <==> y == x || (y in s && key(y).id != key(x).id) {
      if y in r && y != x {
        var k :| 0 <= k < |r| && r[k] == y;
        assert s[k] == y;
      }
      if y in s && key(y).id != key(x).id {
        var k :| 0 <= k < |s| && s[k] == y;
        assert r[k] == y;
      }
      assert i == -1 ==> r[|s|] == x;
      assert i != -1 ==> r[i] == x;
    }
  }

  /** The records by id; of two under one id, the later. */
  ghost function ById<T>(s: seq<T>, key: T -> Key): map<int, T> {
    if s == [] then map[] else ById(s[..|s| - 1], key)[key(s[|s| - 1]).id := s[|s| - 1]]
  }

  lemma {:induction false} ByIdMembers<T(!new)>(s: seq<T>, key: T -> Key)
    requires UniqueIds(s, key)
    ensures forall x | x in s :: key(x).id in ById(s, key) && ById(s, key)[key(x).id] == x
    ensures forall id | id in ById(s, key) :: ById(s, key)[id] in s && key(ById(s, key)[id]).id == id
  {
    if s != [] {
      var front, last := s[..|s| - 1], s[|s| - 1];
      assert s == front + [last];
      ByIdMembers(front, key);
      forall x | x in front ensures key(x).id != key(last).id {
        var k :| 0 <= k < |front| && front[k] == x;
        assert key(s[k]).id != key(s[|s| - 1]).id;
      }
    }
  }

  lemma SameMembersSameMap<T(!new)>(a: seq<T>, b: seq<T>, key: T -> Key)
    requires UniqueIds(a, key) && UniqueIds(b, key)
    requires forall x :: x in a <==> x in b
    ensures ById(a, key) == ById(b, key)
  {
    ByIdMembers(a, key);
    ByIdMembers(b, key);
    var m, n := ById(a, key), ById(b, key);
    forall id ensures id in m <==> id in n {
      assert id in m ==> m[id] in b;
      assert id in n ==> n[id] in a;
    }
    forall id | id in m ensures m[id] == n[id] {
      assert m[id] in b;
    }
  }

  lemma SortKeepsMap<T(!new)>(s: seq<T>, key: T -> Key)
    requires UniqueIds(s, key)
    ensures UniqueIds(Sort(s, key), key) && Ordered(Sort(s, key), key)
    ensures ById(Sort(s, key), key) == ById(s, key)
  {
    SortUnique(s, key);
    SortSorted(s, key);
    SortedUniqueIsOrdered(Sort(s, key), key);
    SameMembersSameMap(s, Sort(s, key), key);
  }

  lemma PutInMap<T(!new)>(s: seq<T>, x: T, key: T -> Key)
    requires UniqueIds(s, key)
    ensures UniqueIds(Put(s, x, key), key)
    ensures ById(Put(s, x, key), key) == ById(s, key)[key(x).id := x]
  {
    PutMembers(s, x, key);
    var t := Put(s, x, key);
    ByIdMembers(s, key);
    ByIdMembers(t, key);
    var m, n := ById(s, key)[key(x).id := x], ById(t, key);
    forall id ensures id in m <==> id in n {
      assert id in m && id != key(x).id ==> m[id] in t;
      assert id in n && id != key(x).id ==> n[id] in s;
    }
    forall id | id in m ensures m[id] == n[id] {
      assert m[id] in t;
    }
  }

  lemma FindInMap<T(!new)>(s: seq<T>, id: int, key: T -> Key)
    requires UniqueIds(s, key)
    ensures Find(s, id, key) == -1 <==> id !in ById(s, key)
    ensures Find(s, id, key) != -1 ==> s[Find(s, id, key)] == ById(s, key)[id]
  {
    var i := Find(s, id, key);
    ByIdMembers(s, key);
    if i != -1 {
      assert s[i] in s;
    }
  }

  /** The last `n` records (`slice(-n)`), or all of them if there are fewer. */
  function Last<T>(s: seq<T>, n: nat): seq<T> {
    if |s| <= n then s else s[|s| - n..]
  }

  lemma SubsetSize<T>(s: set<T>, t: set<T>)
    requires s <= t
    ensures |s| <= |t|
  {
    if s != {} {
      var x :| x in s;
      SubsetSize(s - {x}, t - {x});
    }
  }
}
