/** The stable library sort, for any total preorder, with the theorem that it is the only
    arrangement that is ordered and keeps equivalent elements in their input order. */
module StableSort {

  ghost predicate TotalPreorder<T(!new)>(le: (T, T) -> bool) {
    && (forall x, y :: le(x, y) || le(y, x))
    && (forall x, y, z :: le(x, y) && le(y, z) ==> le(x, z))
  }

  ghost predicate Ordered<T>(s: seq<T>, le: (T, T) -> bool) {
    forall i, j | 0 <= i < j < |s| :: le(s[i], s[j])
  }

  function Insert<T>(x: T, s: seq<T>, le: (T, T) -> bool): seq<T> {
    if s == [] then [x]
    else if le(x, s[0]) then [x] + s
    else [s[0]] + Insert(x, s[1..], le)
  }

  function Sort<T>(s: seq<T>, le: (T, T) -> bool): seq<T> {
    if s == [] then [] else Insert(s[0], Sort(s[1..], le), le)
  }

  /** The elements of `s` that are equivalent to `k`, in the order in which they stand. */
  function Class<T>(s: seq<T>, le: (T, T) -> bool, k: T): seq<T> {
    if s == [] then []
    else (if le(s[0], k) && le(k, s[0]) then [s[0]] else []) + Class(s[1..], le, k)
  }

  lemma {:induction false} InsertKeeps<T>(x: T, s: seq<T>, le: (T, T) -> bool)
    ensures multiset(Insert(x, s, le)) == multiset(s) + multiset{x}
    decreases |s|
  {
    if s != [] {
      assert s == [s[0]] + s[1..];
      if !le(x, s[0]) {
        InsertKeeps(x, s[1..], le);
      }
    }
  }

  lemma {:induction false} SortKeeps<T>(s: seq<T>, le: (T, T) -> bool)
    ensures multiset(Sort(s, le)) == multiset(s)
    ensures |Sort(s, le)| == |s|
    decreases |s|
  {
    if s != [] {
      SortKeeps(s[1..], le);
      InsertKeeps(s[0], Sort(s[1..], le), le);
      assert s == [s[0]] + s[1..];
    }
    assert |multiset(Sort(s, le))| == |Sort(s, le)|;
  }

  lemma {:induction false} InsertOrders<T(!new)>(x: T, s: seq<T>, le: (T, T) -> bool)
    requires TotalPreorder(le) && Ordered(s, le)
    ensures Ordered(Insert(x, s, le), le)
    decreases |s|
  {
    if s != [] && !le(x, s[0]) {
      InsertOrders(x, s[1..], le);
      var rest := Insert(x, s[1..], le);
      InsertKeeps(x, s[1..], le);
      forall j | 0 <= j < |rest| ensures le(s[0], rest[j]) {
        assert rest[j] in multiset(rest);
        assert rest[j] == x || rest[j] in s[1..];
      }
    }
  }

  lemma {:induction false} SortOrders<T(!new)>(s: seq<T>, le: (T, T) -> bool)
    requires TotalPreorder(le)
    ensures Ordered(Sort(s, le), le)
    decreases |s|
  {
    if s != [] {
      SortOrders(s[1..], le);
      InsertOrders(s[0], Sort(s[1..], le), le);
    }
  }

  lemma {:induction false} InsertClass<T(!new)>(x: T, s: seq<T>, le: (T, T) -> bool, k: T)
    requires TotalPreorder(le) && Ordered(s, le)
    ensures Class(Insert(x, s, le), le, k) == Class([x] + s, le, k)
    decreases |s|
  {
    assert ([x] + s)[1..] == s;
    if s != [] && !le(x, s[0]) {
      var rest := Insert(x, s[1..], le);
      InsertClass(x, s[1..], le, k);
      assert ([x] + s[1..])[1..] == s[1..];
      assert ([s[0]] + rest)[1..] == rest;
      // x lies strictly above s[0], so the two are never in the same class
    }
  }

  /** Sorting is stable: every class of equivalent elements keeps its input order. */
  lemma {:induction false} SortIsStable<T(!new)>(s: seq<T>, le: (T, T) -> bool, k: T)
    requires TotalPreorder(le)
    ensures Class(Sort(s, le), le, k) == Class(s, le, k)
    decreases |s|
  {
    if s != [] {
      SortIsStable(s[1..], le, k);
      SortOrders(s[1..], le);
      InsertClass(s[0], Sort(s[1..], le), le, k);
      assert ([s[0]] + Sort(s[1..], le))[1..] == Sort(s[1..], le);
    }
  }

  lemma {:induction false} ClassMembers<T>(s: seq<T>, le: (T, T) -> bool, k: T, e: T)
    ensures e in Class(s, le, k) <==> e in s && le(e, k) && le(k, e)
    decreases |s|
  {
    if s != [] {
      ClassMembers(s[1..], le, k, e);
      assert s == [s[0]] + s[1..];
    }
  }

  ghost predicate SameClasses<T(!new)>(a: seq<T>, b: seq<T>, le: (T, T) -> bool) {
    forall k :: Class(a, le, k) == Class(b, le, k)
  }

  lemma FirstOfOrdered<T(!new)>(a: seq<T>, b: seq<T>, le: (T, T) -> bool)
    requires TotalPreorder(le) && Ordered(a, le) && Ordered(b, le) && SameClasses(a, b, le)
    requires a != []
    ensures b != [] && a[0] == b[0]
  {
    ClassMembers(a, le, a[0], a[0]);
    ClassMembers(b, le, a[0], a[0]);
    assert a[0] in Class(b, le, a[0]);
    var i :| 0 <= i < |b| && b[i] == a[0];
    ClassMembers(b, le, b[0], b[0]);
    ClassMembers(a, le, b[0], b[0]);
    assert b[0] in Class(a, le, b[0]);
    var j :| 0 <= j < |a| && a[j] == b[0];
    assert le(a[0], b[0]) && le(b[0], a[0]);
    assert Class(a, le, a[0])[0] == a[0];
    assert Class(b, le, a[0])[0] == b[0];
  }

  /** An ordered sequence is determined by its classes. */
  lemma {:induction false} OrderedIsUnique<T(!new)>(a: seq<T>, b: seq<T>, le: (T, T) -> bool)
    requires TotalPreorder(le) && Ordered(a, le) && Ordered(b, le) && SameClasses(a, b, le)
    ensures a == b
    decreases |a|
  {
    if a == [] {
      if b != [] {
        FirstOfOrdered(b, a, le);
      }
    } else {
      FirstOfOrdered(a, b, le);
      forall k ensures Class(a[1..], le, k) == Class(b[1..], le, k) {
        assert Class(a, le, k) == Class(b, le, k);
        var head := if le(a[0], k) && le(k, a[0]) then [a[0]] else [];
        assert Class(a, le, k) == head + Class(a[1..], le, k);
        assert Class(b, le, k) == head + Class(b[1..], le, k);
        assert (head + Class(a[1..], le, k))[|head|..] == Class(a[1..], le, k);
        assert (head + Class(b[1..], le, k))[|head|..] == Class(b[1..], le, k);
      }
      OrderedIsUnique(a[1..], b[1..], le);
      assert a == [a[0]] + a[1..] && b == [b[0]] + b[1..];
    }
  }

  /** `Sort` computes the one ordered and stable arrangement of its input. */
  lemma SortIsTheStableOrder<T(!new)>(s: seq<T>, r: seq<T>, le: (T, T) -> bool)
    requires TotalPreorder(le)
    ensures r == Sort(s, le) <==> Ordered(r, le) && SameClasses(r, s, le)
  {
    SortOrders(s, le);
    forall k ensures Class(Sort(s, le), le, k) == Class(s, le, k) {
      SortIsStable(s, le, k);
    }
    if Ordered(r, le) && SameClasses(r, s, le) {
      OrderedIsUnique(r, Sort(s, le), le);
    }
  }
}
