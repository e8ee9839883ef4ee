/** Stable sorting by a numeric key and filtering, as Array.prototype.sort and
    Array.prototype.filter do them, and the laws the other modules need. */
module StableSort {

  function Filter<T(!new)>(p: T -> bool, s: seq<T>): (r: seq<T>)
    ensures forall x :: x in r <==> x in s && p(x)
    ensures |r| <= |s|
  {
    if s == [] then []
    else if p(s[0]) then [s[0]] + Filter(p, s[1..])
    else Filter(p, s[1..])
  }

  function Map<A, B>(f: A -> B, s: seq<A>): (r: seq<B>)
    ensures |r| == |s|
    ensures forall i :: 0 <= i < |s| ==> r[i] == f(s[i])
  {
    seq(|s|, i requires 0 <= i < |s| => f(s[i]))
  }

  ghost predicate Sorted<T(!new)>(key: T -> real, s: seq<T>) {
    forall i, j :: 0 <= i < j < |s| ==> key(s[i]) <= key(s[j])
  }

  /** Puts x in front of the first element whose key is not smaller. */
  function Insert<T(!new)>(key: T -> real, x: T, s: seq<T>): (r: seq<T>)
    ensures |r| == |s| + 1
  {
    if s == [] || key(x) <= key(s[0]) then [x] + s
    else [s[0]] + Insert(key, x, s[1..])
  }

  function Sort<T(!new)>(key: T -> real, s: seq<T>): (r: seq<T>)
    ensures |r| == |s|
  {
    if s == [] then [] else Insert(key, s[0], Sort(key, s[1..]))
  }

  lemma {:induction false} InsertPermutes<T(!new)>(key: T -> real, x: T, s: seq<T>)
    ensures multiset(Insert(key, x, s)) == multiset(s) + multiset{x}
  {
    if s != [] && key(x) > key(s[0]) {
      InsertPermutes(key, x, s[1..]);
      assert s == [s[0]] + s[1..];
    }
  }

  lemma {:induction false} InsertSorts<T(!new)>(key: T -> real, x: T, s: seq<T>)
    requires Sorted(key, s)
    ensures Sorted(key, Insert(key, x, s))
    ensures Insert(key, x, s)[0] == if s == [] || key(x) <= key(s[0]) then x else s[0]
  {
    if s != [] && key(x) > key(s[0]) {
      InsertSorts(key, x, s[1..]);
      var r := Insert(key, x, s[1..]);
      assert key(s[0]) <= key(r[0]);
      assert Insert(key, x, s) == [s[0]] + r;
    }
  }

  lemma {:induction false} SortSorts<T(!new)>(key: T -> real, s: seq<T>)
    ensures Sorted(key, Sort(key, s))
  {
    if s != [] {
      SortSorts(key, s[1..]);
      InsertSorts(key, s[0], Sort(key, s[1..]));
    }
  }

  lemma {:induction false} SortPermutes<T(!new)>(key: T -> real, s: seq<T>)
    ensures multiset(Sort(key, s)) == multiset(s)
  {
    if s != [] {
      SortPermutes(key, s[1..]);
      InsertPermutes(key, s[0], Sort(key, s[1..]));
      assert s == [s[0]] + s[1..];
    }
  }

  /** The result is in key order and is a permutation of the input. */
  lemma {:induction false} SortIsSortedPermutation<T(!new)>(key: T -> real, s: seq<T>)
    ensures Sorted(key, Sort(key, s))
    ensures multiset(Sort(key, s)) == multiset(s)
  {
    SortSorts(key, s);
    SortPermutes(key, s);
  }

  lemma {:induction false} SortMembers<T(!new)>(key: T -> real, s: seq<T>)
    ensures forall x :: x in Sort(key, s) <==> x in s
  {
    SortIsSortedPermutation(key, s);
    forall x ensures x in Sort(key, s) <==> x in s {
      assert x in Sort(key, s) <==> x in multiset(Sort(key, s));
      assert x in s <==> x in multiset(s);
    }
  }

  lemma CutInOrder<T(!new)>(key: T -> real, r: seq<T>, n: nat)
    requires Sorted(key, r) && n <= |r|
    ensures Sorted(key, r[..n]) && forall x, y :: x in r[..n] && y in r[n..] ==> key(x) <= key(y)
  {
    forall x, y | x in r[..n] && y in r[n..] ensures key(x) <= key(y) {
      var i :| 0 <= i < n && r[..n][i] == x;
      var j :| 0 <= j < |r| - n && r[n..][j] == y;
      assert r[i] == x && r[n + j] == y;
    }
  }

  lemma CutPermutes<T>(r: seq<T>, n: nat)
    requires n <= |r|
    ensures multiset(r[..n]) + multiset(r[n..]) == multiset(r)
  {
    assert r == r[..n] + r[n..];
  }

  /** Cutting a sorted sequence in two: both parts together are the input, and nothing
      in the second part comes before anything in the first. */
  lemma {:induction false} CutSorted<T(!new)>(key: T -> real, s: seq<T>, n: nat)
    requires n <= |s|
    ensures var r := Sort(key, s);
      && multiset(r[..n]) + multiset(r[n..]) == multiset(s)
      && Sorted(key, r[..n])
      && forall x, y :: x in r[..n] && y in r[n..] ==> key(x) <= key(y)
  {
    var r := Sort(key, s);
    SortIsSortedPermutation(key, s);
    CutInOrder(key, r, n);
    CutPermutes(r, n);
  }

  lemma {:induction false} FilterInsert<T(!new)>(p: T -> bool, key: T -> real, x: T, s: seq<T>)
    requires Sorted(key, s)
    ensures Filter(p, Insert(key, x, s)) == if p(x) then Insert(key, x, Filter(p, s)) else Filter(p, s)
  {
    if s == [] || key(x) <= key(s[0]) {
      assert ([x] + s)[1..] == s;
      var f := Filter(p, s);
      if f != [] {
        assert f[0] in s;
      }
    } else {
      FilterInsert(p, key, x, s[1..]);
      assert ([s[0]] + Insert(key, x, s[1..]))[1..] == Insert(key, x, s[1..]);
      if p(s[0]) {
        assert ([s[0]] + Filter(p, s[1..]))[1..] == Filter(p, s[1..]);
      }
    }
  }

  /** Stable sorting commutes with filtering. */
  lemma {:induction false} FilterSort<T(!new)>(p: T -> bool, key: T -> real, s: seq<T>)
    ensures Filter(p, Sort(key, s)) == Sort(key, Filter(p, s))
  {
    if s != [] {
      FilterSort(p, key, s[1..]);
      SortIsSortedPermutation(key, s[1..]);
      FilterInsert(p, key, s[0], Sort(key, s[1..]));
      if p(s[0]) {
        assert ([s[0]] + Filter(p, s[1..]))[1..] == Filter(p, s[1..]);
      }
    }
  }

  lemma {:induction false} SortOneKey<T(!new)>(key: T -> real, k: real, s: seq<T>)
    requires forall x :: x in s ==> key(x) == k
    ensures Sort(key, s) == s
  {
    if s != [] {
      SortOneKey(key, k, s[1..]);
      assert s == [s[0]] + s[1..];
      if |s| > 1 {
        assert s[1] in s && s[0] in s;
      }
    }
  }

  function WithKey<T(!new)>(key: T -> real, k: real, s: seq<T>): seq<T> {
    Filter((x: T) => key(x) == k, s)
  }

  lemma HeadNotLarger<T(!new)>(key: T -> real, t: seq<T>, u: seq<T>)
    requires Sorted(key, u) && t != []
    requires WithKey(key, key(t[0]), t) == WithKey(key, key(t[0]), u)
    ensures u != [] && key(u[0]) <= key(t[0])
  {
    assert t[0] in WithKey(key, key(t[0]), t);
    assert t[0] in u;
  }

  lemma WithKeyCons<T(!new)>(key: T -> real, k: real, s: seq<T>)
    requires s != []
    ensures WithKey(key, k, s) == (if key(s[0]) == k then [s[0]] else []) + WithKey(key, k, s[1..])
  {}

  lemma TailClass<T(!new)>(key: T -> real, k: real, t: seq<T>, u: seq<T>)
    requires t != [] && u != [] && t[0] == u[0]
    requires WithKey(key, k, t) == WithKey(key, k, u)
    ensures WithKey(key, k, t[1..]) == WithKey(key, k, u[1..])
  {
    WithKeyCons(key, k, t);
    WithKeyCons(key, k, u);
    if key(t[0]) == k {
      assert WithKey(key, k, t)[1..] == WithKey(key, k, t[1..]);
      assert WithKey(key, k, u)[1..] == WithKey(key, k, u[1..]);
    }
  }

  lemma SameHead<T(!new)>(key: T -> real, t: seq<T>, u: seq<T>)
    requires Sorted(key, t) && Sorted(key, u) && t != []
    requires forall k :: WithKey(key, k, t) == WithKey(key, k, u)
    ensures u != [] && t[0] == u[0]
  {
    HeadNotLarger(key, t, u);
    HeadNotLarger(key, u, t);
    var k := key(t[0]);
    WithKeyCons(key, k, t);
    WithKeyCons(key, k, u);
    assert WithKey(key, k, t)[0] == t[0];
    assert WithKey(key, k, u)[0] == u[0];
  }

  lemma {:induction false} SortedWithSameKeyClasses<T(!new)>(key: T -> real, t: seq<T>, u: seq<T>)
    requires Sorted(key, t) && Sorted(key, u)
    requires forall k :: WithKey(key, k, t) == WithKey(key, k, u)
    ensures t == u
    decreases |t|
  {
    if t == [] {
      if u != [] {
        HeadNotLarger(key, u, t);
      }
    } else {
      SameHead(key, t, u);
      forall k ensures WithKey(key, k, t[1..]) == WithKey(key, k, u[1..]) {
        TailClass(key, k, t, u);
      }
      SortedWithSameKeyClasses(key, t[1..], u[1..]);
      assert t == [t[0]] + t[1..] && u == [u[0]] + u[1..];
    }
  }

  /** Sort is the only arrangement that is in key order and keeps the input order
      among elements with equal keys. */
  lemma {:induction false} SortIsTheStableSort<T(!new)>(key: T -> real, s: seq<T>, t: seq<T>)
    ensures t == Sort(key, s) <==>
      Sorted(key, t) && forall k :: WithKey(key, k, t) == WithKey(key, k, s)
  {
    SortIsSortedPermutation(key, s);
    forall k ensures WithKey(key, k, Sort(key, s)) == WithKey(key, k, s) {
      FilterSort((x: T) => key(x) == k, key, s);
      SortOneKey(key, k, WithKey(key, k, s));
    }
    if Sorted(key, t) && forall k :: WithKey(key, k, t) == WithKey(key, k, s) {
      SortedWithSameKeyClasses(key, t, Sort(key, s));
    }
  }

  lemma {:induction false} FilterFilter<T(!new)>(p: T -> bool, q: T -> bool, both: T -> bool, s: seq<T>)
    requires forall x :: both(x) <==> p(x) && q(x)
    ensures Filter(p, Filter(q, s)) == Filter(both, s)
  {
    if s != [] {
      FilterFilter(p, q, both, s[1..]);
      if q(s[0]) {
        assert ([s[0]] + Filter(q, s[1..]))[1..] == Filter(q, s[1..]);
      }
    }
  }

  lemma {:induction false} FilterAgrees<T(!new)>(p: T -> bool, q: T -> bool, s: seq<T>)
    requires forall x :: x in s ==> (p(x) <==> q(x))
    ensures Filter(p, s) == Filter(q, s)
  {
    if s != [] {
      assert s[0] in s;
      FilterAgrees(p, q, s[1..]);
    }
  }

  lemma {:induction false} FilterMap<A(!new), B(!new)>(f: A -> B, p: B -> bool, q: A -> bool, s: seq<A>)
    requires forall x :: x in s ==> (q(x) <==> p(f(x)))
    ensures Filter(p, Map(f, s)) == Map(f, Filter(q, s))
  {
    if s != [] {
      assert s[0] in s;
      FilterMap(f, p, q, s[1..]);
      assert Map(f, s)[1..] == Map(f, s[1..]);
      assert Map(f, s)[0] == f(s[0]);
    }
  }

  lemma {:induction false} FilterAppend<T(!new)>(p: T -> bool, s: seq<T>, x: T)
    ensures Filter(p, s + [x]) == Filter(p, s) + (if p(x) then [x] else [])
  {
    if s == [] {
      assert s + [x] == [x] && [x][1..] == [];
    } else {
      var rest := s[1..];
      FilterAppend(p, rest, x);
      assert (s + [x])[1..] == rest + [x] && (s + [x])[0] == s[0];
      var tail := if p(x) then [x] else [];
      assert ([s[0]] + Filter(p, rest)) + tail == [s[0]] + (Filter(p, rest) + tail);
    }
  }
}
