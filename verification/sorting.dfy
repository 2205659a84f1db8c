/** Python's `list.sort(key=..., reverse=True)` — a stable sort in descending key order — and
    `next(x for x in s if p(x))` over its result. */
module Sorting {
  import opened Wrappers
  import Seqs

  /** The keys of `s` never increase. */
  predicate SortedDesc<T>(s: seq<T>, key: T -> int) {
    forall i, j :: 0 <= i < j < |s| ==> key(s[i]) >= key(s[j])
  }

  /** Insert `x` before the first element whose key is not larger than its own. */
  function Insert<T>(x: T, s: seq<T>, key: T -> int): (r: seq<T>)
    ensures |r| == |s| + 1
  {
    if s == [] then [x]
    else if key(s[0]) <= key(x) then [x] + s
    else [s[0]] + Insert(x, s[1..], key)
  }

  /** Stable descending sort: equal keys keep their original order. */
  function SortDesc<T>(s: seq<T>, key: T -> int): (r: seq<T>)
    ensures |r| == |s|
  {
    if s == [] then [] else Insert(s[0], SortDesc(s[1..], key), key)
  }

  /** A list headed by `a` is descending when its tail is and `a`'s key bounds the tail's. */
  lemma SortedCons<T>(a: T, t: seq<T>, key: T -> int)
    requires SortedDesc(t, key)
    requires forall k :: 0 <= k < |t| ==> key(a) >= key(t[k])
    ensures SortedDesc([a] + t, key)
  {
    var r := [a] + t;
    forall i, j | 0 <= i < j < |r|
      ensures key(r[i]) >= key(r[j])
    {
      assert r[j] == t[j - 1];
      if i > 0 {
        assert r[i] == t[i - 1];
      }
    }
  }

  /** The tail of a descending list is descending. */
  lemma SortedTail<T>(s: seq<T>, key: T -> int)
    requires s != [] && SortedDesc(s, key)
    ensures SortedDesc(s[1..], key)
    ensures forall k :: 0 <= k < |s[1..]| ==> key(s[0]) >= key(s[1..][k])
  {
    forall i, j | 0 <= i < j < |s[1..]|
      ensures key(s[1..][i]) >= key(s[1..][j])
    {
      assert s[1..][i] == s[i + 1] && s[1..][j] == s[j + 1];
    }
  }

  lemma {:induction false} InsertPerm<T>(x: T, s: seq<T>, key: T -> int)
    ensures multiset(Insert(x, s, key)) == multiset{x} + multiset(s)
  {
    if s != [] && key(s[0]) > key(x) {
      InsertPerm(x, s[1..], key);
      assert s == [s[0]] + s[1..];
    }
  }

  /** Every key in `Insert(x, s)` is bounded by a bound on `x` and on every element of `s`. */
  lemma {:induction false} InsertBounded<T>(x: T, s: seq<T>, key: T -> int, b: int)
    requires key(x) <= b && forall k :: 0 <= k < |s| ==> key(s[k]) <= b
    ensures forall k :: 0 <= k < |Insert(x, s, key)| ==> key(Insert(x, s, key)[k]) <= b
  {
    if s != [] && key(s[0]) > key(x) {
      InsertBounded(x, s[1..], key, b);
      var t := Insert(x, s[1..], key);
      assert forall k :: 0 <= k < |t| ==> key(t[k]) <= b;
      assert Insert(x, s, key) == [s[0]] + t;
    }
  }

  lemma {:induction false} InsertSorted<T>(x: T, s: seq<T>, key: T -> int)
    requires SortedDesc(s, key)
    ensures SortedDesc(Insert(x, s, key), key)
  {
    if s == [] {
    } else if key(s[0]) <= key(x) {
      SortedCons(x, s, key);
    } else {
      SortedTail(s, key);
      InsertSorted(x, s[1..], key);
      InsertBounded(x, s[1..], key, key(s[0]));
      SortedCons(s[0], Insert(x, s[1..], key), key);
    }
  }

  /** The sort yields a permutation of its input, in descending key order. */
  lemma {:induction false} SortDescCorrect<T>(s: seq<T>, key: T -> int)
    ensures SortedDesc(SortDesc(s, key), key)
    ensures multiset(SortDesc(s, key)) == multiset(s)
  {
    if s != [] {
      SortDescCorrect(s[1..], key);
      InsertSorted(s[0], SortDesc(s[1..], key), key);
      InsertPerm(s[0], SortDesc(s[1..], key), key);
      assert s == [s[0]] + s[1..];
    }
  }

  /** The elements of `s` whose key is `v`, in order. */
  function WithKey<T>(s: seq<T>, key: T -> int, v: int): seq<T> {
    if s == [] then []
    else (if key(s[0]) == v then [s[0]] else []) + WithKey(s[1..], key, v)
  }

  lemma {:induction false} InsertWithKey<T>(x: T, s: seq<T>, key: T -> int, v: int)
    requires SortedDesc(s, key)
    ensures WithKey(Insert(x, s, key), key, v) == (if key(x) == v then [x] else []) + WithKey(s, key, v)
  {
    if s == [] {
    } else if key(s[0]) <= key(x) {
      assert Insert(x, s, key) == [x] + s;
      assert ([x] + s)[1..] == s;
    } else {
      SortedTail(s, key);
      InsertWithKey(x, s[1..], key, v);
      var r := [s[0]] + Insert(x, s[1..], key);
      assert r[1..] == Insert(x, s[1..], key);
      if key(x) == v {
        assert key(s[0]) != v;
      }
    }
  }

  /** Stability: the elements sharing any one key keep their relative order. */
  lemma {:induction false} SortDescStable<T>(s: seq<T>, key: T -> int, v: int)
    ensures WithKey(SortDesc(s, key), key, v) == WithKey(s, key, v)
  {
    if s != [] {
      SortDescStable(s[1..], key, v);
      SortDescCorrect(s[1..], key);
      InsertWithKey(s[0], SortDesc(s[1..], key), key, v);
    }
  }

  /** `next((x for x in s if p(x)), None)`. */
  function FirstWhere<T>(s: seq<T>, p: T -> bool): (r: Option<T>)
    ensures r.None? <==> forall i :: 0 <= i < |s| ==> !p(s[i])
    ensures r.Some? ==> r.value == s[Seqs.FirstIndex(s, p)] && p(r.value)
  {
    var i := Seqs.FirstIndex(s, p);
    if i < |s| then Some(s[i]) else None
  }

  /** `FirstWhere` looks at the head first. */
  lemma FirstWhereCons<T>(s: seq<T>, p: T -> bool)
    requires s != []
    ensures FirstWhere(s, p) == if p(s[0]) then Some(s[0]) else FirstWhere(s[1..], p)
  {
    if !p(s[0]) {
      var i := Seqs.FirstIndex(s[1..], p);
      assert Seqs.FirstIndex(s, p) == 1 + i;
      if i < |s[1..]| {
        assert s[1..][i] == s[1 + i];
      }
    }
  }

  /** The first `p`-element of `s` is also the first `p`-element among those sharing its key. */
  lemma {:induction false} FirstWhereWithKey<T>(s: seq<T>, p: T -> bool, key: T -> int)
    requires FirstWhere(s, p).Some?
    ensures FirstWhere(WithKey(s, key, key(FirstWhere(s, p).value)), p) == FirstWhere(s, p)
  {
    var x := FirstWhere(s, p).value;
    var w := WithKey(s, key, key(x));
    FirstWhereCons(s, p);
    if p(s[0]) {
      assert w == [s[0]] + WithKey(s[1..], key, key(x));
      FirstWhereCons(w, p);
    } else {
      FirstWhereWithKey(s[1..], p, key);
      if key(s[0]) == key(x) {
        assert w == [s[0]] + WithKey(s[1..], key, key(x));
        assert w[1..] == WithKey(s[1..], key, key(x));
        FirstWhereCons(w, p);
      } else {
        assert w == WithKey(s[1..], key, key(x));
      }
    }
  }

  /** Satisfies `p` and has key `v`. */
  function WithKeyWhere<T>(p: T -> bool, key: T -> int, v: int): T -> bool {
    x => p(x) && key(x) == v
  }

  /** The first `p`-element among the key-`v` elements is the first element satisfying both. */
  lemma {:induction false} WithKeyFirstWhere<T>(s: seq<T>, p: T -> bool, key: T -> int, v: int)
    ensures FirstWhere(WithKey(s, key, v), p) == FirstWhere(s, WithKeyWhere(p, key, v))
  {
    if s != [] {
      WithKeyFirstWhere(s[1..], p, key, v);
      var w := WithKey(s, key, v);
      var q := WithKeyWhere(p, key, v);
      FirstWhereCons(s, q);
      if key(s[0]) == v {
        assert w == [s[0]] + WithKey(s[1..], key, v);
        assert w[1..] == WithKey(s[1..], key, v);
        FirstWhereCons(w, p);
      } else {
        assert w == WithKey(s[1..], key, v);
      }
    }
  }

  /** In a descending list, the first `p`-element has the largest key among `p`-elements. */
  lemma FirstWhereMaximal<T>(s: seq<T>, p: T -> bool, key: T -> int, y: T)
    requires SortedDesc(s, key) && FirstWhere(s, p).Some?
    requires y in s && p(y)
    ensures key(y) <= key(FirstWhere(s, p).value)
  {
    var i := Seqs.FirstIndex(s, p);
    var j :| 0 <= j < |s| && s[j] == y;
    assert i <= j;
  }

  /** The reference meaning of "the most recent `p`-element": picking the first `p`-element of
      the stable descending sort gives an element of `s` that satisfies `p`, whose key is maximal
      among the `p`-elements of `s`, and that comes first in `s` among the `p`-elements with
      that key. When no element satisfies `p`, nothing is picked. */
  lemma SelectLatest<T>(s: seq<T>, p: T -> bool, key: T -> int)
    ensures FirstWhere(SortDesc(s, key), p).None? <==> forall i :: 0 <= i < |s| ==> !p(s[i])
    ensures FirstWhere(SortDesc(s, key), p).Some? ==>
              var x := FirstWhere(SortDesc(s, key), p).value;
              && x in s && p(x)
              && (forall i :: 0 <= i < |s| && p(s[i]) ==> key(s[i]) <= key(x))
              && FirstWhere(s, WithKeyWhere(p, key, key(x))) == Some(x)
  {
    var r := SortDesc(s, key);
    SortDescCorrect(s, key);
    forall i | 0 <= i < |s|
      ensures s[i] in r
    {
      assert s[i] in multiset(s);
    }
    forall i | 0 <= i < |r|
      ensures r[i] in s
    {
      assert r[i] in multiset(r);
    }
    if FirstWhere(r, p).Some? {
      var x := FirstWhere(r, p).value;
      assert x in s;
      forall i | 0 <= i < |s| && p(s[i])
        ensures key(s[i]) <= key(x)
      {
        FirstWhereMaximal(r, p, key, s[i]);
      }
      FirstWhereWithKey(r, p, key);
      SortDescStable(s, key, key(x));
      WithKeyFirstWhere(s, p, key, key(x));
    } else {
      forall i | 0 <= i < |s|
        ensures !p(s[i])
      {
        var j :| 0 <= j < |r| && r[j] == s[i];
      }
    }
  }

  /** Sorting the `p`-elements of `s`: exactly those elements, as often as `s` holds them, in
      descending key order, with equal keys in their order in `s`. */
  lemma SortFilterSpec<T>(s: seq<T>, p: T -> bool, key: T -> int)
    ensures forall x :: x in SortDesc(Seqs.Filter(s, p), key) <==> x in s && p(x)
    ensures multiset(SortDesc(Seqs.Filter(s, p), key)) == multiset(Seqs.Filter(s, p))
    ensures SortedDesc(SortDesc(Seqs.Filter(s, p), key), key)
    ensures forall v :: WithKey(SortDesc(Seqs.Filter(s, p), key), key, v) == WithKey(Seqs.Filter(s, p), key, v)
  {
    var m := Seqs.Filter(s, p);
    var r := SortDesc(m, key);
    SortDescCorrect(m, key);
    Seqs.FilterKeeps(s, p);
    forall x
      ensures x in r <==> x in s && p(x)
    {
      assert x in r <==> x in multiset(r);
      assert x in m <==> x in multiset(m);
      if x in m {
        var k :| 0 <= k < |m| && m[k] == x;
      }
      if x in s && p(x) {
        var k :| 0 <= k < |s| && s[k] == x;
      }
    }
    forall v
      ensures WithKey(r, key, v) == WithKey(m, key, v)
    {
      SortDescStable(m, key, v);
    }
  }
}
