/** Generic sequence helpers: filtering, mapping, first match and subsequences. */
module Seqs {

  /** `a` can be obtained from `b` by deleting elements (order kept). */
  predicate IsSubseq<T(==)>(a: seq<T>, b: seq<T>)
    decreases |b|
  {
    if a == [] then true
    else if b == [] then false
    else if a[0] == b[0] then IsSubseq(a[1..], b[1..])
    else IsSubseq(a, b[1..])
  }

  lemma {:induction false} SubseqDropFirst<T>(a: seq<T>, b: seq<T>)
    requires a != [] && IsSubseq(a, b)
    ensures IsSubseq(a[1..], b)
    decreases |b|, 0
  {
    if a[0] == b[0] {
      SubseqCons(a[1..], b[1..], b[0]);
      assert [b[0]] + b[1..] == b;
    } else {
      SubseqDropFirst(a, b[1..]);
      SubseqCons(a[1..], b[1..], b[0]);
      assert [b[0]] + b[1..] == b;
    }
  }

  /** Putting an element in front of `b` keeps every subsequence of `b` a subsequence. */
  lemma {:induction false} SubseqCons<T>(a: seq<T>, b: seq<T>, x: T)
    requires IsSubseq(a, b)
    ensures IsSubseq(a, [x] + b)
    decreases |b|, 1
  {
    var xb := [x] + b;
    assert xb[1..] == b;
    if a != [] && a[0] == x {
      SubseqDropFirst(a, b);
    }
  }

  lemma SubseqRefl<T>(a: seq<T>)
    ensures IsSubseq(a, a)
  {
    if a != [] {
      SubseqRefl(a[1..]);
    }
  }

  /** The elements of `s` that satisfy `p`, in their original order. */
  function Filter<T>(s: seq<T>, p: T -> bool): (r: seq<T>)
    ensures |r| <= |s|
    ensures forall i :: 0 <= i < |r| ==> p(r[i])
  {
    if s == [] then []
    else if p(s[0]) then [s[0]] + Filter(s[1..], p)
    else Filter(s[1..], p)
  }

  /** `Filter` keeps exactly the elements satisfying `p`, in order. */
  lemma {:induction false} FilterKeeps<T>(s: seq<T>, p: T -> bool)
    ensures forall i :: 0 <= i < |Filter(s, p)| ==> Filter(s, p)[i] in s
    ensures forall i :: 0 <= i < |s| && p(s[i]) ==> s[i] in Filter(s, p)
    ensures IsSubseq(Filter(s, p), s)
  {
    if s != [] {
      FilterKeeps(s[1..], p);
      var rest := Filter(s[1..], p);
      assert s == [s[0]] + s[1..];
      if p(s[0]) {
        assert ([s[0]] + rest)[1..] == rest;
      } else {
        SubseqCons(rest, s[1..], s[0]);
      }
    }
  }

  lemma FilterAppend<T>(a: seq<T>, b: seq<T>, p: T -> bool)
    ensures Filter(a + b, p) == Filter(a, p) + Filter(b, p)
  {
    if a == [] {
      assert a + b == b;
    } else {
      assert (a + b)[1..] == a[1..] + b;
      FilterAppend(a[1..], b, p);
    }
  }

  /** The first element of `s` satisfying `p`, as an index: `|s|` when there is none. */
  function FirstIndex<T>(s: seq<T>, p: T -> bool): (i: nat)
    ensures i <= |s|
    ensures forall j :: 0 <= j < i ==> !p(s[j])
    ensures i < |s| ==> p(s[i])
  {
    if s == [] then 0
    else if p(s[0]) then 0
    else 1 + FirstIndex(s[1..], p)
  }
}
