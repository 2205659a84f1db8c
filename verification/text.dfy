/** Character classes and string helpers shared by every part of the extractor. */
module Text {

  /** Python's `str.isspace`: the characters `str.strip()` removes and the regular-expression
      class `\s` matches on `str` patterns. */
  predicate IsSpace(c: char) {
    || ('\U{9}' <= c <= '\U{D}')
    || ('\U{1C}' <= c <= '\U{1F}')
    || c == ' '
    || c == '\U{85}'
    || c == '\U{A0}'
    || c == '\U{1680}'
    || ('\U{2000}' <= c <= '\U{200A}')
    || c == '\U{2028}'
    || c == '\U{2029}'
    || c == '\U{202F}'
    || c == '\U{205F}'
    || c == '\U{3000}'
  }

  /** `s` without its leading whitespace. */
  function TrimLeft(s: string): string {
    if s != [] && IsSpace(s[0]) then TrimLeft(s[1..]) else s
  }

  /** `TrimLeft` removes a prefix made of whitespace only, and what it keeps does not start
      with whitespace. */
  lemma {:induction false} TrimLeftSpec(s: string)
    ensures var r := TrimLeft(s);
            && |r| <= |s| && r == s[|s| - |r|..]
            && (forall k :: 0 <= k < |s| - |r| ==> IsSpace(s[k]))
            && (r == [] || !IsSpace(r[0]))
  {
    if s != [] && IsSpace(s[0]) {
      TrimLeftSpec(s[1..]);
      var r := TrimLeft(s);
      forall k | 1 <= k < |s| - |r|
        ensures IsSpace(s[k])
      {
        assert s[k] == s[1..][k - 1];
      }
    }
  }

  /** `s` without its trailing whitespace. */
  function TrimRight(s: string): string {
    if s != [] && IsSpace(s[|s| - 1]) then TrimRight(s[..|s| - 1]) else s
  }

  /** `TrimRight` removes a suffix made of whitespace only, and what it keeps does not end
      with whitespace. */
  lemma {:induction false} TrimRightSpec(s: string)
    ensures var r := TrimRight(s);
            && |r| <= |s| && r == s[..|r|]
            && (forall k :: |r| <= k < |s| ==> IsSpace(s[k]))
            && (r == [] || !IsSpace(r[|r| - 1]))
  {
    if s != [] && IsSpace(s[|s| - 1]) {
      TrimRightSpec(s[..|s| - 1]);
      var r := TrimRight(s);
      forall k | |r| <= k < |s| - 1
        ensures IsSpace(s[k])
      {
        assert s[k] == s[..|s| - 1][k];
      }
    }
  }

  /** Python's `str.strip()`. */
  function Strip(s: string): string {
    TrimRight(TrimLeft(s))
  }

  /** Where the slice kept by `Strip` begins. */
  function StripStart(s: string): nat {
    TrimLeftSpec(s);
    |s| - |TrimLeft(s)|
  }

  /** `Strip` keeps the longest slice of `s` that neither starts nor ends with whitespace,
      and removes only whitespace. */
  lemma StripSpec(s: string)
    ensures var r, i := Strip(s), StripStart(s);
            && (r == [] || (!IsSpace(r[0]) && !IsSpace(r[|r| - 1])))
            && i + |r| <= |s|
            && r == s[i..i + |r|]
            && (forall k :: 0 <= k < i ==> IsSpace(s[k]))
            && (forall k :: i + |r| <= k < |s| ==> IsSpace(s[k]))
  {
    var l := TrimLeft(s);
    var r := TrimRight(l);
    TrimLeftSpec(s);
    TrimRightSpec(l);
    if r != [] {
      assert r[0] == l[0];
    }
    forall k | |s| - |l| + |r| <= k < |s|
      ensures IsSpace(s[k])
    {
      assert s[k] == l[k - (|s| - |l|)];
    }
  }

  /** Every non-whitespace character of `s` survives `Strip`, at the same relative place. */
  lemma StripKeepsNonSpace(s: string, k: int)
    requires 0 <= k < |s| && !IsSpace(s[k])
    ensures StripStart(s) <= k < StripStart(s) + |Strip(s)|
    ensures Strip(s)[k - StripStart(s)] == s[k]
  {
    StripSpec(s);
  }

  /** A string that neither starts nor ends with whitespace is its own `Strip`. */
  lemma StripNoEdgeSpace(s: string)
    requires s == [] || (!IsSpace(s[0]) && !IsSpace(s[|s| - 1]))
    ensures Strip(s) == s
  {
    assert TrimLeft(s) == s;
    assert TrimRight(s) == s;
  }

  /** `Strip` gives a string with no whitespace at either end. */
  lemma StripEdges(s: string)
    ensures Strip(s) == [] || (!IsSpace(Strip(s)[0]) && !IsSpace(Strip(s)[|Strip(s)| - 1]))
  {
    StripSpec(s);
  }

  /** Whether `w` is made of whitespace only. */
  predicate AllSpace(w: string) {
    forall k :: 0 <= k < |w| ==> IsSpace(w[k])
  }

  /** `TrimLeft` removes all of a whitespace-only string. */
  lemma {:induction false} TrimLeftAllSpace(w: string)
    requires AllSpace(w)
    ensures TrimLeft(w) == []
  {
    if w != [] {
      TrimLeftAllSpace(w[1..]);
    }
  }

  /** Trimming the left of `s + y` stops inside `s` unless `s` is whitespace only. */
  lemma {:induction false} TrimLeftAppend(s: string, y: string)
    ensures TrimLeft(s) != [] ==> TrimLeft(s + y) == TrimLeft(s) + y
    ensures TrimLeft(s) == [] ==> TrimLeft(s + y) == TrimLeft(y)
  {
    if s == [] {
      assert s + y == y;
    } else {
      assert (s + y)[0] == s[0];
      if IsSpace(s[0]) {
        assert (s + y)[1..] == s[1..] + y;
        TrimLeftAppend(s[1..], y);
      }
    }
  }

  /** Trailing whitespace appended to `x` is all removed by `TrimRight`, and nothing more changes. */
  lemma {:induction false} TrimRightAppend(x: string, w: string)
    requires AllSpace(w)
    ensures TrimRight(x + w) == TrimRight(x)
  {
    if w == [] {
      assert x + w == x;
    } else {
      var xw := x + w;
      assert xw[|xw| - 1] == w[|w| - 1];
      assert xw[..|xw| - 1] == x + w[..|w| - 1];
      TrimRightAppend(x, w[..|w| - 1]);
    }
  }

  /** Whitespace added around a string does not change its `Strip`. */
  lemma StripPadded(w1: string, s: string, w2: string)
    requires AllSpace(w1) && AllSpace(w2)
    ensures Strip(w1 + s + w2) == Strip(s)
  {
    assert w1 + s + w2 == w1 + (s + w2);
    TrimLeftAllSpace(w1);
    TrimLeftAppend(w1, s + w2);
    TrimLeftAppend(s, w2);
    if TrimLeft(s) != [] {
      TrimRightAppend(TrimLeft(s), w2);
    } else {
      TrimLeftAllSpace(w2);
    }
  }

  predicate StartsWith(s: string, prefix: string) {
    |prefix| <= |s| && s[..|prefix|] == prefix
  }

  predicate EndsWith(s: string, suffix: string) {
    |suffix| <= |s| && s[|s| - |suffix|..] == suffix
  }

  /** Python's `sep.join(parts)`. */
  function Join(parts: seq<string>, sep: string): string
  {
    if parts == [] then ""
    else if |parts| == 1 then parts[0]
    else parts[0] + sep + Join(parts[1..], sep)
  }

  /** The index of the first non-empty string of `ts`, or `|ts|` when all are empty. */
  function FirstNonEmptyIndex(ts: seq<string>): (k: nat)
    ensures k <= |ts|
    ensures forall j :: 0 <= j < k ==> ts[j] == ""
    ensures k < |ts| ==> ts[k] != ""
  {
    if ts == [] || ts[0] != "" then 0 else 1 + FirstNonEmptyIndex(ts[1..])
  }

  /** Python's `a or b or ... or ""` over strings. */
  function FirstNonEmpty(ts: seq<string>): (r: string)
    ensures r == "" <==> forall k :: 0 <= k < |ts| ==> ts[k] == ""
    ensures r != "" ==> r == ts[FirstNonEmptyIndex(ts)]
  {
    if ts == [] then ""
    else if ts[0] != "" then ts[0]
    else
      assert forall k :: 1 <= k < |ts| ==> ts[k] == ts[1..][k - 1];
      FirstNonEmpty(ts[1..])
  }

  /** The per-character Unicode services the extractor relies on. Python takes them from its
      Unicode database; here they are parameters. */
  datatype CaseOps = CaseOps(
    decompose: char -> string,  // canonical decomposition (NFD) of one character
    isMark: char -> bool,       // general category Mn (non-spacing mark)
    lower: char -> string,      // full lowercase mapping
    upper: char -> string)      // full uppercase mapping

  /** Replace every character `c` of `s` by `f(c)`. */
  function FlatMapChars(s: string, f: char -> string): string
  {
    if s == [] then [] else f(s[0]) + FlatMapChars(s[1..], f)
  }

  lemma FlatMapCharsAppend(a: string, b: string, f: char -> string)
    ensures FlatMapChars(a + b, f) == FlatMapChars(a, f) + FlatMapChars(b, f)
  {
    if a == [] {
      assert a + b == b;
    } else {
      assert (a + b)[1..] == a[1..] + b;
      FlatMapCharsAppend(a[1..], b, f);
    }
  }

  /** Python's `str.lower()`. */
  function Lower(ops: CaseOps, s: string): string {
    FlatMapChars(s, ops.lower)
  }

  /** Python's `str.upper()`. */
  function Upper(ops: CaseOps, s: string): string {
    FlatMapChars(s, ops.upper)
  }
}
