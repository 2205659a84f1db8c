/** The name key used to match an officeholder against the declaration index:
    accents removed, lower-cased, runs of hyphens and whitespace collapsed to one space,
    then stripped. */
module Names {
  import opened Text
  import Seqs

  /** The characters the pattern `[-\s]` matches. */
  predicate IsSeparator(c: char) {
    c == '-' || IsSpace(c)
  }

  /** `re.sub(r"[-\s]+", " ", s)`; `inRun` says the previous character was a separator. */
  function CollapseSeparators(s: string, inRun: bool): (r: string)
    ensures OnlySpaceSeparators(r)
    ensures NoAdjacentSpaces(r)
    ensures inRun && r != [] ==> r[0] != ' '
  {
    if s == [] then []
    else if IsSeparator(s[0]) then
      if inRun then CollapseSeparators(s[1..], true) else " " + CollapseSeparators(s[1..], true)
    else [s[0]] + CollapseSeparators(s[1..], false)
  }

  /** The only separator left in `s` is the plain space. */
  predicate OnlySpaceSeparators(s: string) {
    forall i :: 0 <= i < |s| ==> s[i] == ' ' || !IsSeparator(s[i])
  }

  /** No two consecutive whitespace characters. */
  predicate NoAdjacentSpaces(s: string) {
    forall i, j :: 0 <= i < |s| && 0 <= j < |s| && j == i + 1 ==> !(IsSpace(s[i]) && IsSpace(s[j]))
  }

  /** Not a mark: the characters the Mn filter keeps. */
  function Unmarked(ops: CaseOps): char -> bool {
    c => !ops.isMark(c)
  }

  /** The stages before the collapse: decompose, drop the marks, lower-case. */
  function Prepare(ops: CaseOps, s: string): string {
    Lower(ops, Seqs.Filter(FlatMapChars(s, ops.decompose), Unmarked(ops)))
  }

  /** The name key of `s` (`normalize_name`). */
  function NormalizeName(ops: CaseOps, s: string): string {
    Strip(CollapseSeparators(Prepare(ops, s), false))
  }

  /** A name key has no hyphen, no whitespace but plain spaces, never two spaces in a row, and
      no space at either end. */
  lemma NormalizeNameShape(ops: CaseOps, s: string)
    ensures var r := NormalizeName(ops, s);
            && '-' !in r && OnlySpaceSeparators(r) && NoAdjacentSpaces(r)
            && (r == [] || (!IsSpace(r[0]) && !IsSpace(r[|r| - 1])))
  {
    var collapsed := CollapseSeparators(Prepare(ops, s), false);
    StripKeepsShape(collapsed);
    StripEdges(collapsed);
  }

  /** Stripping a collapsed string keeps its shape. */
  lemma StripKeepsShape(s: string)
    requires OnlySpaceSeparators(s) && NoAdjacentSpaces(s)
    ensures '-' !in Strip(s) && NoAdjacentSpaces(Strip(s)) && OnlySpaceSeparators(Strip(s))
  {
    var r := Strip(s);
    var i := StripStart(s);
    StripSpec(s);
    SliceKeepsShape(s, i, |r|);
  }

  /** A slice of a collapsed string is still free of hyphens and of adjacent whitespace. */
  lemma SliceKeepsShape(s: string, i: nat, n: nat)
    requires i + n <= |s|
    requires OnlySpaceSeparators(s) && NoAdjacentSpaces(s)
    ensures '-' !in s[i..i + n]
    ensures NoAdjacentSpaces(s[i..i + n]) && OnlySpaceSeparators(s[i..i + n])
  {
    var t := s[i..i + n];
    assert forall k :: 0 <= k < n ==> t[k] == s[i + k];
  }

  /** Which separator stands at a given place does not matter. */
  lemma {:induction false} CollapseAnySeparator(a: string, b: string, c: char, d: char, inRun: bool)
    requires IsSeparator(c) && IsSeparator(d)
    ensures CollapseSeparators(a + [c] + b, inRun) == CollapseSeparators(a + [d] + b, inRun)
  {
    if a == [] {
      assert ([c] + b)[1..] == b;
      assert ([d] + b)[1..] == b;
    } else {
      assert (a + [c] + b)[1..] == a[1..] + [c] + b;
      assert (a + [d] + b)[1..] == a[1..] + [d] + b;
      CollapseAnySeparator(a[1..], b, c, d, IsSeparator(a[0]));
    }
  }

  /** A separator doubled collapses like a single one. */
  lemma {:induction false} CollapseSeparatorRun(a: string, b: string, c: char, d: char, inRun: bool)
    requires IsSeparator(c) && IsSeparator(d)
    ensures CollapseSeparators(a + [c, d] + b, inRun) == CollapseSeparators(a + [c] + b, inRun)
  {
    if a == [] {
      assert ([c, d] + b)[1..] == [d] + b;
      assert ([d] + b)[1..] == b;
      assert ([c] + b)[1..] == b;
    } else {
      assert (a + [c, d] + b)[1..] == a[1..] + [c, d] + b;
      assert (a + [c] + b)[1..] == a[1..] + [c] + b;
      CollapseSeparatorRun(a[1..], b, c, d, IsSeparator(a[0]));
    }
  }

  /** The character services leave `c` alone: no decomposition, not a mark, its own lowercase. */
  predicate FixedBy(ops: CaseOps, c: char) {
    ops.decompose(c) == [c] && !ops.isMark(c) && ops.lower(c) == [c]
  }

  /** The stages before the collapse distribute over a three-part split. */
  lemma PrepareSplit(ops: CaseOps, a: string, c: char, b: string)
    requires FixedBy(ops, c)
    ensures Prepare(ops, a + [c] + b) == Prepare(ops, a) + [c] + Prepare(ops, b)
  {
    var p := Unmarked(ops);
    FlatMapCharsAppend(a + [c], b, ops.decompose);
    FlatMapCharsAppend(a, [c], ops.decompose);
    assert FlatMapChars([c], ops.decompose) == [c];
    var da, db := FlatMapChars(a, ops.decompose), FlatMapChars(b, ops.decompose);
    Seqs.FilterAppend(da + [c], db, p);
    Seqs.FilterAppend(da, [c], p);
    assert Seqs.Filter([c], p) == [c];
    var fa, fb := Seqs.Filter(da, p), Seqs.Filter(db, p);
    FlatMapCharsAppend(fa + [c], fb, ops.lower);
    FlatMapCharsAppend(fa, [c], ops.lower);
    assert FlatMapChars([c], ops.lower) == [c];
  }

  lemma PrepareAppendChar(ops: CaseOps, a: string, c: char)
    requires FixedBy(ops, c)
    ensures Prepare(ops, a + [c]) == Prepare(ops, a) + [c]
  {
    PrepareSplit(ops, a, c, []);
    assert a + [c] + [] == a + [c];
    assert Prepare(ops, []) == [];
  }

  /** Names that differ only in which separator they use get the same key:
      "Braun-Pivet" and "Braun Pivet" match. */
  lemma NormalizeNameAnySeparator(ops: CaseOps, a: string, b: string, c: char, d: char)
    requires IsSeparator(c) && IsSeparator(d) && FixedBy(ops, c) && FixedBy(ops, d)
    ensures NormalizeName(ops, a + [c] + b) == NormalizeName(ops, a + [d] + b)
  {
    var pa, pb := Prepare(ops, a), Prepare(ops, b);
    PrepareSplit(ops, a, c, b);
    PrepareSplit(ops, a, d, b);
    CollapseAnySeparator(pa, pb, c, d, false);
  }

  /** A run of two separators gives the same key as one: "Braun  Pivet" matches "Braun Pivet". */
  lemma PairConcat(x: string, y: string, c: char, d: char)
    ensures x + [c] + [d] + y == x + [c, d] + y
  {
  }

  /** The stages before the collapse keep a two-separator run in place. */
  lemma PrepareRun(ops: CaseOps, a: string, b: string, c: char, d: char)
    requires FixedBy(ops, c) && FixedBy(ops, d)
    ensures Prepare(ops, a + [c, d] + b) == Prepare(ops, a) + [c, d] + Prepare(ops, b)
  {
    var ac := a + [c];
    assert a + [c, d] + b == ac + [d] + b;
    PrepareSplit(ops, ac, d, b);
    PrepareAppendChar(ops, a, c);
    PairConcat(Prepare(ops, a), Prepare(ops, b), c, d);
  }

  lemma NormalizeNameSeparatorRun(ops: CaseOps, a: string, b: string, c: char, d: char)
    requires IsSeparator(c) && IsSeparator(d) && FixedBy(ops, c) && FixedBy(ops, d)
    ensures NormalizeName(ops, a + [c, d] + b) == NormalizeName(ops, a + [c] + b)
  {
    var pa, pb := Prepare(ops, a), Prepare(ops, b);
    PrepareRun(ops, a, b, c, d);
    PrepareSplit(ops, a, c, b);
    CollapseSeparatorRun(pa, pb, c, d, false);
  }

  /* A concrete instance of the character services, covering ASCII and the accented Latin-1
     letters of French names; other characters are left unchanged. */

  const LatinDecompositions: map<char, string> := map[
    '\U{C0}' := "A\U{300}", '\U{C1}' := "A\U{301}", '\U{C2}' := "A\U{302}", '\U{C4}' := "A\U{308}",
    '\U{C7}' := "C\U{327}", '\U{C8}' := "E\U{300}", '\U{C9}' := "E\U{301}", '\U{CA}' := "E\U{302}",
    '\U{CB}' := "E\U{308}", '\U{CD}' := "I\U{301}", '\U{CE}' := "I\U{302}", '\U{CF}' := "I\U{308}",
    '\U{D1}' := "N\U{303}", '\U{D3}' := "O\U{301}", '\U{D4}' := "O\U{302}", '\U{D6}' := "O\U{308}",
    '\U{D9}' := "U\U{300}", '\U{DA}' := "U\U{301}", '\U{DB}' := "U\U{302}", '\U{DC}' := "U\U{308}",
    '\U{E0}' := "a\U{300}", '\U{E1}' := "a\U{301}", '\U{E2}' := "a\U{302}", '\U{E4}' := "a\U{308}",
    '\U{E7}' := "c\U{327}", '\U{E8}' := "e\U{300}", '\U{E9}' := "e\U{301}", '\U{EA}' := "e\U{302}",
    '\U{EB}' := "e\U{308}", '\U{ED}' := "i\U{301}", '\U{EE}' := "i\U{302}", '\U{EF}' := "i\U{308}",
    '\U{F1}' := "n\U{303}", '\U{F3}' := "o\U{301}", '\U{F4}' := "o\U{302}", '\U{F6}' := "o\U{308}",
    '\U{F9}' := "u\U{300}", '\U{FA}' := "u\U{301}", '\U{FB}' := "u\U{302}", '\U{FC}' := "u\U{308}",
    '\U{FF}' := "y\U{308}"]

  function LatinDecompose(c: char): string {
    if c < '\U{C0}' || '\U{FF}' < c || c !in LatinDecompositions then [c]
    else LatinDecompositions[c]
  }

  /** The Combining Diacritical Marks block, all of category Mn. */
  predicate LatinIsMark(c: char) {
    '\U{300}' <= c <= '\U{36F}'
  }

  function LatinLower(c: char): string {
    if 'A' <= c <= 'Z' || ('\U{C0}' <= c <= '\U{DE}' && c != '\U{D7}') then [(c as int + 32) as char]
    else [c]
  }

  function LatinUpper(c: char): string {
    if 'a' <= c <= 'z' || ('\U{E0}' <= c <= '\U{FE}' && c != '\U{F7}') then [(c as int - 32) as char]
    else if c == '\U{DF}' then "SS"
    else if c == '\U{FF}' then "\U{178}"
    else [c]
  }

  const LatinOps := CaseOps(LatinDecompose, LatinIsMark, LatinLower, LatinUpper)

  /** The Latin lower-casing maps each character to exactly one character. */
  lemma {:induction false} LatinLowerSpec(s: string)
    ensures |Lower(LatinOps, s)| == |s|
    ensures forall i :: 0 <= i < |s| ==> Lower(LatinOps, s)[i] == LatinLower(s[i])[0]
  {
    if s != [] {
      LatinLowerSpec(s[1..]);
      assert Lower(LatinOps, s) == LatinLower(s[0]) + Lower(LatinOps, s[1..]);
    }
  }

  /** Only the letter itself and its ASCII capital lower-case to an ASCII small letter. */
  lemma LatinLowerLetter(c: char, x: char)
    requires 'a' <= x <= 'z'
    ensures LatinLower(c)[0] == x <==> c == x || c as int == x as int - 32
  {
  }

  /** Every stage before the collapse works character by character. */
  lemma PrepareAppend(ops: CaseOps, a: string, b: string)
    ensures Prepare(ops, a + b) == Prepare(ops, a) + Prepare(ops, b)
  {
    var p := Unmarked(ops);
    FlatMapCharsAppend(a, b, ops.decompose);
    var da, db := FlatMapChars(a, ops.decompose), FlatMapChars(b, ops.decompose);
    Seqs.FilterAppend(da, db, p);
    FlatMapCharsAppend(Seqs.Filter(da, p), Seqs.Filter(db, p), ops.lower);
  }

  /** A string already in key form: plain spaces only, never two in a row, none at either end. */
  predicate IsCanonical(s: string) {
    && OnlySpaceSeparators(s)
    && NoAdjacentSpaces(s)
    && (s == [] || (!IsSpace(s[0]) && !IsSpace(s[|s| - 1])))
  }

  /** Collapsing changes nothing in a string whose separators are already single spaces. */
  lemma {:induction false} CollapseCanonical(s: string, inRun: bool)
    requires OnlySpaceSeparators(s) && NoAdjacentSpaces(s)
    requires s == [] || !IsSeparator(s[0])
    ensures CollapseSeparators(s, inRun) == s
    decreases |s|
  {
    if s != [] {
      var t := s[1..];
      assert OnlySpaceSeparators(t) && NoAdjacentSpaces(t) by {
        assert forall k :: 0 <= k < |t| ==> t[k] == s[k + 1];
      }
      if t == [] || !IsSeparator(t[0]) {
        CollapseCanonical(t, false);
      } else {
        var u := t[1..];
        assert t[0] == ' ';
        assert u == [] || !IsSeparator(u[0]) by {
          if u != [] { assert u[0] == s[2]; }
        }
        assert OnlySpaceSeparators(u) && NoAdjacentSpaces(u) by {
          assert forall k :: 0 <= k < |u| ==> u[k] == s[k + 2];
        }
        CollapseCanonical(u, true);
        assert t == [' '] + u;
      }
      assert s == [s[0]] + t;
    }
  }

  /** A name already in key form, which the character services leave alone, is its own key. */
  lemma NormalizeCanonical(ops: CaseOps, s: string)
    requires IsCanonical(s) && Prepare(ops, s) == s
    ensures NormalizeName(ops, s) == s
  {
    CollapseCanonical(s, false);
    StripNoEdgeSpace(s);
  }

  /** The key is a fixed point of `NormalizeName` whenever the character services leave the
      key itself unchanged (lower-casing may otherwise reintroduce marks). */
  lemma NormalizeNameIdempotent(ops: CaseOps, s: string)
    requires Prepare(ops, NormalizeName(ops, s)) == NormalizeName(ops, s)
    ensures NormalizeName(ops, NormalizeName(ops, s)) == NormalizeName(ops, s)
  {
    NormalizeNameShape(ops, s);
    NormalizeCanonical(ops, NormalizeName(ops, s));
  }

  /** Lower-case ASCII letters, spaces and hyphens pass the Latin character services unchanged. */
  lemma {:induction false} PrepareLatinPlain(w: string)
    requires forall i :: 0 <= i < |w| ==> 'a' <= w[i] <= 'z' || w[i] == ' ' || w[i] == '-'
    ensures Prepare(LatinOps, w) == w
  {
    if w != [] {
      var c := w[0];
      PrepareLatinPlainChar(c);
      PrepareAppend(LatinOps, [c], w[1..]);
      PrepareLatinPlain(w[1..]);
      assert [c] + w[1..] == w;
    }
  }

  lemma PrepareLatinPlainChar(c: char)
    requires 'a' <= c <= 'z' || c == ' ' || c == '-'
    ensures Prepare(LatinOps, [c]) == [c]
  {
    assert FlatMapChars([c], LatinDecompose) == [c];
    assert Seqs.Filter([c], Unmarked(LatinOps)) == [c];
    assert FlatMapChars([c], LatinLower) == [c];
  }

  lemma PrepareLatinUpper(c: char)
    requires 'A' <= c <= 'Z'
    ensures Prepare(LatinOps, [c]) == [(c as int + 32) as char]
  {
    assert FlatMapChars([c], LatinDecompose) == [c];
    assert Seqs.Filter([c], Unmarked(LatinOps)) == [c];
    assert FlatMapChars([c], LatinLower) == [(c as int + 32) as char];
  }

  lemma PrepareLatinEDiaeresis()
    ensures Prepare(LatinOps, "\U{EB}") == "e"
  {
    var d := FlatMapChars("\U{EB}", LatinDecompose);
    assert d == "e\U{308}";
    assert Seqs.Filter(d, Unmarked(LatinOps)) == "e" by {
      assert d[1..] == "\U{308}";
      assert Seqs.Filter(d[1..], Unmarked(LatinOps)) == [];
    }
    assert FlatMapChars("e", LatinLower) == "e";
  }

  lemma LatinFixesSeparators()
    ensures FixedBy(LatinOps, ' ') && FixedBy(LatinOps, '-')
  {
  }

  lemma KeyIsCanonical()
    ensures IsCanonical("yael braun pivet")
  {
  }

  /** The expected key is left alone by the collapse and the strip. */
  lemma KeyCollapses()
    ensures Strip(CollapseSeparators("yael braun pivet", false)) == "yael braun pivet"
  {
    KeyIsCanonical();
    CollapseCanonical("yael braun pivet", false);
    StripNoEdgeSpace("yael braun pivet");
  }

  /** The expected key is its own key. */
  lemma ExampleKey()
    ensures NormalizeName(LatinOps, "yael braun pivet") == "yael braun pivet"
  {
    PrepareLatinPlain("yael braun pivet");
    KeyCollapses();
  }

  lemma ExampleYa()
    ensures Prepare(LatinOps, "Ya") == "ya"
  {
    SplitsGivenName();
    PrepareAppend(LatinOps, "Y", "a");
    PrepareLatinUpper('Y');
    PrepareLatinPlain("a");
  }

  lemma ExampleYae()
    ensures Prepare(LatinOps, "Ya\U{EB}") == "yae"
  {
    SplitsGivenName();
    ExampleYa();
    PrepareAppend(LatinOps, "Ya", "\U{EB}");
    PrepareLatinEDiaeresis();
  }

  lemma ExampleGivenName()
    ensures Prepare(LatinOps, "Ya\U{EB}l ") == "yael "
  {
    SplitsGivenName();
    ExampleYae();
    PrepareAppend(LatinOps, "Ya\U{EB}", "l ");
    PrepareLatinPlain("l ");
  }

  lemma ExampleBraun()
    ensures Prepare(LatinOps, "Braun-") == "braun-"
  {
    SplitsFamilyName();
    PrepareAppend(LatinOps, "B", "raun-");
    PrepareLatinUpper('B');
    PrepareLatinPlain("raun-");
  }

  lemma ExampleBraunP()
    ensures Prepare(LatinOps, "Braun-P") == "braun-p"
  {
    SplitsFamilyName();
    ExampleBraun();
    PrepareAppend(LatinOps, "Braun-", "P");
    PrepareLatinUpper('P');
  }

  lemma ExampleFamilyName()
    ensures Prepare(LatinOps, "Braun-Pivet") == "braun-pivet"
  {
    SplitsFamilyName();
    ExampleBraunP();
    PrepareAppend(LatinOps, "Braun-P", "ivet");
    PrepareIvet();
    assert "braun-p" + "ivet" == "braun-pivet";
  }

  lemma PrepareIvet()
    ensures Prepare(LatinOps, "ivet") == "ivet"
  {
    PrepareLatinPlain("ivet");
  }

  lemma ExampleFullName()
    ensures Prepare(LatinOps, "Ya\U{EB}l Braun-Pivet") == "yael braun-pivet"
  {
    SplitsFullName();
    ExampleGivenName();
    ExampleFamilyName();
    PrepareAppend(LatinOps, "Ya\U{EB}l ", "Braun-Pivet");
  }

  lemma ExampleAccents()
    ensures NormalizeName(LatinOps, "Ya\U{EB}l Braun-Pivet") == "yael braun pivet"
  {
    ExampleFullName();
    SplitsHyphen();
    CollapseAnySeparator("yael braun", "pivet", '-', ' ', false);
    KeyCollapses();
  }

  lemma SplitsGivenName()
    ensures "Ya\U{EB}l " == "Ya\U{EB}" + "l " && "Ya\U{EB}" == "Ya" + "\U{EB}" && "Ya" == "Y" + "a"
    ensures "y" + "a" == "ya" && "ya" + "e" == "yae" && "yae" + "l " == "yael "
  {
  }

  lemma SplitsFamilyName()
    ensures "Braun-Pivet" == "Braun-P" + "ivet" && "Braun-P" == "Braun-" + "P" && "Braun-" == "B" + "raun-"
    ensures "b" + "raun-" == "braun-" && "braun-" + "p" == "braun-p" && "braun-p" + "ivet" == "braun-pivet"
  {
  }

  lemma SplitsFullName()
    ensures "Ya\U{EB}l Braun-Pivet" == "Ya\U{EB}l " + "Braun-Pivet"
    ensures "yael " + "braun-pivet" == "yael braun-pivet"
  {
  }

  lemma SplitsHyphen()
    ensures "yael braun-pivet" == "yael braun" + ['-'] + "pivet"
    ensures "yael braun pivet" == "yael braun" + [' '] + "pivet"
  {
  }

  lemma SplitsSpaceRun()
    ensures "yael   braun pivet" == "yael" + [' ', ' '] + " braun pivet"
    ensures "yael  braun pivet" == "yael" + [' '] + " braun pivet"
    ensures "yael  braun pivet" == "yael" + [' ', ' '] + "braun pivet"
    ensures "yael braun pivet" == "yael" + [' '] + "braun pivet"
  {
  }

  lemma ExampleSpaceRun()
    ensures NormalizeName(LatinOps, "yael   braun pivet") == NormalizeName(LatinOps, "yael braun pivet")
  {
    LatinFixesSeparators();
    SplitsSpaceRun();
    NormalizeNameSeparatorRun(LatinOps, "yael", " braun pivet", ' ', ' ');
    NormalizeNameSeparatorRun(LatinOps, "yael", "braun pivet", ' ', ' ');
  }

  /** "Yaël Braun-Pivet" and "yael   braun pivet" get the same key. */
  lemma AccentAndHyphenExample()
    ensures NormalizeName(LatinOps, "Ya\U{EB}l Braun-Pivet") == "yael braun pivet"
    ensures NormalizeName(LatinOps, "yael   braun pivet") == "yael braun pivet"
  {
    ExampleKey();
    ExampleAccents();
    ExampleSpaceRun();
  }
}
