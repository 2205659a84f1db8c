/** Amounts as the declarations write them ("1 157,30"): spaces and no-break spaces dropped,
    decimal comma read as a point, then Python's `float` on what is left. Values are exact
    decimals (`real`), not binary floating point. */
module Amount {
  import opened Wrappers
  import opened Text

  const NoBreakSpace: char := '\U{A0}'

  predicate IsDigit(c: char) {
    '0' <= c <= '9'
  }

  predicate AllDigits(s: string) {
    forall i :: 0 <= i < |s| ==> IsDigit(s[i])
  }

  predicate HasDigit(s: string) {
    exists i :: 0 <= i < |s| && IsDigit(s[i])
  }

  function Pow10(n: nat): (r: nat)
    ensures r >= 1
  {
    if n == 0 then 1 else 10 * Pow10(n - 1)
  }

  /** The number a run of decimal digits denotes, most significant digit first. */
  function DigitsValue(s: string): nat
    requires AllDigits(s)
  {
    if s == [] then 0 else DigitsValue(s[..|s| - 1]) * 10 + (s[|s| - 1] as int - '0' as int)
  }

  /** What the three `replace` calls do to one character. */
  function NormalizeChar(c: char): string {
    if c == ' ' || c == NoBreakSpace then [] else if c == ',' then "." else [c]
  }

  /** The amount string with spaces and no-break spaces removed and commas turned into points. */
  function NormalizeAmount(s: string): string {
    if s == [] then [] else NormalizeChar(s[0]) + NormalizeAmount(s[1..])
  }

  lemma {:induction false} NormalizeAmountAppend(a: string, b: string)
    ensures NormalizeAmount(a + b) == NormalizeAmount(a) + NormalizeAmount(b)
  {
    if a != [] {
      assert (a + b)[1..] == a[1..] + b;
      NormalizeAmountAppend(a[1..], b);
    } else {
      assert a + b == b;
    }
  }

  lemma {:induction false} NormalizeAmountDigits(s: string)
    requires AllDigits(s)
    ensures NormalizeAmount(s) == s
  {
    if s != [] {
      NormalizeAmountDigits(s[1..]);
      assert s == [s[0]] + s[1..];
    }
  }

  /** The index of the first decimal point, or `|t|` when there is none. */
  function PointIndex(t: string): (i: nat)
    ensures i <= |t|
    ensures forall j :: 0 <= j < i ==> t[j] != '.'
    ensures i < |t| ==> t[i] == '.'
  {
    if t == [] then 0 else if t[0] == '.' then 0 else 1 + PointIndex(t[1..])
  }

  /** An unsigned decimal: digits, optionally a point and more digits, at least one digit
      in all. */
  function ParseUnsigned(t: string): (r: Option<real>)
    ensures r.Some? ==> r.value >= 0.0 && HasDigit(t)
  {
    var i := PointIndex(t);
    var whole := t[..i];
    var frac := if i < |t| then t[i + 1..] else [];
    if AllDigits(whole) && AllDigits(frac) && (whole != [] || frac != []) then
      assert whole != [] ==> IsDigit(t[0]);
      assert whole == [] ==> IsDigit(t[i + 1]);
      Some(DecimalValue(whole, frac))
    else None
  }

  /** The value of `whole.frac`. */
  function DecimalValue(whole: string, frac: string): (v: real)
    requires AllDigits(whole) && AllDigits(frac)
    ensures v >= 0.0
  {
    DigitsValue(whole) as real + DigitsValue(frac) as real / Pow10(|frac|) as real
  }

  /** Python's `float` on the decimal forms the declarations use: an optional sign, then an
      unsigned decimal. */
  function ParseDecimal(t: string): (r: Option<real>)
    ensures r.Some? ==> HasDigit(t)
    ensures r.Some? && (t == [] || t[0] != '-') ==> r.value >= 0.0
  {
    if t != [] && (t[0] == '+' || t[0] == '-') then
      match ParseUnsigned(t[1..])
      case None => None
      case Some(v) =>
        assert HasDigit(t) by {
          var i :| 0 <= i < |t[1..]| && IsDigit(t[1..][i]);
          assert IsDigit(t[i + 1]);
        }
        Some(if t[0] == '-' then -v else v)
    else ParseUnsigned(t)
  }

  /** `parse_montant`: the empty string and anything `float` rejects have no amount. */
  function ParseMontant(s: string): (r: Option<real>)
    ensures s == [] ==> r == None
  {
    if s == [] then None else ParseDecimal(Strip(NormalizeAmount(s)))
  }

  /** Inserting a space or a no-break space anywhere changes nothing. */
  lemma ParseMontantIgnoresSpaces(a: string, b: string, c: char)
    requires c == ' ' || c == NoBreakSpace
    ensures ParseMontant(a + [c] + b) == ParseMontant(a + b)
  {
    NormalizeDropsSpace(a, b, c);
    if a + b == [] {
      assert Strip([]) == [];
    }
  }

  lemma NormalizeDropsSpace(a: string, b: string, c: char)
    requires c == ' ' || c == NoBreakSpace
    ensures NormalizeAmount(a + [c] + b) == NormalizeAmount(a + b)
  {
    NormalizeAround(a, c, b);
    NormalizeAmountAppend(a, b);
    assert NormalizeAmount(a) + [] == NormalizeAmount(a);
  }

  lemma NormalizeAmountChar(c: char)
    ensures NormalizeAmount([c]) == NormalizeChar(c)
  {
    assert [c][1..] == [];
    assert NormalizeChar(c) + [] == NormalizeChar(c);
  }

  /** Normalizing around one character. */
  lemma NormalizeAround(a: string, c: char, b: string)
    ensures NormalizeAmount(a + [c] + b) == NormalizeAmount(a) + NormalizeChar(c) + NormalizeAmount(b)
  {
    NormalizeAmountAppend(a + [c], b);
    NormalizeAmountAppend(a, [c]);
    NormalizeAmountChar(c);
  }

  /** A decimal comma reads as a decimal point. */
  lemma ParseMontantCommaIsPoint(a: string, b: string)
    ensures ParseMontant(a + [','] + b) == ParseMontant(a + ['.'] + b)
  {
    NormalizeAround(a, ',', b);
    NormalizeAround(a, '.', b);
    assert NormalizeChar(',') == NormalizeChar('.');
  }

  /** Without a sign, the decimal is unsigned. */
  lemma ParseDecimalUnsigned(t: string)
    requires t != [] && IsDigit(t[0])
    ensures ParseDecimal(t) == ParseUnsigned(t)
  {
  }

  /** A string holding two decimal points is not a number. */
  lemma ParseDecimalTwoPoints(t: string, i: nat, j: nat)
    requires i < j < |t| && t[i] == '.' && t[j] == '.'
    ensures ParseDecimal(t) == None
  {
    if t[0] == '+' || t[0] == '-' {
      ParseUnsignedTwoPoints(t[1..], i - 1, j - 1);
    } else {
      ParseUnsignedTwoPoints(t, i, j);
    }
  }

  lemma ParseUnsignedTwoPoints(t: string, i: nat, j: nat)
    requires i < j < |t| && t[i] == '.' && t[j] == '.'
    ensures ParseUnsigned(t) == None
  {
    var k := PointIndex(t);
    assert k <= i;
    assert t[k + 1..][j - k - 1] == t[j];
  }

  /** Two separators among commas and points ("1,157.30") give no amount. */
  lemma ParseMontantTwoSeparators(a: string, b: string, c: string, p: char, q: char)
    requires p == ',' || p == '.'
    requires q == ',' || q == '.'
    ensures ParseMontant(a + [p] + b + [q] + c) == None
  {
    var na, nb, nc := NormalizeAmount(a), NormalizeAmount(b), NormalizeAmount(c);
    var n := NormalizeAmount(a + [p] + b + [q] + c);
    assert n == na + "." + nb + "." + nc by {
      assert NormalizeChar(p) == "." && NormalizeChar(q) == ".";
      NormalizeAround(a + [p] + b, q, c);
      NormalizeAround(a, p, b);
    }
    StrippedTwoPoints(n, |na|, |na| + 1 + |nb|);
  }

  lemma StrippedTwoPoints(n: string, i: nat, j: nat)
    requires i < j < |n| && n[i] == '.' && n[j] == '.'
    ensures ParseDecimal(Strip(n)) == None
  {
    StripKeepsNonSpace(n, i);
    StripKeepsNonSpace(n, j);
    var st := StripStart(n);
    ParseDecimalTwoPoints(Strip(n), i - st, j - st);
  }

  /** A character outside digits, signs, separators and whitespace ("€") spoils the amount. */
  lemma ParseMontantForeignChar(a: string, b: string, c: char)
    requires !IsDigit(c) && !IsSpace(c) && c !in "+-.," && c != NoBreakSpace
    ensures ParseMontant(a + [c] + b) == None
  {
    var n := NormalizeAmount(a + [c] + b);
    var k := |NormalizeAmount(a)|;
    assert n[k] == c by {
      NormalizeAround(a, c, b);
      assert NormalizeChar(c) == [c];
    }
    StripKeepsNonSpace(n, k);
    ParseDecimalForeignChar(Strip(n), k - StripStart(n));
  }

  lemma ParseDecimalForeignChar(t: string, k: nat)
    requires k < |t| && !IsDigit(t[k]) && t[k] !in "+-."
    ensures ParseDecimal(t) == None
  {
    if t[0] == '+' || t[0] == '-' {
      ParseUnsignedForeignChar(t[1..], k - 1);
    } else {
      ParseUnsignedForeignChar(t, k);
    }
  }

  lemma ParseUnsignedForeignChar(t: string, k: nat)
    requires k < |t| && !IsDigit(t[k]) && t[k] != '.'
    ensures ParseUnsigned(t) == None
  {
    var i := PointIndex(t);
    if k < i {
      assert t[..i][k] == t[k];
    } else {
      assert t[i + 1..][k - i - 1] == t[k];
    }
  }

  function DigitChar(d: nat): (c: char)
    requires d < 10
    ensures IsDigit(c)
  {
    ('0' as int + d) as char
  }

  /** The decimal rendering of a natural number. */
  function NatToString(n: nat): (r: string)
    ensures r != [] && AllDigits(r)
  {
    if n < 10 then [DigitChar(n)] else NatToString(n / 10) + [DigitChar(n % 10)]
  }

  lemma {:induction false} NatToStringValue(n: nat)
    ensures DigitsValue(NatToString(n)) == n
  {
    if n >= 10 {
      NatToStringValue(n / 10);
      var s := NatToString(n);
      assert s[..|s| - 1] == NatToString(n / 10);
    }
  }

  /** Two digits, for the cents. */
  function Cents(c: nat): (r: string)
    requires c < 100
    ensures |r| == 2 && AllDigits(r)
  {
    [DigitChar(c / 10), DigitChar(c % 10)]
  }

  lemma CentsValue(c: nat)
    requires c < 100
    ensures DigitsValue(Cents(c)) == c
  {
    var r := Cents(c);
    assert r[..1] == [r[0]];
    assert [r[0]][..0] == [];
    assert r[0] as int - '0' as int == c / 10;
    assert r[1] as int - '0' as int == c % 10;
    assert DigitsValue([r[0]]) == c / 10;
  }

  lemma ParseUnsignedPoint(whole: string, frac: string)
    requires whole != [] && AllDigits(whole) && AllDigits(frac)
    ensures ParseUnsigned(whole + "." + frac)
         == Some(DecimalValue(whole, frac))
  {
    var t := whole + "." + frac;
    var i := PointIndex(t);
    assert t[|whole|] == '.';
    assert t[..i] == whole;
    assert t[i + 1..] == frac;
  }

  lemma ParseUnsignedWhole(whole: string)
    requires whole != [] && AllDigits(whole)
    ensures ParseUnsigned(whole) == Some(DigitsValue(whole) as real)
  {
    var i := PointIndex(whole);
    assert forall j :: 0 <= j < |whole| ==> whole[j] != '.';
    assert i == |whole|;
    assert whole[..i] == whole;
    WholeValue(whole);
  }

  lemma WholeValue(whole: string)
    requires AllDigits(whole)
    ensures DecimalValue(whole, []) == DigitsValue(whole) as real
  {
    assert DigitsValue([]) == 0 && Pow10(0) == 1;
  }

  /** Plain digits read back as the number they render. */
  lemma ParseMontantNat(n: nat)
    ensures ParseMontant(NatToString(n)) == Some(n as real)
  {
    var s := NatToString(n);
    NormalizeAmountDigits(s);
    StripNoEdgeSpace(s);
    ParseUnsignedWhole(s);
    NatToStringValue(n);
  }

  /** The French rendering of euros and cents ("1157,30") reads back as that amount. */
  lemma ParseMontantFrench(euros: nat, cents: nat)
    requires cents < 100
    ensures ParseMontant(NatToString(euros) + "," + Cents(cents)) == Some(euros as real + cents as real / 100.0)
  {
    var w, f := NatToString(euros), Cents(cents);
    var t := w + "." + f;
    assert Strip(NormalizeAmount(w + "," + f)) == t by {
      FrenchNormalized(w, f);
    }
    assert ParseDecimal(t) == Some(euros as real + cents as real / 100.0) by {
      ParseDecimalUnsigned(t);
      ParseUnsignedPoint(w, f);
      FrenchValue(euros, cents);
    }
  }

  /** Digits, a comma and digits normalize and strip to digits, a point and digits. */
  lemma FrenchNormalized(w: string, f: string)
    requires w != [] && f != [] && AllDigits(w) && AllDigits(f)
    ensures Strip(NormalizeAmount(w + "," + f)) == w + "." + f
  {
    var t := w + "." + f;
    assert w + "," + f == w + [','] + f;
    NormalizeAround(w, ',', f);
    NormalizeAmountDigits(w);
    NormalizeAmountDigits(f);
    assert t[0] == w[0] && t[|t| - 1] == f[|f| - 1];
    StripNoEdgeSpace(t);
  }

  lemma FrenchValue(euros: nat, cents: nat)
    requires cents < 100
    ensures DecimalValue(NatToString(euros), Cents(cents)) == euros as real + cents as real / 100.0
  {
    NatToStringValue(euros);
    CentsValue(cents);
    assert Pow10(2) == 100;
  }

  /** A leading minus negates the amount. */
  lemma ParseMontantNegative(n: nat)
    ensures ParseMontant("-" + NatToString(n)) == Some(-(n as real))
  {
    var s := NatToString(n);
    NegativeNormalized(s);
    ParseUnsignedWhole(s);
    NatToStringValue(n);
    ParseDecimalMinus(s, n as real);
  }

  lemma NegativeNormalized(s: string)
    requires s != [] && AllDigits(s)
    ensures Strip(NormalizeAmount("-" + s)) == "-" + s
  {
    var t := "-" + s;
    NegativeKept(s);
    assert t[0] == '-' && t[|t| - 1] == s[|s| - 1];
    StripNoEdgeSpace(t);
  }

  lemma NegativeKept(s: string)
    requires AllDigits(s)
    ensures NormalizeAmount("-" + s) == "-" + s
  {
    assert "-" + s == [] + ['-'] + s;
    NormalizeAround([], '-', s);
    NormalizeAmountDigits(s);
    assert NormalizeChar('-') == "-";
  }

  lemma ParseDecimalMinus(u: string, v: real)
    requires ParseUnsigned(u) == Some(v)
    ensures ParseDecimal("-" + u) == Some(-v)
  {
    var t := "-" + u;
    assert t[0] == '-' && t[1..] == u;
  }

  /** "1 157,30" is 1157.30. */
  lemma ExampleFrenchAmount()
    ensures ParseMontant("1 157,30") == Some(1157.30)
  {
    FrenchAmountSplits();
    ParseMontantFrench(1157, 30);
    ParseMontantIgnoresSpaces("1", "157,30", ' ');
  }

  lemma FrenchAmountSplits()
    ensures "1 157,30" == "1" + [' '] + "157,30"
    ensures "1" + "157,30" == NatToString(1157) + "," + Cents(30)
  {
    assert NatToString(1157) == "1157" by {
      assert NatToString(115) == "115";
    }
  }

  /** "0" is an amount of zero, not a missing one; "" is missing. */
  lemma ExampleZeroAmount()
    ensures ParseMontant("0") == Some(0.0)
    ensures ParseMontant("") == None
  {
    ParseMontantNat(0);
    assert NatToString(0) == "0";
  }

  /** "12 500,00 €" has no amount. */
  lemma ExampleCurrencySign()
    ensures ParseMontant("12 500,00 \U{20AC}") == None
  {
    assert "12 500,00 \U{20AC}" == "12 500,00 " + ['\U{20AC}'] + "";
    ParseMontantForeignChar("12 500,00 ", "", '\U{20AC}');
  }

  /** "1,157.30" has no amount. */
  lemma ExampleThousandsComma()
    ensures ParseMontant("1,157.30") == None
  {
    assert "1,157.30" == "1" + [','] + "157" + ['.'] + "30";
    ParseMontantTwoSeparators("1", "157", "30", ',', '.');
  }
}
