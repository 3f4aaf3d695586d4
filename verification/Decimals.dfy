/** Decimal numerals as the service exchanges them: digit strings, and amounts with up to seven
    decimal places counted in stroops (10^-7 units). */
module Decimals {
  import opened Wrappers

  predicate IsDigit(c: char) { '0' <= c <= '9' }

  predicate AllDigits(s: string) { forall i | 0 <= i < |s| :: IsDigit(s[i]) }

  function DigitValue(c: char): nat
    requires IsDigit(c)
  {
    c as int - '0' as int
  }

  function DigitChar(d: nat): char
    requires d < 10
  {
    '0' + d as char
  }

  /** The number a digit string denotes (`BigInt(s)`). */
  function ParseNat(s: string): nat
    requires AllDigits(s)
  {
    if s == "" then 0
    else 10 * ParseNat(s[..|s| - 1]) + DigitValue(s[|s| - 1])
  }

  /** The canonical numeral (`n.toString()`). */
  function ToDecimal(n: nat): string {
    if n < 10 then [DigitChar(n)] else ToDecimal(n / 10) + [DigitChar(n % 10)]
  }

  /** No superfluous leading zero. */
  predicate NoLeadingZero(s: string) { |s| == 1 || (|s| > 1 && s[0] != '0') }

  lemma {:induction false} ToDecimalRoundTrip(n: nat)
    ensures AllDigits(ToDecimal(n)) && NoLeadingZero(ToDecimal(n))
    ensures n > 0 ==> ToDecimal(n)[0] != '0'
    ensures ParseNat(ToDecimal(n)) == n
  {
    if n >= 10 {
      ToDecimalRoundTrip(n / 10);
      var s := ToDecimal(n);
      assert s[..|s| - 1] == ToDecimal(n / 10);
    }
  }

  lemma {:induction false} ParsePositive(s: string)
    requires AllDigits(s) && s != "" && s[0] != '0'
    ensures ParseNat(s) > 0
  {
    if |s| > 1 {
      ParsePositive(s[..|s| - 1]);
    }
  }

  lemma {:induction false} CanonicalOfParse(s: string)
    requires AllDigits(s) && NoLeadingZero(s)
    ensures ToDecimal(ParseNat(s)) == s
  {
    if |s| > 1 {
      var front := s[..|s| - 1];
      ParsePositive(front);
      CanonicalOfParse(front);
      assert ParseNat(s) / 10 == ParseNat(front);
    }
  }

  /** A digit string is the canonical numeral of its value iff it has no superfluous leading zero. */
  lemma CanonicalIff(s: string)
    requires AllDigits(s) && s != ""
    ensures ToDecimal(ParseNat(s)) == s <==> NoLeadingZero(s)
  {
    ToDecimalRoundTrip(ParseNat(s));
    if NoLeadingZero(s) {
      CanonicalOfParse(s);
    }
  }

  function Pow10(k: nat): (p: nat)
    ensures p >= 1
  {
    if k == 0 then 1 else 10 * Pow10(k - 1)
  }

  lemma {:induction false} LengthBounds(n: nat)
    ensures |ToDecimal(n)| >= 1
    ensures n < Pow10(|ToDecimal(n)|)
    ensures n > 0 ==> Pow10(|ToDecimal(n)| - 1) <= n
  {
    if n >= 10 {
      LengthBounds(n / 10);
    }
  }

  lemma {:induction false} Pow10Monotone(j: nat, k: nat)
    requires j <= k
    ensures Pow10(j) <= Pow10(k)
  {
    if j < k {
      Pow10Monotone(j, k - 1);
    }
  }

  lemma {:induction false} Pow10Add(j: nat, k: nat)
    ensures Pow10(j + k) == Pow10(j) * Pow10(k)
  {
    if k > 0 {
      Pow10Add(j, k - 1);
      assert Pow10(j + k) == 10 * Pow10(j + k - 1);
    }
  }

  lemma ParsePrefix(s: string, k: nat)
    requires AllDigits(s) && k < |s|
    ensures ParseNat(s[..k + 1]) == 10 * ParseNat(s[..k]) + DigitValue(s[k])
  {
    assert s[..k + 1][..k] == s[..k];
  }

  // ── Amounts ────────────────────────────────────────────────────────────────

  function IndexOf(s: string, c: char): (i: nat)
    ensures i <= |s|
    ensures c !in s[..i]
    ensures i < |s| ==> s[i] == c
  {
    if s == "" || s[0] == c then 0 else 1 + IndexOf(s[1..], c)
  }

  lemma IndexOfAt(s: string, c: char, i: nat)
    requires i < |s| && s[i] == c && forall j | 0 <= j < i :: s[j] != c
    ensures IndexOf(s, c) == i
  {
    var k := IndexOf(s, c);
    assert forall j | 0 <= j < k :: s[j] == s[..k][j];
  }

  /** The digits before and after the decimal point. */
  function IntegerPart(s: string): string { s[..IndexOf(s, '.')] }

  function FractionPart(s: string): string {
    if IndexOf(s, '.') == |s| then "" else s[IndexOf(s, '.') + 1..]
  }

  /** The amounts the request validation accepts: one or more digits, then optionally a point and
      one to seven digits. Leading and trailing zeros are allowed. */
  predicate IsAmount(s: string) {
    && IntegerPart(s) != "" && AllDigits(IntegerPart(s))
    && AllDigits(FractionPart(s)) && |FractionPart(s)| <= 7
    && (IndexOf(s, '.') < |s| ==> FractionPart(s) != "")
  }

  predicate Numeral(s: string) { s != "" && forall i | 0 <= i < |s| :: '0' <= s[i] <= '9' }

  /** One to seven digits on the right of a point, and digits on its left. */
  predicate Pointed(s: string, dot: nat) {
    dot < |s| && s[dot] == '.' && Numeral(s[..dot]) && Numeral(s[dot + 1..]) && |s| - dot - 1 <= 7
  }

  lemma PointedIff(s: string, dot: nat)
    ensures Pointed(s, dot) ==> IndexOf(s, '.') == dot
    ensures IndexOf(s, '.') == dot < |s| ==> (Pointed(s, dot) <==> IsAmount(s))
  {
    if Pointed(s, dot) {
      forall k | 0 <= k < dot ensures s[k] != '.' {
        assert s[..dot][k] == s[k];
      }
      IndexOfAt(s, '.', dot);
    }
  }

  lemma PointlessIff(s: string)
    requires IndexOf(s, '.') == |s|
    ensures Numeral(s) <==> IsAmount(s)
  {
    assert s[..|s|] == s;
  }

  /** Accepted are exactly the texts of the pattern: one or more digits, or those with a point and one to seven
      digits after it. */
  lemma AmountSyntax(s: string)
    ensures IsAmount(s) <==> Numeral(s) || exists dot: nat :: Pointed(s, dot)
  {
    hide IsAmount, Pointed, IndexOf;
    var i := IndexOf(s, '.');
    forall dot: nat | Pointed(s, dot) ensures dot == i {
      PointedIff(s, dot);
    }
    PointedIff(s, i);
    if i == |s| {
      PointlessIff(s);
      NotPastTheEnd(s);
    } else {
      assert s[i] == '.';
    }
  }

  lemma NotPastTheEnd(s: string)
    ensures !Pointed(s, |s|)
  {
  }

  /** The mathematical value of the literal (section 7.1.4.1 of ECMA-262). */
  function LiteralValue(s: string): (v: real)
    requires IsAmount(s)
  {
    ParseNat(IntegerPart(s)) as real
      + ParseNat(FractionPart(s)) as real / Pow10(|FractionPart(s)|) as real
  }

  /** The amount in stroops. */
  function Stroops(s: string): nat
    requires IsAmount(s)
  {
    ParseNat(IntegerPart(s)) * 10000000
      + ParseNat(FractionPart(s)) * Pow10(7 - |FractionPart(s)|)
  }

  function Units(stroops: nat): real { stroops as real / 10000000.0 }

  lemma LiteralValueIsStroops(s: string)
    requires IsAmount(s)
    ensures LiteralValue(s) == Units(Stroops(s)) >= 0.0
  {
    var k := |FractionPart(s)|;
    assert Pow10(1) == 10 && Pow10(2) == 100 && Pow10(3) == 1000 && Pow10(4) == 10000;
    assert Pow10(5) == 100000 && Pow10(6) == 1000000 && Pow10(7) == 10000000;
    assert k == 0 || k == 1 || k == 2 || k == 3 || k == 4 || k == 5 || k == 6 || k == 7;
  }
}
