/** How the service parses, compares, adds and prints amounts. All of it goes through doubles;
    the theorems say when nothing is lost. */
module Money {
  import opened Wrappers
  import opened Decimals
  import opened Doubles
  import opened Permutations

  /** `Number(s)`. Only accepted amounts have a numeric value here; the other syntaxes `Number`
      reads (signs, exponents, hexadecimal) come neither from the request validation nor from the ledger. */
  function NumberOf(s: string): JsNumber {
    if IsAmount(s) then LiteralValueIsStroops(s); Rounded(LiteralValue(s)) else NaN
  }

  /** `a === b` on numbers: NaN equals nothing. */
  predicate StrictlyEqual(a: JsNumber, b: JsNumber) { a == b && a != NaN }

  /** `Number.isFinite(n) ? n : 0`. */
  function FiniteOrZero(n: JsNumber): Magnitude {
    if n.Finite? then n.value else 0.0
  }

  /** `num(amount)`: absent, empty and overflowing amounts count as 0. */
  function Num(amount: Option<string>): Magnitude {
    if amount.None? || amount.value == "" then 0.0 else FiniteOrZero(NumberOf(amount.value))
  }

  function Add(a: JsNumber, b: Magnitude): JsNumber {
    if a.Finite? then Rounded(a.value + b) else a
  }

  /** The stroop count nearest to x, the larger of two equally near (`x.toFixed(7)` below 10^21,
      section 21.1.3.3 of ECMA-262). */
  function NearestStroops(x: Magnitude): nat { (x * 10000000.0 + 0.5).Floor }

  /** `Number(n.toFixed(7))`, the number that `money(n)` prints. From 10^21 on `toFixed` keeps n. */
  function ToMoney(n: JsNumber): JsNumber {
    if !n.Finite? || n.value >= 1000000000000000000000.0 then n
    else Rounded(Units(NearestStroops(n.value)))
  }

  function StroopsOf(amount: Option<string>): nat {
    if amount.Some? && IsAmount(amount.value) then Stroops(amount.value) else 0
  }

  /** What the amount column can hold: nothing, or an accepted amount. */
  predicate Accepted(amount: Option<string>) { amount.None? || IsAmount(amount.value) }

  predicate AllAccepted(amounts: seq<Option<string>>) {
    forall a | a in amounts :: Accepted(a)
  }

  function Total(amounts: seq<Option<string>>): nat {
    if amounts == [] then 0 else Total(amounts[..|amounts| - 1]) + StroopsOf(amounts[|amounts| - 1])
  }

  const TWO_28_UNITS: nat := 2684354560000000
  const TWO_29_UNITS: nat := 5368709120000000
  const TWO_51: nat := 0x8_0000_0000_0000

  // ── Comparing ──────────────────────────────────────────────────────────────

  lemma NumberOfSmall(s: string)
    requires IsAmount(s) && Stroops(s) < 2 * TWO_29_UNITS
    ensures NumberOf(s) == Finite(Nearest(Units(Stroops(s))))
  {
    hide Nearest, Pow2, Stroops, LiteralValue;
    LiteralValueIsStroops(s);
    SmallPowers();
    RoundedFinite(LiteralValue(s));
  }

  lemma NumOfSmall(amount: Option<string>)
    requires Accepted(amount) && StroopsOf(amount) < 2 * TWO_29_UNITS
    ensures Num(amount) == Nearest(Units(StroopsOf(amount)))
  {
    if amount.Some? {
      NumberOfSmall(amount.value);
    }
  }

  lemma DistinctBelow(n: nat, m: nat)
    requires n < m < TWO_29_UNITS
    ensures Nearest(Units(n)) < Nearest(Units(m))
  {
    hide Nearest, Pow2;
    SmallPowers();
    AbsoluteError(Units(n), 29);
    AbsoluteError(Units(m), 29);
  }

  /** From 2^29 units on doubles are 2^-23 apart, and stroops closer than that. */
  lemma NearestAbove(j: nat, steps: nat)
    requires j <= 4
    requires (steps as real - 0.5) / 8388608.0 < Units(j) < (steps as real + 0.5) / 8388608.0
    ensures Nearest(Units(TWO_29_UNITS + j)) == 536870912.0 + steps as real / 8388608.0
  {
    hide Pow2, Exponent;
    var x := Units(TWO_29_UNITS + j);
    SmallPowers();
    ExponentUnique(x, 29);
    assert Ulp(x) == 1.0 / 8388608.0;
    assert x / Ulp(x) == x * 8388608.0;
    assert RoundHalfEven(x / Ulp(x)) == 4503599627370496 + steps;
  }

  lemma NearestJustAbove(j: nat)
    requires j <= 3
    ensures Nearest(Units(TWO_29_UNITS + j)) == 536870912.0 + j as real / 8388608.0
  {
    NearestAbove(j, j);
  }

  lemma NumbersAround29(n: nat, m: nat)
    requires n < m <= TWO_29_UNITS + 3
    ensures Nearest(Units(n)) < Nearest(Units(m))
  {
    hide Nearest, Pow2;
    if m < TWO_29_UNITS {
      DistinctBelow(n, m);
    } else {
      NearestJustAbove(m - TWO_29_UNITS);
      if n < TWO_29_UNITS {
        SmallPowers();
        AbsoluteError(Units(n), 29);
      } else {
        NearestJustAbove(n - TWO_29_UNITS);
      }
    }
  }

  lemma NumbersEqualIff(a: string, b: string)
    requires IsAmount(a) && IsAmount(b)
    requires Stroops(a) <= TWO_29_UNITS + 3 && Stroops(b) <= TWO_29_UNITS + 3
    ensures StrictlyEqual(NumberOf(a), NumberOf(b)) <==> Stroops(a) == Stroops(b)
  {
    hide Nearest, Stroops, IsAmount;
    NumberOfSmall(a);
    NumberOfSmall(b);
    if Stroops(a) < Stroops(b) {
      NumbersAround29(Stroops(a), Stroops(b));
    } else if Stroops(b) < Stroops(a) {
      NumbersAround29(Stroops(b), Stroops(a));
    }
  }

  /** `Number` equality means equal amounts, for all accepted amounts up to a limit in stroops. */
  ghost predicate ComparisonExactUpTo(limit: nat) {
    forall a: string, b: string ::
      IsAmount(a) && IsAmount(b) && Stroops(a) <= limit && Stroops(b) <= limit
      ==> (StrictlyEqual(NumberOf(a), NumberOf(b)) <==> Stroops(a) == Stroops(b))
  }

  /** The "exact amount" rule is exact up to 536870912.0000003 units and no further. */
  lemma ComparisonExactIff(limit: nat)
    ensures ComparisonExactUpTo(limit) <==> limit <= TWO_29_UNITS + 3
  {
    hide NumberOf, StrictlyEqual, IsAmount, Stroops;
    if limit <= TWO_29_UNITS + 3 {
      forall a: string, b: string
        | IsAmount(a) && IsAmount(b) && Stroops(a) <= limit && Stroops(b) <= limit
        ensures StrictlyEqual(NumberOf(a), NumberOf(b)) <==> Stroops(a) == Stroops(b)
      {
        NumbersEqualIff(a, b);
      }
    } else {
      var a, b := Collision();
      assert StrictlyEqual(NumberOf(a), NumberOf(b)) && Stroops(a) != Stroops(b);
    }
  }

  /** What `Number` equality with a requested amount says about the amount paid, however large. */
  lemma MatchingAmountIsExact(requested: string, paid: string)
    requires IsAmount(requested) && Stroops(requested) <= TWO_29_UNITS + 2
    requires StrictlyEqual(NumberOf(paid), NumberOf(requested))
    ensures IsAmount(paid) && Stroops(paid) == Stroops(requested)
  {
    hide Nearest, Stroops;
    var n, m := Stroops(requested), Stroops(paid);
    NumberOfSmall(requested);
    LiteralValueIsStroops(paid);
    if m <= TWO_29_UNITS + 3 {
      NumbersEqualIff(paid, requested);
    } else {
      NearestMonotone(Units(TWO_29_UNITS + 3), Units(m));
      NumbersAround29(n, TWO_29_UNITS + 3);
    }
  }

  /** No payment of another amount, however large, passes for a requested amount of at most `limit` stroops. */
  ghost predicate RequestsExactUpTo(limit: nat) {
    forall requested: string, paid: string ::
      IsAmount(requested) && Stroops(requested) <= limit && StrictlyEqual(NumberOf(paid), NumberOf(requested))
      ==> IsAmount(paid) && Stroops(paid) == Stroops(requested)
  }

  /** Requests are safe from every payment up to 536870912.0000002 units and no further. */
  lemma RequestsExactIff(limit: nat)
    ensures RequestsExactUpTo(limit) <==> limit <= TWO_29_UNITS + 2
  {
    hide NumberOf, StrictlyEqual, IsAmount, Stroops;
    if limit <= TWO_29_UNITS + 2 {
      forall requested: string, paid: string
        | IsAmount(requested) && Stroops(requested) <= limit && StrictlyEqual(NumberOf(paid), NumberOf(requested))
        ensures IsAmount(paid) && Stroops(paid) == Stroops(requested)
      {
        MatchingAmountIsExact(requested, paid);
      }
    } else {
      var a, b := Collision();
      assert StrictlyEqual(NumberOf(b), NumberOf(a)) && Stroops(b) != Stroops(a);
    }
  }

  lemma Collision() returns (a: string, b: string)
    ensures IsAmount(a) && IsAmount(b)
    ensures Stroops(a) == TWO_29_UNITS + 3 && Stroops(b) == TWO_29_UNITS + 4
    ensures StrictlyEqual(NumberOf(a), NumberOf(b)) && StrictlyEqual(NumberOf(b), NumberOf(a))
  {
    hide NumberOf, IsAmount, Stroops;
    a, b := FirstCollision();
  }

  /** The first two amounts the comparison confuses. */
  lemma FirstCollision() returns (a: string, b: string)
    ensures a == "536870912" + "." + "000000" + ['3'] && b == "536870912" + "." + "000000" + ['4']
    ensures IsAmount(a) && IsAmount(b)
    ensures Stroops(a) == TWO_29_UNITS + 3 && Stroops(b) == TWO_29_UNITS + 4
    ensures StrictlyEqual(NumberOf(a), NumberOf(b))
  {
    a := SampleAmount("536870912", "000000", '3');
    b := SampleAmount("536870912", "000000", '4');
    CollideAbove(a, b);
  }

  lemma CollideAbove(a: string, b: string)
    requires IsAmount(a) && Stroops(a) == TWO_29_UNITS + 3
    requires IsAmount(b) && Stroops(b) == TWO_29_UNITS + 4
    ensures StrictlyEqual(NumberOf(a), NumberOf(b))
  {
    NumberOfSmall(a);
    NumberOfSmall(b);
    NearestAbove(3, 3);
    NearestAbove(4, 3);
  }

  lemma SampleAmount(whole: string, zeros: string, last: char) returns (s: string)
    requires whole == "536870912" && zeros == "000000" && IsDigit(last)
    ensures s == whole + "." + zeros + [last]
    ensures IsAmount(s) && Stroops(s) == TWO_29_UNITS + DigitValue(last)
  {
    var fraction := zeros + [last];
    s := whole + "." + fraction;
    ParseSampleWhole(whole);
    ParseZeros(zeros);
    ParsePrefix(fraction, 6);
    assert fraction[..6] == zeros && fraction[..7] == fraction;
    FractionStroops(whole, fraction);
  }

  lemma IndexOfDot(whole: string, rest: string)
    requires '.' !in whole
    ensures IndexOf(whole + "." + rest, '.') == |whole|
  {
    var s := whole + "." + rest;
    assert s[|whole|] == '.';
    forall k | 0 <= k < |whole| ensures s[k] != '.' {
      assert s[k] == whole[k] && whole[k] in whole;
    }
    IndexOfAt(s, '.', |whole|);
  }

  lemma PartsOf(whole: string, fraction: string)
    requires AllDigits(whole)
    ensures var s := whole + "." + fraction;
      IndexOf(s, '.') == |whole| < |s| && IntegerPart(s) == whole && FractionPart(s) == fraction
  {
    var s := whole + "." + fraction;
    IndexOfDot(whole, fraction);
    assert s[..|whole|] == whole && s[|whole| + 1..] == fraction;
  }

  lemma FractionStroops(whole: string, fraction: string)
    requires whole != "" && AllDigits(whole) && AllDigits(fraction) && |fraction| == 7
    ensures var s := whole + "." + fraction;
            IsAmount(s) && Stroops(s) == ParseNat(whole) * 10000000 + ParseNat(fraction)
  {
    hide IndexOf, IntegerPart, FractionPart, ParseNat;
    PartsOf(whole, fraction);
    assert Pow10(0) == 1;
  }

  lemma ParseEmpty(s: string)
    requires s == ""
    ensures AllDigits(s) && ParseNat(s) == 0
  {
  }

  lemma ParseSampleWhole(s: string)
    requires s == "536870912"
    ensures AllDigits(s) && ParseNat(s) == 536870912
  {
    hide ParseNat;
    ParseEmpty(s[..0]);
    ParsePrefix(s, 0);
    ParsePrefix(s, 1);
    ParsePrefix(s, 2);
    ParsePrefix(s, 3);
    ParsePrefix(s, 4);
    ParsePrefix(s, 5);
    ParsePrefix(s, 6);
    ParsePrefix(s, 7);
    ParsePrefix(s, 8);
    assert s[..9] == s;
  }

  lemma {:induction false} ParseZeros(s: string)
    requires forall i | 0 <= i < |s| :: s[i] == '0'
    ensures AllDigits(s) && ParseNat(s) == 0
  {
    if s != "" {
      ParseZeros(s[..|s| - 1]);
    }
  }

  // ── Rounding at every step: the daily series ───────────────────────────────

  /** One step of the series: `volume = money(num(volume) + num(amount))`. */
  function AddRounding(volume: JsNumber, amount: Option<string>): JsNumber {
    ToMoney(Add(Finite(FiniteOrZero(volume)), Num(amount)))
  }

  function SeriesVolume(amounts: seq<Option<string>>): JsNumber {
    if amounts == [] then Finite(0.0)
    else AddRounding(SeriesVolume(amounts[..|amounts| - 1]), amounts[|amounts| - 1])
  }

  lemma RoundingStep(t: nat, n: nat)
    requires t + n < TWO_28_UNITS
    ensures ToMoney(Rounded(Nearest(Units(t)) + Nearest(Units(n)))) == Finite(Nearest(Units(t + n)))
  {
    hide Pow2, Nearest, Rounded;
    SmallPowers();
    AbsoluteError(Units(t), 28);
    AbsoluteError(Units(n), 28);
    var sum := Nearest(Units(t)) + Nearest(Units(n));
    AbsoluteError(sum, 28);
    RoundedFinite(sum);
    assert NearestStroops(Nearest(sum)) == t + n;
    RoundedFinite(Units(t + n));
  }

  lemma AddRoundingExact(t: nat, amount: Option<string>)
    requires Accepted(amount) && t + StroopsOf(amount) < TWO_28_UNITS
    ensures AddRounding(Finite(Nearest(Units(t))), amount) == Finite(Nearest(Units(t + StroopsOf(amount))))
  {
    hide Nearest, Num, ToMoney, Rounded;
    NumOfSmall(amount);
    RoundingStep(t, StroopsOf(amount));
  }

  /** While a day's settled total stays below 2^28 units, adding amounts through `money` at every
      step leaves the double nearest to the exact decimal sum: errors never accumulate. */
  lemma {:induction false} SeriesVolumeExact(amounts: seq<Option<string>>)
    requires AllAccepted(amounts) && Total(amounts) < TWO_28_UNITS
    ensures SeriesVolume(amounts) == Finite(Nearest(Units(Total(amounts))))
  {
    hide AddRounding, StroopsOf, Ulp, RoundHalfEven, Times;
    if amounts != [] {
      var front, last := amounts[..|amounts| - 1], amounts[|amounts| - 1];
      SeriesVolumeExact(front);
      AddRoundingExact(Total(front), last);
    }
  }

  // ── Rounding once at the end: volume and balances ──────────────────────────

  /** The running `+=` over the amounts, starting from 0. */
  function Sum(amounts: seq<Option<string>>): JsNumber {
    if amounts == [] then Finite(0.0)
    else Add(Sum(amounts[..|amounts| - 1]), Num(amounts[|amounts| - 1]))
  }

  /** The size of a sum that decides its exactness: (count + 1) * total. */
  function Weight(amounts: seq<Option<string>>): nat {
    (|amounts| + 1) * Total(amounts)
  }

  lemma WeightStep(k: nat, t: nat, n: nat)
    requires k >= 1
    ensures (k + 1) * (t + n) == k * t + t + n + k * n
    ensures k * n >= n
  {
  }

  predicate Drifts(sum: real, t: nat, weight: nat) {
    Units(t) - Units(2 * weight) / 9007199254740992.0 <= sum <= Units(t) + Units(2 * weight) / 9007199254740992.0
  }

  /** Adding n stroops to a sum that stood at t costs t + n + more parts, where more >= n. */
  lemma DriftStep(before: Magnitude, t: nat, n: nat, w: nat, more: nat)
    requires Drifts(before, t, w)
    requires more >= n && w + t + n + more < TWO_51
    requires t + n == 0 ==> before == 0.0
    ensures Drifts(Nearest(before + Nearest(Units(n))), t + n, w + t + n + more)
    ensures t + n == 0 ==> Nearest(before + Nearest(Units(n))) == 0.0
    ensures before + Nearest(Units(n)) < 1000000000.0
  {
    hide Nearest;
    var read := Nearest(Units(n));
    RelativeErrorScaled(Units(n));
    RelativeErrorScaled(before + read);
    if t + n > 0 {
      assert Units(2 * w) / 9007199254740992.0 + read <= Units(t + n) + Units(n);
    }
  }

  /** The running sum and how far it may have drifted from the exact total: every number read and
      every addition costs at most one part in 2^53, which makes 2 * weight parts in all. */
  lemma {:induction false} SumDrift(amounts: seq<Option<string>>) returns (sum: Magnitude)
    requires AllAccepted(amounts) && Weight(amounts) < TWO_51
    ensures Sum(amounts) == Finite(sum)
    ensures Drifts(sum, Total(amounts), Weight(amounts))
    ensures Total(amounts) == 0 ==> sum == 0.0
  {
    hide Nearest, Pow2, Num, Drifts, StroopsOf, IsAmount, Rounded;
    sum := 0.0;
    if amounts == [] {
      NoDrift();
    } else {
      var front, last := amounts[..|amounts| - 1], amounts[|amounts| - 1];
      var t, n := Total(front), StroopsOf(last);
      WeightStep(|amounts|, t, n);
      var before := SumDrift(front);
      NumOfSmall(last);
      sum := Nearest(before + Num(last));
      DriftStep(before, t, n, Weight(front), |amounts| * n);
      SmallPowers();
      RoundedFinite(before + Num(last));
    }
  }

  lemma NoDrift()
    ensures Drifts(0.0, 0, 0)
  {
  }

  /** Rounding once at the end is exact: if (count + 1) * total stays below 2^51 stroops, the
      double sum prints the exact total, whatever the order of the amounts. */
  lemma SumExact(amounts: seq<Option<string>>)
    requires AllAccepted(amounts) && Weight(amounts) < TWO_51
    ensures ToMoney(Sum(amounts)) == Finite(Nearest(Units(Total(amounts))))
  {
    hide Nearest, Sum, Pow2;
    var sum := SumDrift(amounts);
    WeightAtLeastTotal(|amounts|, Total(amounts));
    assert NearestStroops(sum) == Total(amounts);
    SmallPowers();
    RoundedFinite(Units(Total(amounts)));
  }

  lemma WeightAtLeastTotal(k: nat, t: nat)
    ensures (k + 1) * t >= t
  {
  }

  lemma SamePermutation(xs: seq<Option<string>>, ys: seq<Option<string>>)
    requires multiset(xs) == multiset(ys) && AllAccepted(xs)
    ensures AllAccepted(ys) && |xs| == |ys|
  {
    assert |xs| == |multiset(xs)| == |multiset(ys)| == |ys|;
    forall a | a in ys ensures a in xs { assert a in multiset(ys); }
  }

  lemma {:induction false} TotalOfPermutation(xs: seq<Option<string>>, ys: seq<Option<string>>)
    requires multiset(xs) == multiset(ys)
    ensures Total(xs) == Total(ys)
  {
    if xs == [] {
      assert |ys| == |multiset(ys)| == 0;
    } else {
      var i := Locate(xs, ys);
      TotalWithout(ys, i);
      TotalOfPermutation(xs[..|xs| - 1], ys[..i] + ys[i + 1..]);
    }
  }

  lemma {:induction false} TotalWithout(ys: seq<Option<string>>, i: nat)
    requires i < |ys|
    ensures Total(ys) == Total(ys[..i] + ys[i + 1..]) + StroopsOf(ys[i])
  {
    var rest := ys[..i] + ys[i + 1..];
    if i == |ys| - 1 {
      assert rest == ys[..i];
    } else {
      var front := ys[..|ys| - 1];
      TotalWithout(front, i);
      assert rest[..|rest| - 1] == front[..i] + front[i + 1..];
    }
  }

  /** Two queries that return the same amounts in different orders print the same sum. */
  lemma SumOrderIrrelevant(xs: seq<Option<string>>, ys: seq<Option<string>>)
    requires multiset(xs) == multiset(ys)
    requires AllAccepted(xs) && Weight(xs) < TWO_51
    ensures ToMoney(Sum(xs)) == ToMoney(Sum(ys))
  {
    hide Sum, ToMoney, Total;
    SamePermutation(xs, ys);
    TotalOfPermutation(xs, ys);
    SumExact(xs);
    SumExact(ys);
  }

  // ── Printing ───────────────────────────────────────────────────────────────

  /** significand * 10^exponent */
  datatype Decimal = Decimal(significand: nat, exponent: int)

  function DecimalValue(d: Decimal): (v: Magnitude) {
    if d.exponent >= 0 then (d.significand * Pow10(d.exponent)) as real
    else d.significand as real / Pow10(-d.exponent) as real
  }

  /** The decimals `x.toString()` may print: those that read back as x and have as few digits as
      possible (section 6.1.6.1.20 of ECMA-262). */
  ghost predicate Prints(x: Magnitude, d: Decimal) {
    if x == 0.0 then d.significand == 0 else (
      && ReadsAs(d, x)
      && forall shorter: Decimal :: ReadsAs(shorter, x)
          ==> |ToDecimal(d.significand)| <= |ToDecimal(shorter.significand)|
    )
  }

  predicate ReadsAs(d: Decimal, x: Magnitude) { d.significand > 0 && Nearest(DecimalValue(d)) == x }

  /** There always is a shortest one. */
  lemma {:induction false} ShortestExists(x: Magnitude, start: Decimal) returns (d: Decimal)
    requires x > 0.0 && ReadsAs(start, x)
    ensures Prints(x, d)
    decreases |ToDecimal(start.significand)|
  {
    if shorter: Decimal :| ReadsAs(shorter, x) && |ToDecimal(shorter.significand)| < |ToDecimal(start.significand)| {
      d := ShortestExists(x, shorter);
    } else {
      d := start;
    }
  }

  /** Decimals that read back as the same double as t stroops are close to them. */
  lemma ReadBackClose(t: nat, v: Magnitude)
    requires t < TWO_28_UNITS && Nearest(v) == Nearest(Units(t))
    ensures t as real - 0.9 <= v * 10000000.0 <= t as real + 0.9
    ensures 0.99 * t as real <= v * 10000000.0
  {
    hide Nearest;
    RelativeErrorScaled(v);
    RelativeErrorScaled(Units(t));
  }

  lemma StroopDecimal(t: nat)
    ensures DecimalValue(Decimal(t, -7)) == Units(t)
  {
    assert Pow10(7) == 10000000 by { assert Pow10(4) == 10000; }
  }

  lemma PowerDecimal(m: nat) returns (d: Decimal)
    ensures d.significand == 1 && DecimalValue(d) == Units(Pow10(m))
  {
    d := Decimal(1, m - 7);
    assert Pow10(7) == 10000000 by { assert Pow10(4) == 10000; }
    if m >= 7 {
      Pow10Add(m - 7, 7);
    } else {
      Pow10Add(m, 7 - m);
      Cancel(Pow10(m), Pow10(7 - m));
    }
  }

  lemma Cancel(a: nat, b: nat)
    requires b >= 1 && a * b == 10000000
    ensures 1.0 / b as real == a as real / 10000000.0
  {
    assert a as real * b as real == (a * b) as real;
  }

  lemma ScaleUp(s: nat, p: nat, v: real)
    requires p >= 10 && v == s as real / p as real && v > 0.0
    ensures s as real >= 10.0 * v
  {
    assert s as real == v * p as real;
  }

  lemma PositiveStaysPositive(t: nat)
    ensures t > 0 <==> Nearest(Units(t)) > 0.0
  {
    RelativeErrorScaled(Units(t));
  }

  /** A decimal with more than seven places cannot be among the shortest. */
  lemma SevenPlacesSuffice(t: nat, d: Decimal)
    requires 0 < t < TWO_28_UNITS && Prints(Nearest(Units(t)), d)
    ensures d.exponent >= -7
  {
    hide Nearest, Pow2;
    var v := DecimalValue(d);
    PositiveStaysPositive(t);
    ReadBackClose(t, v);
    StroopDecimal(t);
    LengthBounds(d.significand);
    LengthBounds(t);
    if d.exponent < -7 {
      var p := Pow10(-d.exponent - 7);
      Pow10Add(-d.exponent - 7, 7);
      Pow10Monotone(1, -d.exponent - 7);
      assert Pow10(7) == 10000000 && Pow10(1) == 10;
      Regroup(d.significand, p);
      ScaleUp(d.significand, p, v * 10000000.0);
      var places := |ToDecimal(t)|;
      if t == Pow10(places - 1) {
        var one := PowerDecimal(places - 1);
        assert |ToDecimal(1)| == 1;
      } else {
        assert |ToDecimal(Decimal(t, -7).significand)| == places;
        assert Pow10(places) == 10 * Pow10(places - 1);
      }
      Pow10Monotone(|ToDecimal(d.significand)|, places);
    }
  }

  lemma Regroup(s: nat, p: nat)
    requires p >= 1
    ensures s as real / (p * 10000000) as real * 10000000.0 == s as real / p as real
  {
  }

  lemma Printable(t: nat) returns (d: Decimal)
    ensures Prints(Nearest(Units(t)), d)
  {
    PositiveStaysPositive(t);
    d := Decimal(t, -7);
    StroopDecimal(t);
    if t > 0 {
      d := ShortestExists(Nearest(Units(t)), d);
    }
  }

  /** Printing then loses nothing: whatever shortest decimal `toString` picks for the double nearest
      to t stroops, it denotes t stroops exactly. */
  lemma PrintsExactly(t: nat, d: Decimal)
    requires t < TWO_28_UNITS && Prints(Nearest(Units(t)), d)
    ensures DecimalValue(d) == Units(t)
  {
    hide Nearest;
    PositiveStaysPositive(t);
    if t > 0 {
      SevenPlacesSuffice(t, d);
      var w := WholeStroops(d);
      ReadBackSame(t, w);
    }
  }

  lemma ReadBackSame(t: nat, w: nat)
    requires t < TWO_28_UNITS && Nearest(Units(w)) == Nearest(Units(t))
    ensures w == t
  {
    ReadBackClose(t, Units(w));
  }

  lemma WholeStroops(d: Decimal) returns (w: nat)
    requires d.exponent >= -7
    ensures DecimalValue(d) == Units(w)
  {
    if d.exponent >= 0 {
      w := d.significand * Pow10(d.exponent) * 10000000;
    } else {
      w := d.significand * Pow10(7 + d.exponent);
      Pow10Add(7 + d.exponent, -d.exponent);
      assert Pow10(7) == 10000000 by { assert Pow10(4) == 10000; }
      Cancel(Pow10(7 + d.exponent), Pow10(-d.exponent));
      SplitQuotient(d.significand, Pow10(7 + d.exponent), Pow10(-d.exponent));
    }
  }

  lemma SplitQuotient(s: nat, a: nat, b: nat)
    requires b >= 1 && 1.0 / b as real == a as real / 10000000.0
    ensures s as real / b as real == (s * a) as real / 10000000.0
  {
    assert s as real / b as real == s as real * (1.0 / b as real);
    assert (s * a) as real == s as real * a as real;
  }
}
