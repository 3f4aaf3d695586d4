/** IEEE-754 binary64 arithmetic on non-negative values, as ECMA-262 section 6.1.6.1 uses it.
    A finite double is modelled by the real number it denotes; rounding to nearest, ties to even,
    is computed rather than assumed. Every non-zero value the service handles is at least 10^-7,
    so the exponent range is not cut off below; it is cut off above, where a sum becomes Infinity. */
module Doubles {

  type Magnitude = r: real | r >= 0.0

  /** The values `Number(...)` and `+` produce from non-negative operands. */
  datatype JsNumber = Finite(value: Magnitude) | Infinity | NaN

  function Pow2(k: int): (p: real)
    ensures p > 0.0
    decreases if k < 0 then -k else k
  {
    if k == 0 then 1.0 else if k > 0 then 2.0 * Pow2(k - 1) else Pow2(k + 1) / 2.0
  }

  lemma Pow2Step(k: int)
    ensures Pow2(k + 1) == 2.0 * Pow2(k)
  {
  }

  /** Multiplication behind a name, so that the solver compares products by their factors. */
  function Times(a: real, b: real): real { a * b }

  lemma TimesDouble(a: real, b: real)
    ensures Times(a, 2.0 * b) == 2.0 * Times(a, b)
    ensures Times(a, b / 2.0) == Times(a, b) / 2.0
  {
  }

  lemma TimesLe(a: real, b: real, c: real)
    requires a <= b && c >= 0.0
    ensures Times(a, c) <= Times(b, c)
  {
  }

  lemma TimesLess(a: real, b: real)
    requires a >= 0.0 && 0.0 <= b <= 1.0
    ensures 0.0 <= Times(a, b) <= a
  {
  }

  lemma TimesAssoc(a: real, b: real, c: real)
    ensures Times(a, Times(b, c)) == Times(Times(a, b), c)
  {
  }

  /** Back from grid steps to values: q steps of u are x, so q +- 1/2 steps are x +- u/2. */
  lemma Scale(x: real, u: real)
    requires u > 0.0
    ensures Times(x / u, u) == x
    ensures Times(x / u - 0.5, u) == x - u / 2.0
    ensures Times(x / u + 0.5, u) == x + u / 2.0
  {
    var q := x / u;
    assert q * u == x;
    assert (q - 0.5) * u == q * u - 0.5 * u;
    assert (q + 0.5) * u == q * u + 0.5 * u;
  }

  lemma {:induction false} Pow2Add(j: int, k: int)
    ensures Pow2(j + k) == Times(Pow2(j), Pow2(k))
    decreases if k < 0 then -k else k
  {
    if k > 0 {
      Pow2Add(j, k - 1);
      Pow2Step(j + k - 1);
      TimesDouble(Pow2(j), Pow2(k - 1));
    } else if k < 0 {
      Pow2Add(j, k + 1);
      Pow2Step(j + k);
      TimesDouble(Pow2(j), Pow2(k + 1));
    }
  }

  lemma {:induction false} Pow2Monotone(j: int, k: int)
    requires j <= k
    ensures Pow2(j) <= Pow2(k)
    ensures j < k ==> 2.0 * Pow2(j) <= Pow2(k)
    decreases k - j
  {
    if j < k {
      Pow2Monotone(j, k - 1);
      Pow2Step(k - 1);
    }
  }

  /** The binary exponent: the unique e with 2^e <= x < 2^(e+1). */
  function Exponent(x: real): (e: int)
    requires x > 0.0
    ensures Pow2(e) <= x < Pow2(e + 1)
    decreases if x >= 2.0 then x.Floor else if x < 1.0 then (1.0 / x).Floor else 0
  {
    if x >= 2.0 then
      var e := Exponent(x / 2.0);
      Pow2Step(e);
      Pow2Step(e + 1);
      e + 1
    else if x < 1.0 then
      assert 1.0 / (2.0 * x) == (1.0 / x) / 2.0;
      assert 1.0 / x > 1.0;
      var e := Exponent(2.0 * x);
      Pow2Step(e);
      Pow2Step(e - 1);
      e - 1
    else
      0
  }

  lemma ExponentUnique(x: real, e: int)
    requires x > 0.0
    requires Pow2(e) <= x < Pow2(e + 1)
    ensures Exponent(x) == e
  {
    var f := Exponent(x);
    if f < e {
      Pow2Monotone(f + 1, e);
    } else if e < f {
      Pow2Monotone(e + 1, f);
    }
  }

  /** The integer nearest to q, the even one of two equally near. */
  function RoundHalfEven(q: real): (n: int)
    ensures q - 0.5 <= n as real <= q + 0.5
  {
    var n := q.Floor;
    var rest := q - n as real;
    if rest < 0.5 then n
    else if rest > 0.5 then n + 1
    else if n % 2 == 0 then n
    else n + 1
  }

  /** The spacing of doubles around x: 52 binary places below its leading bit. */
  function Ulp(x: real): (u: real)
    requires x > 0.0
    ensures u > 0.0
  {
    Pow2(Exponent(x) - 52)
  }

  lemma NearestStepsNonNegative(x: real)
    requires x >= 0.0
    ensures x > 0.0 ==> Times(RoundHalfEven(x / Ulp(x)) as real, Ulp(x)) >= 0.0
  {
    if x > 0.0 {
      var u := Ulp(x);
      Scale(x, u);
      if x / u < 0.0 {
        TimesLe(x / u, 0.0, u);
        assert false;
      }
      TimesLe(0.0, RoundHalfEven(x / u) as real, u);
    }
  }

  /** x rounded to 53 significant bits, ties to even (the exponent unbounded). */
  function Nearest(x: real): (d: Magnitude)
    requires x >= 0.0
  {
    NearestStepsNonNegative(x);
    if x == 0.0 then 0.0 else Times(RoundHalfEven(x / Ulp(x)) as real, Ulp(x))
  }

  /** A double: an integer of at most 53 bits times a power of two. */
  ghost predicate IsDouble(d: real) {
    exists m: int, k: int :: Dyadic(d, m, k)
  }

  ghost predicate Dyadic(d: real, m: int, k: int) {
    d == Times(m as real, Pow2(k)) && 0 <= m <= 0x20_0000_0000_0000
  }

  /** The half-ulp lemma. */
  lemma HalfUlp(x: real)
    requires x > 0.0
    ensures x - Ulp(x) / 2.0 <= Nearest(x) <= x + Ulp(x) / 2.0
  {
    var u := Ulp(x);
    var q := x / u;
    var n := RoundHalfEven(q) as real;
    Scale(x, u);
    TimesLe(q - 0.5, n, u);
    TimesLe(n, q + 0.5, u);
  }

  /** Below 2^k the rounding error is at most 2^(k-54). */
  lemma AbsoluteError(x: real, k: int)
    requires 0.0 <= x < Pow2(k)
    ensures x - Pow2(k - 54) <= Nearest(x) <= x + Pow2(k - 54)
    ensures Nearest(x) >= 0.0
  {
    if x > 0.0 {
      var e := Exponent(x);
      if e >= k { Pow2Monotone(k, e); }
      Pow2Monotone(e - 52, k - 53);
      Pow2Step(k - 54);
      HalfUlp(x);
      RelativeError(x);
    }
  }

  lemma UlpIsRelative(x: real)
    requires x > 0.0
    ensures Ulp(x) / 2.0 <= Times(x, Pow2(-53))
    ensures Pow2(-53) < 1.0
  {
    var e := Exponent(x);
    Pow2Add(e, -53);
    Pow2Step(e - 53);
    TimesLe(Pow2(e), x, Pow2(-53));
    Pow2Monotone(-53, 0);
  }

  /** The rounding error is at most x * 2^-53. */
  lemma RelativeError(x: real)
    requires x >= 0.0
    ensures x - Times(x, Pow2(-53)) <= Nearest(x) <= x + Times(x, Pow2(-53))
    ensures 0.0 <= Nearest(x)
  {
    if x > 0.0 {
      UlpIsRelative(x);
      HalfUlp(x);
      TimesLess(x, Pow2(-53));
    }
  }

  /** The same, with 2^53 written out. */
  lemma RelativeErrorScaled(x: real)
    requires x >= 0.0
    ensures x - x / 9007199254740992.0 <= Nearest(x) <= x + x / 9007199254740992.0
  {
    hide Pow2, Nearest;
    RelativeError(x);
    SmallPowers();
  }

  lemma FirstPowers()
    ensures Pow2(0) == 1.0 && Pow2(1) == 2.0 && Pow2(3) == 8.0 && Pow2(5) == 32.0
  {
  }

  /** The powers of two the bounds of this project are made of. */
  lemma SmallPowers()
    ensures Pow2(10) == 1024.0 && Pow2(20) == 1048576.0 && Pow2(23) == 8388608.0
    ensures Pow2(28) == 268435456.0 && Pow2(29) == 536870912.0 && Pow2(30) == 1073741824.0
    ensures Pow2(52) == 4503599627370496.0 && Pow2(53) == 9007199254740992.0
    ensures Pow2(-23) * 8388608.0 == 1.0 && Pow2(-24) * 16777216.0 == 1.0
    ensures Pow2(-25) * 33554432.0 == 1.0 && Pow2(-26) * 67108864.0 == 1.0
    ensures Pow2(-52) * 4503599627370496.0 == 1.0 && Pow2(-53) * 9007199254740992.0 == 1.0
  {
    hide Pow2;
    FirstPowers();
    Pow2Add(5, 5);
    Pow2Add(10, 10);
    Pow2Add(20, 3);
    Pow2Add(23, 5);
    Pow2Add(28, 1);
    Pow2Add(29, 1);
    Pow2Add(29, 23);
    Pow2Add(52, 1);
    Pow2Add(-23, 23);
    Pow2Step(-24);
    Pow2Step(-25);
    Pow2Step(-26);
    Pow2Add(-52, 52);
    Pow2Step(-53);
  }

  /** `Nearest` is what its name says: no double lies closer to x. */
  lemma NearestIsNearest(x: real, d: real)
    requires x >= 0.0 && IsDouble(d)
    ensures Abs(Nearest(x) - x) <= Abs(d - x)
  {
    if x > 0.0 {
      var m: int, k: int :| Dyadic(d, m, k);
      var e := Exponent(x);
      if k >= e - 52 {
        var w := Pow2Whole(k - (e - 52));
        Pow2Add(k - (e - 52), e - 52);
        TimesAssoc(m as real, w as real, Ulp(x));
        TimesWhole(m, w);
        NearestBeatsMultiple(x, m * w);
      } else {
        // d is on too fine a grid to reach the binade of x, so 2^e lies between d and x.
        SmallPowers();
        Pow2Add(53, k);
        TimesLe(m as real, Pow2(53), Pow2(k));
        Pow2Monotone(53 + k, e);
        Pow2Add(52, e - 52);
        NearestBeatsMultiple(x, 4503599627370496);
      }
    }
  }

  lemma TimesWhole(m: int, w: int)
    ensures Times(m as real, w as real) == (m * w) as real
  {
  }

  function Abs(x: real): real { if x < 0.0 then -x else x }

  lemma {:induction false} Pow2Whole(k: nat) returns (w: int)
    ensures Pow2(k) == w as real
  {
    if k == 0 {
      w := 1;
    } else {
      var v := Pow2Whole(k - 1);
      w := 2 * v;
    }
  }

  lemma NearestBeatsMultiple(x: real, m: int)
    requires x > 0.0
    ensures Abs(Nearest(x) - x) <= Abs(Times(m as real, Ulp(x)) - x)
  {
    var u := Ulp(x);
    var q := x / u;
    Scale(x, u);
    if m != RoundHalfEven(q) {
      HalfUlp(x);
      if m as real <= q - 0.5 {
        TimesLe(m as real, q - 0.5, u);
      } else {
        TimesLe(q + 0.5, m as real, u);
      }
    }
  }

  /** And it is itself a double. */
  lemma NearestIsDouble(x: real)
    requires x >= 0.0
    ensures IsDouble(Nearest(x))
  {
    if x == 0.0 {
      assert Dyadic(0.0, 0, 0);
    } else {
      var e := Exponent(x);
      var q := x / Ulp(x);
      Pow2Add(53, e - 52);
      SmallPowers();
      Scale(x, Ulp(x));
      if q >= 9007199254740992.0 {
        TimesLe(9007199254740992.0, q, Ulp(x));
        assert false;
      }
      if q < 0.0 {
        TimesLe(q, 0.0, Ulp(x));
        assert false;
      }
      assert Dyadic(Nearest(x), RoundHalfEven(q), e - 52);
    }
  }

  /** Rounding keeps the order. */
  lemma NearestMonotone(x: real, y: real)
    requires 0.0 <= x <= y
    ensures Nearest(x) <= Nearest(y)
  {
    hide Nearest;
    if x != y {
      NearestIsDouble(x);
      NearestIsDouble(y);
      NearestIsNearest(x, Nearest(y));
      NearestIsNearest(y, Nearest(x));
    }
  }

  /** At least 2^1024. */
  predicate Overflows(d: Magnitude) { d > 0.0 && Exponent(d) >= 1024 }

  /** `Number` and `+` on an exact result x: nearest double, or Infinity from 2^1024 on. */
  function Rounded(x: real): JsNumber
    requires x >= 0.0
  {
    if Overflows(Nearest(x)) then Infinity else Finite(Nearest(x))
  }

  lemma RoundedFinite(x: real)
    requires 0.0 <= x < Pow2(30)
    ensures Rounded(x) == Finite(Nearest(x))
  {
    hide Nearest, Pow2;
    SmallPowers();
    AbsoluteError(x, 30);
    Pow2Step(-24);
    if Overflows(Nearest(x)) {
      Pow2Monotone(31, Exponent(Nearest(x)));
      Pow2Step(30);
    }
  }
}
