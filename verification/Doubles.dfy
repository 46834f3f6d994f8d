/** How a whole number written in digits becomes a JavaScript number: an IEEE 754 double, ties to even. */
module Doubles {
  datatype JsNumber = NaN | Infinity(negative: bool) | NegativeZero | Finite(value: real)

  const TWO_53: nat := 9007199254740992
  const MAX_SAFE_INTEGER: int := 9007199254740991

  function Pow2(k: nat): (r: nat)
    ensures r > 0
  {
    if k == 0 then 1 else 2 * Pow2(k - 1)
  }

  /** The exponent of the last of the 53 bits that a number of this size has. */
  function Exponent(n: nat): nat { if n < TWO_53 then 0 else 1 + Exponent(n / 2) }

  /** The multiple of `unit` nearest to `n`, and the even one of two that are equally near. */
  function RoundTo(n: nat, unit: nat): (r: nat)
    requires unit > 0
  {
    var quotient, rest := n / unit, n % unit;
    if 2 * rest > unit || (2 * rest == unit && quotient % 2 == 1) then (quotient + 1) * unit else quotient * unit
  }

  function Rounded(n: nat): nat { RoundTo(n, Pow2(Exponent(n))) }

  /** `Number(digits)` for the digits of `n`. */
  function NumberOf(n: nat): JsNumber {
    if Rounded(n) >= Pow2(1024) then Infinity(false) else Finite(Rounded(n) as real)
  }

  lemma Euclid(n: nat, d: nat)
    requires d > 0
    ensures n == (n / d) * d + n % d && n % d < d
  {
  }

  lemma Twice(a: nat, b: nat)
    ensures a * (2 * b) == 2 * (a * b)
  {
  }

  lemma HalvedQuotient(n: nat, u: nat)
    requires u > 0
    ensures n / (2 * u) == (n / 2) / u
  {
    var q, r := (n / 2) / u, (n / 2) % u;
    Euclid(n / 2, u);
    Twice(q, u);
    Quotient(n, 2 * u, q, 2 * r + n % 2);
  }

  lemma Ordered(a: nat, b: nat, d: nat)
    ensures a <= b ==> a * d <= b * d
  {
  }

  lemma Quotient(n: nat, d: nat, q: nat, r: nat)
    requires r < d && n == q * d + r
    ensures n / d == q && n % d == r
  {
    Euclid(n, d);
    Ordered(n / d + 1, q, d);
    Ordered(q + 1, n / d, d);
  }

  /** Cutting a number at its exponent leaves at most 53 bits, and exactly 53 when anything is cut. */
  lemma {:induction false} Mantissa(n: nat)
    ensures n / Pow2(Exponent(n)) < TWO_53
    ensures Exponent(n) > 0 ==> 2 * (n / Pow2(Exponent(n))) >= TWO_53
    decreases n
  {
    if n >= TWO_53 {
      Mantissa(n / 2);
      HalvedQuotient(n, Pow2(Exponent(n / 2)));
    }
  }

  /** No multiple of the unit is nearer. */
  lemma RoundsToNearest(n: nat, unit: nat, k: nat)
    requires unit > 0
    ensures Distance(RoundTo(n, unit), n) <= Distance(k * unit, n)
  {
    var q, r := n / unit, n % unit;
    assert n == q * unit + r && (q + 1) * unit == q * unit + unit;
    Ordered(k, q, unit);
    Ordered(q + 1, k, unit);
  }

  function Distance(a: nat, b: nat): nat { if a < b then b - a else a - b }

  /** A whole number below the bound is a double itself: rounding changes it only from 2^53 on. */
  lemma SmallIsExact(n: nat)
    ensures n <= TWO_53 ==> Rounded(n) == n
    ensures n >= TWO_53 ==> Rounded(n) >= TWO_53
  {
    if n < TWO_53 {
      assert Pow2(0) == 1 && n / 1 == n && n % 1 == 0;
    } else {
      LargeStaysLarge(n);
      if n == TWO_53 {
        assert Exponent(TWO_53) == 1 + Exponent(TWO_53 / 2) && Exponent(TWO_53 / 2) == 0;
        assert Pow2(1) == 2 * Pow2(0);
      }
    }
  }

  lemma LargeStaysLarge(n: nat)
    requires n >= TWO_53
    ensures Rounded(n) >= TWO_53
  {
    var e := Exponent(n);
    var unit := Pow2(e);
    var q := n / unit;
    Mantissa(n);
    assert unit == 2 * Pow2(e - 1) && unit >= 2;
    assert q * unit >= q * 2;
    assert (q + 1) * unit >= q * unit;
  }

  /** Different digits can be one number, but never one safe integer. */
  lemma SafeNumbersAreExact(a: nat, b: nat)
    requires NumberOf(a) == NumberOf(b) && NumberOf(a).Finite? && NumberOf(a).value <= MAX_SAFE_INTEGER as real
    ensures a == b
  {
    SmallIsExact(a);
    SmallIsExact(b);
  }

  // ----- Which digits share their number ---------------------------------------------------------

  lemma HalfOf(k: nat, half: nat, rest: nat)
    ensures (k * (2 * half) + rest) / 2 == k * half + rest / 2
  {
    Twice(k, half);
    var x := k * half;
    assert (2 * x + rest) / 2 == x + rest / 2;
  }

  lemma AtLeastTwice(k: nat, unit: nat)
    requires unit >= 2
    ensures k * unit >= 2 * k
  {
    Ordered(2, unit, k);
  }

  /** A number with the mantissa `k`, whatever is below its unit, has the exponent of that unit. */
  lemma {:induction false} ExponentOf(k: nat, e: nat, rest: nat)
    requires TWO_53 <= 2 * k < 2 * TWO_53 && rest < Pow2(e)
    ensures Exponent(k * Pow2(e) + rest) == e
    decreases e
  {
    if e > 0 {
      var half, n := Pow2(e - 1), k * Pow2(e) + rest;
      AtLeastTwice(k, Pow2(e));
      HalfOf(k, half, rest);
      assert Exponent(n) == 1 + Exponent(n / 2);
      ExponentOf(k, e - 1, rest / 2);
    } else {
      assert Pow2(0) == 1 && k * 1 == k;
    }
  }

  /** What has at most 53 bits above its unit is a double. */
  lemma MultiplesAreExact(k: nat, e: nat)
    requires TWO_53 <= 2 * k <= 2 * TWO_53
    ensures Rounded(k * Pow2(e)) == k * Pow2(e)
  {
    if k < TWO_53 {
      ExponentOf(k, e, 0);
      Quotient(k * Pow2(e), Pow2(e), k, 0);
    } else {
      var half := TWO_53 / 2;
      ExponentOf(half, e + 1, 0);
      Twice(half, Pow2(e));
      Quotient(half * Pow2(e + 1), Pow2(e + 1), half, 0);
    }
  }

  /** Less than half a unit above a multiple is rounded down to it. */
  lemma RoundsDown(k: nat, e: nat, rest: nat)
    requires TWO_53 <= 2 * k < 2 * TWO_53 && 2 * rest < Pow2(e)
    ensures Rounded(k * Pow2(e) + rest) == k * Pow2(e)
  {
    ExponentOf(k, e, rest);
    Quotient(k * Pow2(e) + rest, Pow2(e), k, rest);
  }

  /** A neighbour that is rounded to the same double, unless the unit is 2 and the quotient is odd. */
  lemma Neighbour(n: nat) returns (m: nat)
    requires n >= TWO_53 && !(n < 2 * TWO_53 && n % 4 == 2)
    ensures m != n && Rounded(m) == Rounded(n)
  {
    var e := Exponent(n);
    var unit := Pow2(e);
    var k, rest := n / unit, n % unit;
    Mantissa(n);
    Euclid(n, unit);
    if Rounded(n) == (k + 1) * unit {
      m := (k + 1) * unit;
      Ordered(k + 1, k + 1, unit);
      assert m == k * unit + unit;
      MultiplesAreExact(k + 1, e);
    } else if rest > 0 {
      m := k * unit;
      MultiplesAreExact(k, e);
    } else {
      m := n + 1;
      OneAbove(n, e, k);
    }
  }

  /**
   One more than a multiple is rounded back to it: it is less than half a unit, or half of one on an even
   quotient.
   */
  lemma OneAbove(n: nat, e: nat, k: nat)
    requires n == k * Pow2(e) && TWO_53 <= 2 * k < 2 * TWO_53 && e > 0
    requires !(n < 2 * TWO_53 && n % 4 == 2)
    ensures Rounded(n + 1) == n == Rounded(n)
  {
    MultiplesAreExact(k, e);
    if e == 1 {
      UnitOfTwo();
      RoundedFacts(n + 1);
      OddAbove(k, n, Rounded(n + 1));
    } else {
      UnitOfFour(e);
      RoundsDown(k, e, 1);
    }
  }

  lemma UnitOfTwo()
    ensures Pow2(0) == 1 && Pow2(1) == 2
  {
  }

  lemma UnitOfFour(e: nat)
    requires e >= 2
    ensures Pow2(e) >= 4
  {
    assert Pow2(e) == 2 * Pow2(e - 1) && Pow2(e - 1) == 2 * Pow2(e - 2);
  }

  lemma RoundToTwo(n: nat)
    ensures RoundTo(n, 2) == if n % 2 == 0 then n else if n % 4 == 1 then n - 1 else n + 1
  {
  }

  /** Between 2^53 and 2^54 an even number is a double, and the odd ones go to the multiples of 4. */
  lemma BelowTwo54(n: nat)
    requires TWO_53 <= n < 2 * TWO_53
    ensures Rounded(n) == if n % 2 == 0 then n else if n % 4 == 1 then n - 1 else n + 1
  {
    assert Exponent(n) == 1 by { assert Exponent(n / 2) == 0; }
    assert Pow2(1) == 2 by { assert Pow2(0) == 1; }
    RoundToTwo(n);
  }

  lemma RoundToAtLeast(n: nat, unit: nat)
    requires unit > 0
    ensures RoundTo(n, unit) >= (n / unit) * unit
  {
    Ordered(n / unit, n / unit + 1, unit);
  }

  lemma ExponentFromTwo54(n: nat)
    requires n >= 2 * TWO_53
    ensures Exponent(n) >= 2
  {
    assert n / 2 >= TWO_53 && Exponent(n) == 1 + Exponent(n / 2);
  }

  lemma FromTwo54(n: nat)
    requires n >= 2 * TWO_53
    ensures Rounded(n) >= 2 * TWO_53
  {
    var unit := Pow2(Exponent(n));
    ExponentFromTwo54(n);
    UnitOfFour(Exponent(n));
    Mantissa(n);
    RoundToAtLeast(n, unit);
    Ordered(4, unit, n / unit);
  }

  /** What rounding `n` to `r` means below, within and above the range where the unit is 2. */
  predicate IsRounded(n: nat, r: nat) {
    && (n < TWO_53 ==> r == n)
    && (TWO_53 <= n < 2 * TWO_53 ==> r == if n % 2 == 0 then n else if n % 4 == 1 then n - 1 else n + 1)
    && (n >= 2 * TWO_53 ==> r >= 2 * TWO_53)
  }

  lemma RoundedFacts(n: nat)
    ensures IsRounded(n, Rounded(n))
  {
    if n < TWO_53 {
      SmallIsExact(n);
    } else if n < 2 * TWO_53 {
      BelowTwo54(n);
    } else {
      FromTwo54(n);
    }
  }

  lemma OddAbove(k: nat, n: nat, r: nat)
    requires TWO_53 <= 2 * k < 2 * TWO_53 && n == 2 * k && n % 4 != 2 && IsRounded(n + 1, r)
    ensures r == n
  {
    var half := k / 2;
    if k % 2 == 1 {
      Quotient(n, 4, half, 2);
      assert false;
    }
    Quotient(n + 1, 4, half, 1);
    Quotient(n + 1, 2, k, 1);
  }

  lemma OnlyItself(n: nat, m: nat, r: nat)
    requires n < TWO_53 || (n < 2 * TWO_53 && n % 4 == 2)
    requires IsRounded(m, r) && r == n
    ensures m == n
  {
  }

  lemma Itself(n: nat, r: nat)
    requires n < TWO_53 || (n < 2 * TWO_53 && n % 4 == 2)
    requires IsRounded(n, r)
    ensures r == n
  {
    if n >= TWO_53 {
      Quotient(n, 2, 2 * (n / 4) + 1, 0);
    }
  }

  lemma {:induction false} Pow2Grows(a: nat, b: nat)
    requires a <= b
    ensures Pow2(a) <= Pow2(b)
  {
    if a < b {
      Pow2Grows(a, b - 1);
    }
  }

  lemma Two54()
    ensures 2 * TWO_53 < Pow2(1024)
  {
    assert Pow2(1) == 2 * Pow2(0);
    Squared(1, 2);
    Squared(2, 4);
    Squared(4, 16);
    Squared(8, 256);
    Squared(16, 65536);
    Squared(32, 4294967296);
    Pow2Grows(64, 1024);
  }

  lemma Squared(a: nat, value: nat)
    requires Pow2(a) == value
    ensures Pow2(2 * a) == value * value
  {
    Doubled(a, a);
  }

  lemma {:induction false} Doubled(a: nat, b: nat)
    ensures Pow2(a + b) == Pow2(a) * Pow2(b)
  {
    if b > 0 {
      Doubled(a, b - 1);
      Twice(Pow2(a), Pow2(b - 1));
    }
  }

  /** No other digits have this number. */
  lemma NobodyShares(n: nat, m: nat)
    requires n < TWO_53 || (n < 2 * TWO_53 && n % 4 == 2)
    requires NumberOf(m) == NumberOf(n)
    ensures m == n
  {
    RoundedFacts(n);
    Itself(n, Rounded(n));
    Two54();
    SameFinite(n, m);
    RoundedFacts(m);
    OnlyItself(n, m, Rounded(m));
  }

  lemma SameFinite(n: nat, m: nat)
    requires NumberOf(m) == NumberOf(n) && Rounded(n) < Pow2(1024)
    ensures Rounded(m) == Rounded(n)
  {
    assert NumberOf(n) == Finite(Rounded(n) as real);
    assert (Rounded(n) as real).Floor == Rounded(n) && (Rounded(m) as real).Floor == Rounded(m);
  }

  /**
   Digits share their number with other digits exactly from 2^53 on, except that up to 2^54 those with
   remainder 2 modulo 4 do not.
   */
  lemma {:induction false} SharedExactly(n: nat)
    ensures (exists m: nat :: m != n && NumberOf(m) == NumberOf(n))
       <==> n >= TWO_53 && !(n < 2 * TWO_53 && n % 4 == 2)
  {
    if n >= TWO_53 && !(n < 2 * TWO_53 && n % 4 == 2) {
      var m := Neighbour(n);
      assert NumberOf(m) == NumberOf(n);
    } else {
      forall m: nat | NumberOf(m) == NumberOf(n) ensures m == n { NobodyShares(n, m); }
    }
  }

  /** 9007199254740993 is read as 9007199254740992. */
  lemma NumbersCollide()
    ensures NumberOf(TWO_53 + 1) == NumberOf(TWO_53)
  {
    SmallIsExact(TWO_53);
    var n := TWO_53 + 1;
    assert Exponent(n) == 1 + Exponent(n / 2) && Exponent(n / 2) == 0;
    assert Pow2(1) == 2 * Pow2(0);
    assert n / 2 == 4503599627370496 && n % 2 == 1;
    assert Rounded(n) == TWO_53;
  }
}
