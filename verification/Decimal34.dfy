/** Positive decimal arithmetic at 34 significant digits, ties to even.

    A decimal is modelled by the real number it denotes: equal decimals with different exponents
    behave alike in every operation used here. The exponent range is not modelled. */
module Decimal34 {
  import opened Common

  /** The smallest and one past the largest 34-digit coefficient. */
  const LOW: real := 1000000000000000000000000000000000.0
  const HIGH: real := 10000000000000000000000000000000000.0

  /** Half a unit in the last place of the smallest coefficient: five in the thirty-fourth digit. */
  const U: real := 0.0000000000000000000000000000000005

  type Positive = x: real | 0.0 < x witness 1.0

  /** Bring the coefficient into range by tens, round it there, and scale back. */
  function Round(x: Positive): (r: Positive)
    ensures x - U * x <= r <= x + U * x
    decreases if x < LOW then 1 else 0, if x < LOW then (LOW / x).Floor else x.Floor
  {
    if HIGH <= x then
      FloorTenth(x);
      Round(x / 10.0) * 10.0
    else if x < LOW then
      FloorRatio(x);
      Round(x * 10.0) / 10.0
    else
      HalfEven(x) as real
  }

  lemma FloorTenth(x: real)
    requires HIGH <= x
    ensures 0 <= (x / 10.0).Floor < x.Floor
  {
  }

  lemma FloorRatio(x: real)
    requires 0.0 < x < LOW
    ensures x * 10.0 < LOW ==> 0 <= (LOW / (x * 10.0)).Floor < (LOW / x).Floor
  {
    if x * 10.0 < LOW {
      var q, t := LOW / x, LOW / (x * 10.0);
      assert q * x == LOW && t * (x * 10.0) == LOW;
      assert q == 10.0 * t && 1.0 < t by {
        assert (10.0 * t - q) * x == 0.0;
        assert (t - 1.0) * (x * 10.0) > 0.0;
      }
    }
  }

  // ---- what a 34-digit decimal is, independently of how rounding finds one ----

  function Pow10(k: nat): (p: real)
    ensures 1.0 <= p
  {
    if k == 0 then 1.0 else 10.0 * Pow10(k - 1)
  }

  /** A coefficient below `HIGH`, times or over a power of ten. */
  ghost predicate Has34Digits(y: real) {
    exists m: nat, k: nat :: Coefficient(y, m, k)
  }

  predicate Coefficient(y: real, m: nat, k: nat) {
    m as real < HIGH && (y == m as real * Pow10(k) || y * Pow10(k) == m as real)
  }

  /** Multiplying or dividing by ten keeps the coefficient. */
  lemma ShiftUp(y: real, m: nat, k: nat) returns (j: nat)
    requires Coefficient(y, m, k)
    ensures Coefficient(10.0 * y, m, j)
  {
    if y == m as real * Pow10(k) {
      j := k + 1;
    } else {
      assert k > 0;
      j := k - 1;
    }
  }

  lemma ShiftDown(y: real, m: nat, k: nat) returns (j: nat)
    requires Coefficient(y, m, k)
    ensures Coefficient(y / 10.0, m, j)
  {
    var z := y / 10.0;
    assert y == 10.0 * z;
    if y * Pow10(k) == m as real {
      j := k + 1;
      assert z * Pow10(j) == m as real;
    } else {
      assert k > 0;
      j := k - 1;
      assert z == m as real * Pow10(j);
    }
  }

  lemma TenTimes(y: real)
    requires Has34Digits(y)
    ensures Has34Digits(10.0 * y)
  {
    var m: nat, k: nat :| Coefficient(y, m, k);
    var _ := ShiftUp(y, m, k);
  }

  lemma TenthOf(y: real)
    requires Has34Digits(y)
    ensures Has34Digits(y / 10.0)
  {
    var m: nat, k: nat :| Coefficient(y, m, k);
    var _ := ShiftDown(y, m, k);
  }

  /** The result has 34 digits. */
  lemma {:induction false} RoundHas34Digits(x: Positive)
    ensures Has34Digits(Round(x))
    decreases if x < LOW then 1 else 0, if x < LOW then (LOW / x).Floor else x.Floor
  {
    hide Has34Digits, HalfEven;
    if HIGH <= x {
      FloorTenth(x);
      RoundHas34Digits(x / 10.0);
      TenTimes(Round(x / 10.0));
    } else if x < LOW {
      FloorRatio(x);
      RoundHas34Digits(x * 10.0);
      TenthOf(Round(x * 10.0));
    } else {
      HalfEvenStays(x);
      IntegerHas34Digits(HalfEven(x));
    }
  }

  lemma HalfEvenStays(x: real)
    requires LOW <= x < HIGH
    ensures LOW <= HalfEven(x) as real <= HIGH
  {
  }

  lemma IntegerHas34Digits(n: int)
    requires LOW <= n as real <= HIGH
    ensures Has34Digits(n as real)
  {
    var _, _ := RangeCoefficient(n);
  }

  /** A rounded coefficient, renormalised when it has overflowed to the next power of ten. */
  lemma RangeCoefficient(n: int) returns (m: nat, k: nat)
    requires LOW <= n as real <= HIGH
    ensures Coefficient(n as real, m, k) && LOW <= m as real && (n % 2 == 0 ==> m % 2 == 0)
  {
    if n as real == HIGH {
      assert Pow10(1) == 10.0;
      m, k := 1000000000000000000000000000000000, 1;
    } else {
      m, k := n, 0;
    }
  }

  function Distance(x: real, y: real): real {
    if x < y then y - x else x - y
  }

  lemma NearestInteger(x: real, n: int)
    ensures Distance(x, HalfEven(x) as real) <= Distance(x, n as real)
    ensures Distance(x, HalfEven(x) as real) == Distance(x, n as real) && n != HalfEven(x) ==> HalfEven(x) % 2 == 0
  {
    if n <= x.Floor {
      assert n as real <= x.Floor as real;
    } else {
      assert (x.Floor + 1) as real <= n as real;
    }
  }

  /** A 34-digit decimal in the coefficient range is an integer or lies below the range. */
  lemma IntegerOrBelow(y: real)
    requires Has34Digits(y)
    ensures y == y.Floor as real || y < LOW
  {
    var m: nat, k: nat :| Coefficient(y, m, k);
    if y == m as real * Pow10(k) {
      Pow10Integer(k);
      assert y == (m * Pow10(k).Floor) as real;
    } else {
      FractionBelow(y, m, k);
    }
  }

  lemma FractionBelow(y: real, m: nat, k: nat)
    requires m as real < HIGH && y * Pow10(k) == m as real && y != m as real * Pow10(k)
    ensures y < LOW
  {
    assert 10.0 <= Pow10(k);
    var p := Pow10(k) / 10.0;
    assert y * p == m as real / 10.0 < LOW;
    assert LOW <= y ==> LOW <= y * p;
  }

  lemma {:induction false} Pow10Integer(k: nat)
    ensures Pow10(k) == Pow10(k).Floor as real
  {
    if k > 0 {
      Pow10Integer(k - 1);
      assert Pow10(k) == (10 * Pow10(k - 1).Floor) as real;
    }
  }

  /** No 34-digit decimal is nearer. */
  lemma {:induction false} RoundNearest(x: Positive, y: real)
    requires Has34Digits(y)
    ensures Distance(x, Round(x)) <= Distance(x, y)
    decreases if x < LOW then 1 else 0, if x < LOW then (LOW / x).Floor else x.Floor
  {
    if HIGH <= x {
      FloorTenth(x);
      TenthOf(y);
      RoundNearest(x / 10.0, y / 10.0);
    } else if x < LOW {
      FloorRatio(x);
      TenTimes(y);
      RoundNearest(x * 10.0, 10.0 * y);
    } else {
      IntegerOrBelow(y);
      NearestInteger(x, if y < LOW then 1000000000000000000000000000000000 else y.Floor);
    }
  }

  /** Between two equally near 34-digit decimals, rounding takes the one with the even coefficient. */
  lemma {:induction false} RoundTiesToEven(x: Positive, y: real)
    requires Has34Digits(y) && y != Round(x) && Distance(x, y) == Distance(x, Round(x))
    ensures exists m: nat, k: nat :: Coefficient(Round(x), m, k) && LOW <= m as real && m % 2 == 0
    decreases if x < LOW then 1 else 0, if x < LOW then (LOW / x).Floor else x.Floor
  {
    if HIGH <= x {
      FloorTenth(x);
      TenthOf(y);
      RoundTiesToEven(x / 10.0, y / 10.0);
      var m: nat, k: nat :| Coefficient(Round(x / 10.0), m, k) && LOW <= m as real && m % 2 == 0;
      var j := ShiftUp(Round(x / 10.0), m, k);
      assert Coefficient(Round(x), m, j);
    } else if x < LOW {
      FloorRatio(x);
      TenTimes(y);
      RoundTiesToEven(x * 10.0, 10.0 * y);
      var m: nat, k: nat :| Coefficient(Round(x * 10.0), m, k) && LOW <= m as real && m % 2 == 0;
      var j := ShiftDown(Round(x * 10.0), m, k);
      assert Coefficient(Round(x), m, j);
    } else {
      TieInRange(x, y);
    }
  }

  lemma TieInRange(x: Positive, y: real)
    requires LOW <= x < HIGH && Has34Digits(y)
    requires y != Round(x) && Distance(x, y) == Distance(x, Round(x))
    ensures exists m: nat, k: nat :: Coefficient(Round(x), m, k) && LOW <= m as real && m % 2 == 0
  {
    IntegerOrBelow(y);
    NearestInteger(x, if y < LOW then 1000000000000000000000000000000000 else y.Floor);
    var m, k := RangeCoefficient(HalfEven(x));
  }

  /** A value that already has 34 digits is left alone; so rounding twice is rounding once. */
  lemma RoundFixes(y: Positive)
    requires Has34Digits(y)
    ensures Round(y) == y
  {
    RoundNearest(y, y);
  }

  lemma RoundIdempotent(x: Positive)
    ensures Round(Round(x)) == Round(x)
  {
    RoundHas34Digits(x);
    RoundFixes(Round(x));
  }
}
