/** Canonical text of corporate-action decimals: exactly the positive NUMERIC(38,18) values. */
module DecimalText {
  import opened Common

  /** A positive finite decimal: coefficient times a power of ten. */
  datatype Decimal = Decimal(coefficient: nat, exponent: int)

  /** `v` times ten to the `k`. */
  function Shift(v: nat, k: nat): (r: nat)
    ensures v <= r && (0 < k ==> r % 10 == 0)
  {
    if k == 0 then v else 10 * Shift(v, k - 1)
  }

  /** The decimal as a multiple of ten to the `base`. */
  function At(d: Decimal, base: int): nat
    requires base <= d.exponent
  {
    Shift(d.coefficient, d.exponent - base)
  }

  /** Equal values, whatever the exponents. */
  predicate Same(d: Decimal, e: Decimal) {
    var base := Min(d.exponent, e.exponent);
    At(d, base) == At(e, base)
  }

  lemma {:induction false} ShiftTwice(v: nat, j: nat, k: nat)
    ensures Shift(Shift(v, j), k) == Shift(v, j + k)
  {
    if k > 0 {
      ShiftTwice(v, j, k - 1);
    }
  }

  lemma {:induction false} ShiftZero(k: nat)
    ensures Shift(0, k) == 0
  {
    if k > 0 {
      ShiftZero(k - 1);
    }
  }

  lemma {:induction false} ShiftOrder(v: nat, w: nat, k: nat)
    ensures v < w <==> Shift(v, k) < Shift(w, k)
    ensures v == w <==> Shift(v, k) == Shift(w, k)
  {
    if k > 0 {
      ShiftOrder(v, w, k - 1);
    }
  }

  /** Equality can be tested at any base below both exponents. */
  lemma SameAt(d: Decimal, e: Decimal, base: int)
    requires base <= d.exponent && base <= e.exponent
    ensures Same(d, e) <==> At(d, base) == At(e, base)
  {
    var top := Min(d.exponent, e.exponent);
    ShiftTwice(d.coefficient, d.exponent - top, top - base);
    ShiftTwice(e.coefficient, e.exponent - top, top - base);
    ShiftOrder(At(d, top), At(e, top), top - base);
  }

  lemma SameTransitive(d: Decimal, e: Decimal, f: Decimal)
    requires Same(d, e) && Same(e, f)
    ensures Same(d, f)
  {
    var base := Min(d.exponent, Min(e.exponent, f.exponent));
    SameAt(d, e, base);
    SameAt(e, f, base);
    SameAt(d, f, base);
  }

  // ---- digits ----

  function DigitChar(d: nat): char
    requires d < 10
  {
    ('0' as int + d) as char
  }

  predicate IsDigits(s: string) {
    forall i :: 0 <= i < |s| ==> '0' <= s[i] <= '9'
  }

  function Digits(n: nat): (s: string)
    ensures s != "" && IsDigits(s)
  {
    if n < 10 then [DigitChar(n)] else Digits(n / 10) + [DigitChar(n % 10)]
  }

  function Zeros(k: nat): (s: string)
    ensures |s| == k && IsDigits(s)
  {
    seq(k, _ => '0')
  }

  function Value(s: string): nat
    requires IsDigits(s)
  {
    if s == "" then 0 else 10 * Value(Init(s)) + (Last(s) as int - '0' as int)
  }

  lemma {:induction false} DigitsValue(n: nat)
    ensures Value(Digits(n)) == n
  {
    if n >= 10 {
      DigitsValue(n / 10);
      SnocParts(Digits(n / 10), DigitChar(n % 10));
    } else {
      assert Init([DigitChar(n)]) == "";
    }
  }

  lemma OneMoreZero(t: string)
    requires IsDigits(t)
    ensures IsDigits(t + ['0']) && Value(t + ['0']) == 10 * Value(t)
  {
    SnocParts(t, '0');
  }

  lemma {:induction false} ValueZeros(s: string, k: nat)
    requires IsDigits(s)
    ensures IsDigits(s + Zeros(k)) && Value(s + Zeros(k)) == Shift(Value(s), k)
  {
    if k == 0 {
      assert s + Zeros(0) == s;
    } else {
      ValueZeros(s, k - 1);
      var t := s + Zeros(k - 1);
      assert s + Zeros(k) == t + ['0'];
      OneMoreZero(t);
    }
  }

  lemma {:induction false} LeadingZeros(k: nat, s: string)
    requires IsDigits(s)
    ensures Value(Zeros(k) + s) == Value(s)
  {
    if s == "" {
      ValueZeros("", k);
      ShiftZero(k);
      assert Zeros(k) + s == "" + Zeros(k);
    } else {
      LeadingZeros(k, Init(s));
      assert Zeros(k) + s == (Zeros(k) + Init(s)) + [Last(s)];
      SnocParts(Zeros(k) + Init(s), Last(s));
    }
  }

  /** A numeral has at most `k` digits exactly when the number is below `10^k`. */
  lemma {:induction false} DigitsLength(n: nat, k: nat)
    requires 1 <= k
    ensures |Digits(n)| <= k <==> n < Shift(1, k)
  {
    if k == 1 {
      assert Shift(1, 1) == 10;
      assert n >= 10 ==> Digits(n / 10) != "";
    } else if n < 10 {
      assert 1 <= Shift(1, k - 1);
    } else {
      DigitsLength(n / 10, k - 1);
    }
  }

  // ---- formatting ----

  /** `normalize`: no trailing zeros in the coefficient. */
  function Normalize(d: Decimal): (r: Decimal)
    requires 0 < d.coefficient
    ensures 0 < r.coefficient && r.coefficient % 10 != 0
    decreases d.coefficient
  {
    if d.coefficient % 10 == 0 then Normalize(Decimal(d.coefficient / 10, d.exponent + 1)) else d
  }

  /** The integer and fraction digits of the fixed-point format. */
  function Fixed(d: Decimal): (r: (string, string))
    ensures IsDigits(r.0) && IsDigits(r.1)
  {
    var digits := Digits(d.coefficient);
    if 0 <= d.exponent then (digits + Zeros(d.exponent), "")
    else
      var point := |digits| + d.exponent;
      if 0 < point then (digits[..point], digits[point..])
      else ("0", Zeros(-point) + digits)
  }

  function StripZeros(s: string): string {
    if s != "" && Last(s) == '0' then StripZeros(Init(s)) else s
  }

  function LeadingStripped(s: string): (r: string)
    ensures |r| <= |s|
  {
    if s != "" && s[0] == '0' then LeadingStripped(s[1..]) else s
  }

  /** `m` over ten to the `s` equals the decimal. */
  predicate Denotes(m: nat, s: int, d: Decimal) {
    Same(Decimal(m, -s), d)
  }

  function Canonical(d: Decimal): Option<string> {
    if d.coefficient == 0 then None
    else
      var digits := |Digits(d.coefficient)|;
      if digits > 256 || !(-18 <= digits - 1 + d.exponent < 20) then None
      else
        var (integer, decimals) := Fixed(Normalize(d));
        var fraction := StripZeros(decimals);
        StripZerosDigits(decimals);
        if || |integer| > 20 || |fraction| > 18 || |LeadingStripped(integer)| + |fraction| > 38
           || !Denotes(Value(integer + fraction), |fraction|, d)
        then None
        else Some(if fraction == "" then integer else integer + "." + fraction)
  }

  lemma {:induction false} StripZerosDigits(s: string)
    requires IsDigits(s)
    ensures IsDigits(StripZeros(s))
  {
    if s != "" && Last(s) == '0' {
      StripZerosDigits(Init(s));
    }
  }

  // ---- normalisation keeps the value ----

  lemma {:induction false} NormalizeShift(d: Decimal) returns (k: nat)
    requires 0 < d.coefficient
    ensures d.coefficient == Shift(Normalize(d).coefficient, k) && Normalize(d).exponent == d.exponent + k
    ensures |Digits(d.coefficient)| == |Digits(Normalize(d).coefficient)| + k
    decreases d.coefficient
  {
    if d.coefficient % 10 == 0 {
      var c := d.coefficient / 10;
      var j := NormalizeShift(Decimal(c, d.exponent + 1));
      k := j + 1;
    } else {
      k := 0;
    }
  }

  lemma FixedWhole(d: Decimal)
    requires 0 <= d.exponent
    ensures Value(Fixed(d).0 + Fixed(d).1) == Shift(d.coefficient, d.exponent)
  {
    var digits := Digits(d.coefficient);
    DigitsValue(d.coefficient);
    ValueZeros(digits, d.exponent);
    assert digits + Zeros(d.exponent) + "" == digits + Zeros(d.exponent);
  }

  lemma SplitJoin(s: string, k: nat)
    requires k <= |s| && IsDigits(s)
    ensures s[..k] + s[k..] == s && Value(s[..k] + s[k..]) == Value(s)
  {
    assert s[..k] + s[k..] == s;
  }

  lemma PaddedValue(k: nat, s: string)
    requires IsDigits(s)
    ensures IsDigits("0" + (Zeros(k) + s)) && Value("0" + (Zeros(k) + s)) == Value(s)
  {
    LeadingZeros(k + 1, s);
    assert "0" + (Zeros(k) + s) == Zeros(k + 1) + s;
  }

  lemma FixedPoint(d: Decimal)
    requires d.exponent < 0
    ensures |Fixed(d).1| == -d.exponent && Value(Fixed(d).0 + Fixed(d).1) == d.coefficient
  {
    var digits := Digits(d.coefficient);
    var point := |digits| + d.exponent;
    DigitsValue(d.coefficient);
    if 0 < point {
      SplitJoin(digits, point);
    } else {
      PaddedValue(-point, digits);
    }
  }

  /** What the formatted digits say, with the point dropped. */
  lemma FixedValue(d: Decimal)
    ensures var (i, f) := Fixed(d);
            && |f| == Max(0, -d.exponent) && Value(i + f) == Shift(d.coefficient, Max(0, d.exponent))
  {
    if 0 <= d.exponent {
      FixedWhole(d);
    } else {
      FixedPoint(d);
    }
  }

  lemma NoTrailingZero(d: Decimal)
    requires 0 < d.coefficient && d.coefficient % 10 != 0
    ensures StripZeros(Fixed(d).1) == Fixed(d).1
  {
    var digits := Digits(d.coefficient);
    assert Last(digits) == DigitChar(d.coefficient % 10);
    if d.exponent < 0 {
      var f := Fixed(d).1;
      assert f != "" && Last(f) == Last(digits);
    }
  }

  /** Normalising keeps the value. */
  lemma NormalSame(d: Decimal)
    requires 0 < d.coefficient
    ensures Same(Normalize(d), d)
  {
    var k := NormalizeShift(d);
  }

  /** Equal values have one normal form. */
  lemma NormalUnique(d: Decimal, e: Decimal)
    requires 0 < d.coefficient && 0 < e.coefficient && Same(d, e)
    ensures Normalize(d) == Normalize(e)
  {
    var n, m := Normalize(d), Normalize(e);
    NormalSame(d);
    NormalSame(e);
    SameTransitive(n, d, e);
    SameTransitive(n, e, m);
  }

  lemma PointSame(n: Decimal, v: nat)
    requires v == Shift(n.coefficient, Max(0, n.exponent))
    ensures Same(Decimal(v, -Max(0, -n.exponent)), n)
  {
  }

  /** The formatted digits say the value. */
  lemma FixedDenotes(d: Decimal)
    requires 0 < d.coefficient
    ensures var (i, f) := Fixed(Normalize(d)); Denotes(Value(i + f), |f|, d)
  {
    var n := Normalize(d);
    var (i, f) := Fixed(n);
    FixedValue(n);
    PointSame(n, Value(i + f));
    NormalSame(d);
    SameTransitive(Decimal(Value(i + f), -|f|), n, d);
  }

  // ---- what is representable ----

  /** A positive multiple of `10^-18` below `10^20`: at most 20 integer and 18 fractional digits. */
  ghost predicate Representable(d: Decimal) {
    exists n: nat :: IsNumeric(n, d)
  }

  ghost predicate IsNumeric(n: nat, d: Decimal) {
    n < Shift(1, 38) && Same(Decimal(n, -18), d)
  }

  /** Of a normalised decimal: its exponent and its leading digit decide. */
  lemma NormalRepresentable(n: Decimal)
    requires 0 < n.coefficient && n.coefficient % 10 != 0
    ensures Representable(n) <==> -18 <= n.exponent && |Digits(n.coefficient)| + n.exponent <= 20
  {
    var digits := |Digits(n.coefficient)|;
    if -18 <= n.exponent {
      var m := At(n, -18);
      ShiftedDigits(n.coefficient, n.exponent + 18);
      DigitsLength(m, 38);
      assert Same(Decimal(m, -18), n);
      if digits + n.exponent <= 20 {
        assert IsNumeric(m, n);
      }
      forall k: nat | IsNumeric(k, n) ensures k == m {
        assert At(Decimal(k, -18), -18) == k;
      }
    } else {
      forall k: nat ensures !IsNumeric(k, n) {
        assert At(Decimal(k, -18), n.exponent) % 10 == 0;
      }
    }
  }

  lemma {:induction false} ShiftedDigits(c: nat, k: nat)
    requires 0 < c
    ensures |Digits(Shift(c, k))| == |Digits(c)| + k
  {
    if k > 0 {
      ShiftedDigits(c, k - 1);
      assert Shift(c, k) / 10 == Shift(c, k - 1);
    }
  }

  lemma RepresentableAlike(d: Decimal, e: Decimal)
    requires Same(d, e)
    ensures Representable(d) <==> Representable(e)
  {
    assert Same(e, d);
    forall n: nat ensures IsNumeric(n, d) <==> IsNumeric(n, e) {
      if Same(Decimal(n, -18), d) {
        SameTransitive(Decimal(n, -18), d, e);
      }
      if Same(Decimal(n, -18), e) {
        SameTransitive(Decimal(n, -18), e, d);
      }
    }
  }

  /** The lengths the check looks at, of a normalised decimal. */
  lemma FixedLengths(n: Decimal)
    requires 0 < n.coefficient
    ensures var (i, f) := Fixed(n);
            && |f| == Max(0, -n.exponent)
            && |i| == Max(1, |Digits(n.coefficient)| + n.exponent)
            && (0 >= |Digits(n.coefficient)| + n.exponent ==> LeadingStripped(i) == "")
  {
    assert LeadingStripped("0"[1..]) == "";
  }

  /** Text is produced exactly for positive representable values with at most 256 coefficient digits. */
  lemma CanonicalIff(d: Decimal)
    ensures Canonical(d).Some? <==>
              0 < d.coefficient && |Digits(d.coefficient)| <= 256 && Representable(d)
  {
    if 0 < d.coefficient {
      var n := Normalize(d);
      var k := NormalizeShift(d);
      NormalSame(d);
      RepresentableAlike(n, d);
      NormalRepresentable(n);
      FixedLengths(n);
      NoTrailingZero(n);
      FixedDenotes(d);
    }
  }

  /** The digits of the text, read back with the point in place, are the value. */
  lemma CanonicalReadsBack(d: Decimal) returns (integer: string, fraction: string)
    requires Canonical(d).Some?
    ensures IsDigits(integer) && IsDigits(fraction) && integer != ""
    ensures Canonical(d).value == if fraction == "" then integer else integer + "." + fraction
    ensures Denotes(Value(integer + fraction), |fraction|, d)
    ensures fraction != "" ==> Last(fraction) != '0'
    ensures |integer| > 1 ==> integer[0] != '0'
  {
    var n := Normalize(d);
    integer, fraction := Fixed(n).0, Fixed(n).1;
    NoTrailingZero(n);
    FixedDenotes(d);
    FixedLengths(n);
    StrippedEnd(fraction);
    FirstDigit(n.coefficient);
  }

  lemma StrippedEnd(s: string)
    requires StripZeros(s) == s
    ensures s != "" ==> Last(s) != '0'
  {
    ShorterStripped(s);
  }

  lemma {:induction false} ShorterStripped(s: string)
    ensures |StripZeros(s)| <= |s| && (s != "" && Last(s) == '0' ==> |StripZeros(s)| < |s|)
  {
    if s != "" && Last(s) == '0' {
      ShorterStripped(Init(s));
    }
  }

  lemma {:induction false} FirstDigit(n: nat)
    requires 0 < n
    ensures Digits(n)[0] != '0'
  {
    if n >= 10 {
      FirstDigit(n / 10);
    }
  }

  /** Equal values with different exponents print identically. */
  lemma CanonicalForgetsExponent(d: Decimal, e: Decimal)
    requires Canonical(d).Some? && Same(d, e) && |Digits(e.coefficient)| <= 256
    ensures Canonical(e) == Canonical(d)
  {
    CanonicalIff(d);
    RepresentableAlike(d, e);
    SamePositive(d, e);
    CanonicalIff(e);
    NormalUnique(d, e);
  }

  lemma SamePositive(d: Decimal, e: Decimal)
    requires Same(d, e) && 0 < d.coefficient
    ensures 0 < e.coefficient
  {
    var base := Min(d.exponent, e.exponent);
    ShiftZero(d.exponent - base);
    ShiftZero(e.exponent - base);
    ShiftOrder(0, d.coefficient, d.exponent - base);
    ShiftOrder(0, e.coefficient, e.exponent - base);
  }
}
