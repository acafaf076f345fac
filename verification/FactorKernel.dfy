/** The backward accumulation of split and dividend factors, rounded and exact.

    A window is a sequence of sessions, oldest first; the newest one is the anchor. An action on a
    session applies to every earlier session. */
module FactorKernel {
  import opened Decimal34

  datatype Action = Quiet | SplitShares(from: Positive, to: Positive) | CashDividend(cash: Positive)

  datatype Session = Session(close: Positive, action: Action)

  /** A rounding operation with its relative error bounds `1 - u` and `1 + u`. */
  datatype Rounding = Rounding(round: Positive -> Positive, down: Positive, up: Positive)

  ghost predicate Within(a: Rounding, x: Positive) {
    a.down * x <= a.round(x) <= a.up * x
  }

  ghost predicate Bounded(a: Rounding) {
    forall x: Positive {:trigger a.round(x)} :: Within(a, x)
  }

  ghost predicate Idempotent(a: Rounding) {
    forall x: Positive {:trigger a.round(a.round(x))} :: a.round(a.round(x)) == a.round(x)
  }

  /** Every result is within the bounds, and rounding again changes nothing. */
  ghost predicate Faithful(a: Rounding) {
    Bounded(a) && Idempotent(a)
  }

  /** One multiplication and one division, each rounded. The final rounding is the unary plus. */
  function MulDiv(a: Rounding, left: Positive, numerator: Positive, denominator: Positive): Positive {
    a.round(a.round(a.round(left * numerator) / denominator))
  }

  function Add(a: Rounding, left: Positive, right: Positive): Positive {
    a.round(left + right)
  }

  function PriceStep(a: Rounding, factor: Positive, s: Session): Positive {
    match s.action
    case Quiet => factor
    case SplitShares(from, to) => MulDiv(a, factor, from, to)
    case CashDividend(cash) => MulDiv(a, factor, s.close, Add(a, s.close, cash))
  }

  function VolumeStep(a: Rounding, factor: Positive, s: Session): Positive {
    match s.action
    case SplitShares(from, to) => MulDiv(a, factor, to, from)
    case _ => factor
  }

  /** The published factors of session `i`. */
  function PriceFactor(a: Rounding, w: seq<Session>, i: nat): Positive
    requires i < |w|
    decreases |w| - i
  {
    if i == |w| - 1 then 1.0 else PriceStep(a, PriceFactor(a, w, i + 1), w[i + 1])
  }

  function VolumeFactor(a: Rounding, w: seq<Session>, i: nat): Positive
    requires i < |w|
    decreases |w| - i
  {
    if i == |w| - 1 then 1.0 else VolumeStep(a, VolumeFactor(a, w, i + 1), w[i + 1])
  }

  // ---- the same in exact arithmetic ----

  function Times(x: Positive, y: Positive): Positive {
    x * y
  }

  function PriceRatio(s: Session): Positive {
    match s.action
    case Quiet => 1.0
    case SplitShares(from, to) => from / to
    case CashDividend(cash) => s.close / (s.close + cash)
  }

  function VolumeRatio(s: Session): Positive {
    match s.action
    case SplitShares(from, to) => to / from
    case _ => 1.0
  }

  function ExactPrice(w: seq<Session>, i: nat): Positive
    requires i < |w|
    decreases |w| - i
  {
    if i == |w| - 1 then 1.0
    else Times(ExactPrice(w, i + 1), PriceRatio(w[i + 1]))
  }

  function ExactVolume(w: seq<Session>, i: nat): Positive
    requires i < |w|
    decreases |w| - i
  {
    if i == |w| - 1 then 1.0
    else Times(ExactVolume(w, i + 1), VolumeRatio(w[i + 1]))
  }

  // ---- rounding error ----

  function Pow(x: Positive, n: nat): Positive {
    if n == 0 then 1.0 else Times(x, Pow(x, n - 1))
  }

  /** Actions on sessions strictly later than `i`, and the dividends among them. */
  function ActionsAfter(w: seq<Session>, i: nat): nat
    requires i < |w|
    decreases |w| - i
  {
    if i == |w| - 1 then 0 else ActionsAfter(w, i + 1) + (if w[i + 1].action.Quiet? then 0 else 1)
  }

  function DividendsAfter(w: seq<Session>, i: nat): nat
    requires i < |w|
    decreases |w| - i
  {
    if i == |w| - 1 then 0 else DividendsAfter(w, i + 1) + (if w[i + 1].action.CashDividend? then 1 else 0)
  }

  function SplitsAfter(w: seq<Session>, i: nat): nat
    requires i < |w|
    decreases |w| - i
  {
    if i == |w| - 1 then 0 else SplitsAfter(w, i + 1) + (if w[i + 1].action.SplitShares? then 1 else 0)
  }

  lemma Scale(x: real, y: real, z: real)
    requires x <= y && 0.0 <= z
    ensures x * z <= y * z
  {
  }

  lemma Cancel(x: real, y: real, z: Positive)
    requires x * z <= y * z
    ensures x <= y
  {
    assert y < x ==> y * z < x * z;
  }

  /** `g` is `t` up to relative errors: between `lo * t / x` and `hi * t / y`. */
  ghost predicate Near(g: Positive, t: Positive, lo: Positive, hi: Positive, x: Positive, y: Positive) {
    lo * t <= g * x && g * y <= hi * t
  }

  /** Rounding a product and then a quotient, with relative errors between `a` and `b` each time. */
  lemma TwoRoundings(a: Positive, b: Positive, p: Positive, product: Positive,
                     d: Positive, q: Positive, quotient: Positive)
    requires a * p <= product <= b * p
    requires q * d == product
    requires a * q <= quotient <= b * q
    ensures Near(quotient, p, Times(a, a), Times(b, b), d, d)
  {
    BelowTwice(a, p, product, q, d, quotient);
    AboveTwice(b, p, product, q, d, quotient);
  }

  lemma BelowTwice(a: Positive, p: Positive, product: Positive, q: Positive, d: Positive, quotient: Positive)
    requires a * p <= product && q * d == product && a * q <= quotient
    ensures Times(a, a) * p <= quotient * d
  {
    Scale(a * q, quotient, d);
    Scale(a * p, product, a);
    Regroup(a, p, product, q, d);
  }

  lemma AboveTwice(b: Positive, p: Positive, product: Positive, q: Positive, d: Positive, quotient: Positive)
    requires product <= b * p && q * d == product && quotient <= b * q
    ensures quotient * d <= Times(b, b) * p
  {
    Scale(quotient, b * q, d);
    Scale(product, b * p, b);
    Regroup(b, p, product, q, d);
  }

  lemma Regroup(a: Positive, p: Positive, product: Positive, q: Positive, d: Positive)
    requires q * d == product
    ensures (a * q) * d == product * a && (a * p) * a == Times(a, a) * p
  {
    assert (a * q) * d == a * (q * d);
  }

  /** One multiply-divide is within two roundings of the exact quotient. */
  lemma MulDivBounds(a: Rounding, f: Positive, n: Positive, d: Positive)
    requires Faithful(a)
    ensures Near(MulDiv(a, f, n, d), Times(f, n), Times(a.down, a.down), Times(a.up, a.up), d, d)
  {
    var p := Times(f, n);
    var q := a.round(p) / d;
    TwoRoundings(a.down, a.up, p, a.round(p), d, q, MulDiv(a, f, n, d));
  }

  /** Dividing the denominator out, when it is itself within `a` and `b` of an exact one. */
  lemma OverDenominator(g: Positive, f: Positive, n: Positive, lo: Positive, hi: Positive, rounded: Positive,
                        exact: Positive, r: Positive, a: Positive, b: Positive)
    requires Near(g, Times(f, n), lo, hi, rounded, rounded)
    requires a * exact <= rounded <= b * exact && r * exact == n
    ensures Near(g, Times(f, r), lo, hi, b, a)
  {
    var t := Times(f, r);
    assert Times(f, n) == t * exact;
    Scale(rounded, b * exact, g);
    Scale(a * exact, rounded, g);
    assert (b * exact) * g == (g * b) * exact && (a * exact) * g == (g * a) * exact;
    assert lo * (t * exact) == (lo * t) * exact && hi * (t * exact) == (hi * t) * exact;
    Cancel(lo * t, g * b, exact);
    Cancel(g * a, hi * t, exact);
  }

  function DenominatorUp(a: Rounding, s: Session): Positive {
    if s.action.CashDividend? then a.up else 1.0
  }

  function DenominatorDown(a: Rounding, s: Session): Positive {
    if s.action.CashDividend? then a.down else 1.0
  }

  /** One step is within two roundings of the exact step, and for a dividend one more, of its denominator. */
  lemma StepBounds(a: Rounding, f: Positive, s: Session)
    requires Faithful(a) && !s.action.Quiet?
    ensures Near(PriceStep(a, f, s), Times(f, PriceRatio(s)), Times(a.down, a.down), Times(a.up, a.up),
                 DenominatorUp(a, s), DenominatorDown(a, s))
  {
    var lo, hi := Times(a.down, a.down), Times(a.up, a.up);
    match s.action {
      case SplitShares(from, to) =>
        MulDivBounds(a, f, from, to);
        OverDenominator(PriceStep(a, f, s), f, from, lo, hi, to, to, from / to, 1.0, 1.0);
      case CashDividend(cash) =>
        var exact, rounded := s.close + cash, Add(a, s.close, cash);
        MulDivBounds(a, f, s.close, rounded);
        OverDenominator(PriceStep(a, f, s), f, s.close, lo, hi, rounded, exact, s.close / exact, a.down, a.up);
    }
  }

  lemma VolumeStepBounds(a: Rounding, f: Positive, s: Session)
    requires Faithful(a) && s.action.SplitShares?
    ensures Near(VolumeStep(a, f, s), Times(f, VolumeRatio(s)), Times(a.down, a.down), Times(a.up, a.up), 1.0, 1.0)
  {
    var from, to := s.action.from, s.action.to;
    MulDivBounds(a, f, to, from);
    OverDenominator(VolumeStep(a, f, s), f, to, Times(a.down, a.down), Times(a.up, a.up),
                    from, from, to / from, 1.0, 1.0);
  }

  /** One more step of the error bound, on plain numbers. */
  lemma GrowNear(e: Positive, f: Positive, g: Positive, r: Positive, lo: Positive, hi: Positive,
                 x: Positive, y: Positive, lo': Positive, hi': Positive, x': Positive, y': Positive)
    requires Near(f, e, lo, hi, x, y) && Near(g, Times(f, r), lo', hi', x', y')
    ensures Near(g, Times(e, r), Times(lo', lo), Times(hi', hi), Times(x', x), Times(y', y))
  {
    GrowBelow(e, f, g, r, lo, x, lo', x');
    Scale(f * y, e * hi, hi' * r);
    Scale(g * y', hi' * (f * r), y);
    assert (f * y) * (hi' * r) == (hi' * (f * r)) * y && (e * hi) * (hi' * r) == (hi' * hi) * (e * r);
    assert (g * y') * y == g * (y' * y);
  }

  lemma GrowBelow(e: Positive, f: Positive, g: Positive, r: Positive,
                  lo: Positive, x: Positive, lo': Positive, x': Positive)
    requires lo * e <= f * x && lo' * (f * r) <= g * x'
    ensures (lo' * lo) * (e * r) <= g * (x' * x)
  {
    Scale(lo * e, f * x, lo' * r);
    Scale(lo' * (f * r), g * x', x);
    assert (lo * e) * (lo' * r) == (lo' * lo) * (e * r) && (f * x) * (lo' * r) == (lo' * (f * r)) * x;
    assert (g * x') * x == g * (x' * x);
  }

  /** `k` roundings of a product and a quotient, and `d` of a denominator. */
  ghost predicate ErrorAt(a: Rounding, exact: Positive, rounded: Positive, k: nat, d: nat) {
    Near(rounded, exact, Pow(a.down, 2 * k), Pow(a.up, 2 * k), Pow(a.up, d), Pow(a.down, d))
  }

  lemma PriceErrorStep(a: Rounding, exact: Positive, f: Positive, s: Session, k: nat, d: nat)
    requires Faithful(a) && ErrorAt(a, exact, f, k, d) && !s.action.Quiet?
    ensures ErrorAt(a, Times(exact, PriceRatio(s)), PriceStep(a, f, s),
                    k + 1, d + (if s.action.CashDividend? then 1 else 0))
  {
    StepBounds(a, f, s);
    GrowNear(exact, f, PriceStep(a, f, s), PriceRatio(s),
             Pow(a.down, 2 * k), Pow(a.up, 2 * k), Pow(a.up, d), Pow(a.down, d),
             Times(a.down, a.down), Times(a.up, a.up), DenominatorUp(a, s), DenominatorDown(a, s));
    PowTwice(a.down, k);
    PowTwice(a.up, k);
  }

  /** After `k` actions, `d` of them dividends, the rounded price factor is the exact one times something
      between `down^2k / up^d` and `up^2k / down^d`. */
  lemma {:induction false} PriceFactorError(a: Rounding, w: seq<Session>, i: nat)
    requires Faithful(a) && i < |w|
    ensures ErrorAt(a, ExactPrice(w, i), PriceFactor(a, w, i), ActionsAfter(w, i), DividendsAfter(w, i))
    decreases |w| - i
  {
    if i < |w| - 1 {
      PriceFactorError(a, w, i + 1);
      if !w[i + 1].action.Quiet? {
        PriceErrorStep(a, ExactPrice(w, i + 1), PriceFactor(a, w, i + 1), w[i + 1],
                       ActionsAfter(w, i + 1), DividendsAfter(w, i + 1));
      }
    }
  }

  lemma PowTwice(x: Positive, k: nat)
    ensures Pow(x, 2 * (k + 1)) == Times(Times(x, x), Pow(x, 2 * k))
  {
    assert Pow(x, 2 * k + 2) == x * Pow(x, 2 * k + 1);
  }

  /** The volume factor sees splits only, and its denominators are exact. */
  lemma {:induction false} VolumeFactorError(a: Rounding, w: seq<Session>, i: nat)
    requires Faithful(a) && i < |w|
    ensures ErrorAt(a, ExactVolume(w, i), VolumeFactor(a, w, i), SplitsAfter(w, i), 0)
    decreases |w| - i
  {
    if i < |w| - 1 {
      VolumeFactorError(a, w, i + 1);
      var s := w[i + 1];
      if s.action.SplitShares? {
        var k, exact, f := SplitsAfter(w, i + 1), ExactVolume(w, i + 1), VolumeFactor(a, w, i + 1);
        VolumeStepBounds(a, f, s);
        GrowNear(exact, f, VolumeStep(a, f, s), VolumeRatio(s), Pow(a.down, 2 * k), Pow(a.up, 2 * k), 1.0, 1.0,
                 Times(a.down, a.down), Times(a.up, a.up), 1.0, 1.0);
        PowTwice(a.down, k);
        PowTwice(a.up, k);
      }
    }
  }

  lemma UpperStep(p: Positive, u: Positive, s: real)
    requires p * s <= 1.0 && s <= 1.0
    ensures ((1.0 + u) * p) * (s - u) <= 1.0
  {
    Scale(s, 1.0, u);
    assert (1.0 + u) * (s - u) == s + s * u - u - u * u;
    Scale((1.0 + u) * (s - u), s, p);
    assert ((1.0 + u) * p) * (s - u) == ((1.0 + u) * (s - u)) * p;
  }

  lemma LowerStep(p: Positive, u: Positive, s: real)
    requires s <= p && s <= 1.0 && u < 1.0
    ensures s - u <= (1.0 - u) * p
  {
    var v := 1.0 - u;
    calc {
      v * p;
    >= { Scale(s, p, v); }
      v * s;
    ==
      s - u * s;
    >= { Scale(s, 1.0, u); }
      s - u;
    }
  }

  /** One minus `n` units. */
  function Slack(u: Positive, n: nat): real {
    if n == 0 then 1.0 else Slack(u, n - 1) - u
  }

  /** `n` roundings are `n` units to first order, from above and from below. */
  lemma {:induction false} PowSlack(a: Rounding, u: Positive, n: nat) returns (s: real)
    requires a.down == 1.0 - u && a.up == 1.0 + u
    ensures s == Slack(u, n) <= 1.0
    ensures Pow(a.up, n) * s <= 1.0 && s <= Pow(a.down, n)
  {
    if n == 0 {
      s := 1.0;
    } else {
      var t := PowSlack(a, u, n - 1);
      var p, q := Pow(a.up, n - 1), Pow(a.down, n - 1);
      UpperStep(p, u, t);
      LowerStep(q, u, t);
      s := t - u;
      assert Pow(a.up, n) == Times(a.up, p) && Pow(a.down, n) == Times(a.down, q);
    }
  }

  /** The bounds as a relative error, to first order: at most `2k + d` units. */
  lemma RelativeError(a: Rounding, u: Positive, exact: Positive, f: Positive, k: nat, d: nat) returns (s: Positive)
    requires a.down == 1.0 - u && a.up == 1.0 + u && ErrorAt(a, exact, f, k, d)
    requires 0.0 < Slack(u, 2 * k + d)
    ensures s == Slack(u, 2 * k + d)
    ensures exact * s <= f && f * s <= exact
  {
    s := Slack(u, 2 * k + d);
    var lo, hi, p := Powers(a, u, 2 * k);
    var y, x, q := Powers(a, u, d);
    SlackSum(u, 2 * k, d);
    ProductAbove(p, q, s);
    NearSlack(exact, f, lo, hi, x, y, p, q, s);
  }

  lemma Powers(a: Rounding, u: Positive, n: nat) returns (down: Positive, up: Positive, s: real)
    requires a.down == 1.0 - u && a.up == 1.0 + u
    ensures down == Pow(a.down, n) && up == Pow(a.up, n)
    ensures s == Slack(u, n) <= 1.0
    ensures up * s <= 1.0 && s <= down
  {
    down, up := Pow(a.down, n), Pow(a.up, n);
    s := PowSlack(a, u, n);
  }

  lemma {:induction false} SlackSum(u: Positive, n: nat, d: nat)
    ensures Slack(u, n + d) == Slack(u, n) + Slack(u, d) - 1.0
  {
    if d > 0 {
      SlackSum(u, n, d - 1);
      assert n + d - 1 == n + (d - 1);
    }
  }

  lemma ProductAbove(p: real, q: real, all: real)
    requires p <= 1.0 && q <= 1.0 && all == p + q - 1.0 && 0.0 < all
    ensures 0.0 < p && 0.0 < q && all <= p * q
  {
    assert 0.0 <= (1.0 - p) * (1.0 - q);
  }

  lemma NearSlack(e: Positive, f: Positive, lo: Positive, hi: Positive, x: Positive, y: Positive,
                  p: Positive, q: Positive, all: Positive)
    requires Near(f, e, lo, hi, x, y) && all <= p * q
    requires p <= lo && q <= y && hi * p <= 1.0 && x * q <= 1.0
    ensures e * all <= f && f * all <= e
  {
    OneSided(e, f, lo, x, p, q, all);
    OneSided(f, e, y, hi, q, p, all);
  }

  lemma OneSided(e: Positive, f: Positive, lo: Positive, x: Positive, p: Positive, q: Positive, all: Positive)
    requires lo * e <= f * x && p <= lo && x * q <= 1.0 && all <= p * q
    ensures e * all <= f
  {
    Scale(all, p * q, e);
    Scale(p, lo, e * q);
    Scale(lo * e, f * x, q);
    Scale(x * q, 1.0, f);
    assert (p * q) * e == p * (e * q) && lo * (e * q) == (lo * e) * q && (f * x) * q == (x * q) * f;
  }

  // ---- at 34 digits ----

  const DECIMAL34 := Rounding(Round, 1.0 - U, 1.0 + U)

  lemma DecimalFaithful()
    ensures Faithful(DECIMAL34)
  {
    DecimalBounded();
    DecimalIdempotent();
  }

  lemma DecimalBounded()
    ensures Bounded(DECIMAL34)
  {
    forall x: Positive ensures Within(DECIMAL34, x) {
      RoundWithin(x);
      assert DECIMAL34.round(x) == Round(x);
      WithinFields(x, DECIMAL34.round(x));
    }
  }

  lemma DecimalIdempotent()
    ensures Idempotent(DECIMAL34)
  {
    forall x: Positive ensures DECIMAL34.round(DECIMAL34.round(x)) == DECIMAL34.round(x) {
      RoundIdempotent(x);
    }
  }

  lemma RoundWithin(x: Positive)
    ensures (1.0 - U) * x <= Round(x) <= (1.0 + U) * x
  {
  }

  lemma WithinFields(x: Positive, r: Positive)
    requires (1.0 - U) * x <= r <= (1.0 + U) * x
    ensures DECIMAL34.down * x <= r <= DECIMAL34.up * x
  {
    var d, u := 1.0 - U, 1.0 + U;
    assert DECIMAL34.down == d && DECIMAL34.up == u;
  }

  lemma ActionCounts(w: seq<Session>, i: nat)
    requires i < |w|
    ensures DividendsAfter(w, i) <= ActionsAfter(w, i) <= |w| - 1 - i
    ensures SplitsAfter(w, i) + DividendsAfter(w, i) == ActionsAfter(w, i)
    decreases |w| - i
  {
    if i < |w| - 1 {
      ActionCounts(w, i + 1);
    }
  }

  /** Over the largest admitted window every published decimal factor is within one part in 10^29. */
  lemma FactorsAccurate(w: seq<Session>, i: nat)
    requires i < |w| <= 5000
    ensures var f := PriceFactor(DECIMAL34, w, i); var e := ExactPrice(w, i);
            e * (1.0 - 0.00000000000000000000000000001) < f < e * (1.0 + 0.00000000000000000000000000001)
    ensures var f := VolumeFactor(DECIMAL34, w, i); var e := ExactVolume(w, i);
            e * (1.0 - 0.00000000000000000000000000001) < f < e * (1.0 + 0.00000000000000000000000000001)
  {
    DecimalFaithful();
    ActionCounts(w, i);
    PriceFactorError(DECIMAL34, w, i);
    VolumeFactorError(DECIMAL34, w, i);
    WithinE29(ExactPrice(w, i), PriceFactor(DECIMAL34, w, i), ActionsAfter(w, i), DividendsAfter(w, i));
    WithinE29(ExactVolume(w, i), VolumeFactor(DECIMAL34, w, i), SplitsAfter(w, i), 0);
  }

  lemma {:induction false} SlackValue(n: nat)
    ensures Slack(U, n) == 1.0 - n as real * U
  {
    if n > 0 {
      SlackValue(n - 1);
    }
  }

  lemma WithinE29(e: Positive, f: Positive, k: nat, d: nat)
    requires d <= k <= 4999 && ErrorAt(DECIMAL34, e, f, k, d)
    ensures e * (1.0 - 0.00000000000000000000000000001) < f < e * (1.0 + 0.00000000000000000000000000001)
  {
    SlackValue(2 * k + d);
    var s := RelativeError(DECIMAL34, U, e, f, k, d);
    OnePartIn29(e, f, s);
  }

  lemma OnePartIn29(e: Positive, f: Positive, t: Positive)
    requires 1.0 - 14997.0 * U <= t && e * t <= f && f * t <= e
    ensures e * (1.0 - 0.00000000000000000000000000001) < f < e * (1.0 + 0.00000000000000000000000000001)
  {
    Scale(1.0 - 14997.0 * U, t, e);
    Scale(1.0 - 14997.0 * U, t, f);
    assert f * (1.0 - 14997.0 * U) <= e;
  }

  // ---- what the exact factors mean ----

  function AdjustedClose(w: seq<Session>, i: nat): Positive
    requires i < |w|
  {
    Times(w[i].close, ExactPrice(w, i))
  }

  /** The gross return into session `k`: what one share held over the night before is worth. */
  function GrossReturn(w: seq<Session>, k: nat): Positive
    requires 0 < k < |w|
  {
    match w[k].action
    case Quiet => w[k].close / w[k - 1].close
    case SplitShares(from, to) => Times(w[k].close, to / from) / w[k - 1].close
    case CashDividend(cash) => (w[k].close + cash) / w[k - 1].close
  }

  function Returns(w: seq<Session>, i: nat, j: nat): Positive
    requires i <= j < |w|
  {
    if i == j then 1.0 else Times(Returns(w, i, j - 1), GrossReturn(w, j))
  }

  /** The adjusted return into `k` is the gross return of holding the share. */
  lemma AdjustedReturn(w: seq<Session>, k: nat)
    requires 0 < k < |w|
    ensures AdjustedClose(w, k) == Times(AdjustedClose(w, k - 1), GrossReturn(w, k))
  {
    RatioUndone(w[k - 1].close, w[k]);
    Chain(w[k - 1].close, w[k].close, ExactPrice(w, k), PriceRatio(w[k]), GrossReturn(w, k));
  }

  lemma RatioUndone(p: Positive, s: Session)
    ensures var g := match s.action
                     case Quiet => s.close / p
                     case SplitShares(from, to) => Times(s.close, to / from) / p
                     case CashDividend(cash) => (s.close + cash) / p;
            PriceRatio(s) * (g * p) == s.close
  {
    match s.action {
      case Quiet =>
      case SplitShares(from, to) => Inverse(from, to); Chain(1.0, 1.0, s.close, from / to, to / from);
      case CashDividend(cash) =>
    }
  }

  lemma Inverse(x: Positive, y: Positive)
    ensures (x / y) * (y / x) == 1.0
  {
    assert (x / y) * y == x && (y / x) * x == y;
  }

  lemma Chain(p: Positive, q: Positive, e: Positive, r: Positive, g: Positive)
    requires r * (g * p) == q
    ensures Times(q, e) == Times(Times(p, Times(e, r)), g)
  {
    assert (p * (e * r)) * g == e * (r * (g * p));
  }

  lemma Regrouped(x: Positive, y: Positive, z: Positive)
    ensures Times(Times(x, y), z) == Times(x, Times(y, z)) == Times(Times(x, z), y)
  {
  }

  /** Over any span, however many splits and dividends fall inside it. */
  lemma {:induction false} AdjustedReturnOverSpan(w: seq<Session>, i: nat, j: nat)
    requires i <= j < |w|
    ensures AdjustedClose(w, j) == Times(AdjustedClose(w, i), Returns(w, i, j))
  {
    if i < j {
      AdjustedReturnOverSpan(w, i, j - 1);
      AdjustedReturn(w, j);
      Regrouped(AdjustedClose(w, i), Returns(w, i, j - 1), GrossReturn(w, j));
    }
  }

  lemma Reciprocals(x: Positive, y: Positive, r: Positive, v: Positive)
    requires Times(x, y) == 1.0 && Times(r, v) == 1.0
    ensures Times(Times(x, r), Times(y, v)) == 1.0
  {
    assert (x * r) * (y * v) == (x * y) * (r * v);
  }

  lemma RatiosReciprocal(s: Session)
    requires !s.action.CashDividend?
    ensures Times(PriceRatio(s), VolumeRatio(s)) == 1.0
  {
    if s.action.SplitShares? {
      Inverse(s.action.from, s.action.to);
    }
  }

  /** Without dividends, price times volume is preserved on every row. */
  lemma {:induction false} SplitOnlyReciprocal(w: seq<Session>, i: nat)
    requires i < |w| && DividendsAfter(w, i) == 0
    ensures Times(ExactPrice(w, i), ExactVolume(w, i)) == 1.0
    decreases |w| - i
  {
    if i < |w| - 1 {
      SplitOnlyReciprocal(w, i + 1);
      var s := w[i + 1];
      RatiosReciprocal(s);
      Reciprocals(ExactPrice(w, i + 1), ExactVolume(w, i + 1), PriceRatio(s), VolumeRatio(s));
    }
  }

  /** A newer session moves the anchor: every earlier factor is scaled by the same ratio, so no
      adjusted return inside the old window changes. */
  lemma {:induction false} NewAnchorScales(w: seq<Session>, s: Session, i: nat)
    requires i < |w|
    ensures ExactPrice(w + [s], i) == Times(ExactPrice(w, i), PriceRatio(s))
    ensures ExactVolume(w + [s], i) == Times(ExactVolume(w, i), VolumeRatio(s))
    decreases |w| - i
  {
    var v := w + [s];
    if i == |w| - 1 {
      assert v[i + 1] == s && ExactPrice(v, i + 1) == 1.0 && ExactVolume(v, i + 1) == 1.0;
    } else {
      NewAnchorScales(w, s, i + 1);
      assert v[i + 1] == w[i + 1];
      Regrouped(ExactPrice(w, i + 1), PriceRatio(s), PriceRatio(w[i + 1]));
      Regrouped(ExactVolume(w, i + 1), VolumeRatio(s), VolumeRatio(w[i + 1]));
    }
  }

  lemma {:induction false} ReturnsUnmoved(w: seq<Session>, s: Session, i: nat, j: nat)
    requires i <= j < |w|
    ensures Returns(w + [s], i, j) == Returns(w, i, j)
  {
    if i < j {
      ReturnsUnmoved(w, s, i, j - 1);
    }
  }
}
