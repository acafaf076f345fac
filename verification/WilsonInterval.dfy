/** The two-sided Wilson score interval, in exact reals. The normal quantile `z` and the square root are
    parameters: `root` is the nonnegative root of the radicand the source takes it of. */
module WilsonInterval {

  datatype Interval = Interval(low: real, high: real)

  /** The shared subexpressions of the formula. */
  function Proportion(k: nat, n: nat): real
    requires 0 < n
  {
    k as real / n as real
  }

  function Radicand(p: real, n: real, z: real): real
    requires 0.0 < n
  {
    p * (1.0 - p) / n + z * z / (4.0 * n * n)
  }

  predicate IsRoot(root: real, radicand: real) {
    0.0 <= root && root * root == radicand
  }

  function Center(p: real, n: real, z: real): real
    requires 0.0 < n
  {
    var z2 := z * z;
    assert 0.0 <= z2 && 0.0 <= z2 / n;
    (p + z2 / (2.0 * n)) / (1.0 + z2 / n)
  }

  function Margin(n: real, z: real, root: real): real
    requires 0.0 < n
  {
    var z2 := z * z;
    assert 0.0 <= z2 && 0.0 <= z2 / n;
    z * root / (1.0 + z2 / n)
  }

  function Wilson(k: nat, n: nat, z: real, root: real): Interval
    requires k <= n && 0 < n
  {
    var p := Proportion(k, n);
    var center, margin := Center(p, n as real, z), Margin(n as real, z, root);
    var low := if 0.0 < center - margin then center - margin else 0.0;
    var high := if center + margin < 1.0 then center + margin else 1.0;
    Interval(if k == 0 then 0.0 else low, if k == n then 1.0 else high)
  }

  /** How far the score test at `z` is from accepting the proportion `x`. */
  function Excess(p: real, n: real, z: real, x: real): real {
    n * ((x - p) * (x - p)) - z * z * (x * (1.0 - x))
  }

  /** The counts do not reject the proportion `x`: `n (x - p)^2 <= z^2 x (1 - x)`. */
  predicate Accepted(p: real, n: real, z: real, x: real) {
    Excess(p, n, z, x) <= 0.0
  }

  // ---- the bounds, multiplied out ----

  /** `w` is `z` squared, `a` is `n + w`; `c` and `m` are centre and margin times `a`. */
  ghost predicate Scaled(p: real, n: real, w: real, a: real, c: real, m: real) {
    && 0.0 < n && 0.0 <= w && 0.0 <= p <= 1.0 && 0.0 <= m
    && a == n + w
    && c == n * p + w / 2.0
    && m * m == w * (n * (p * (1.0 - p))) + w * w / 4.0
  }

  lemma Square(x: real)
    ensures 0.0 <= x * x
  {
  }

  lemma NonNegative(x: real, y: real)
    requires 0.0 <= x && 0.0 <= y
    ensures 0.0 <= x * y
  {
  }

  lemma Strict(x: real, y: real)
    requires 0.0 < x && 0.0 < y
    ensures 0.0 < x * y
  {
  }

  lemma PositiveSquare(x: real) returns (y: real)
    requires 0.0 < x
    ensures y == x * x && 0.0 < y
  {
    y := x * x;
    assert y / x == x;
  }

  lemma Over(x: real, y: real, d: real)
    requires 0.0 < d && x == y * d
    ensures x / d == y
  {
    assert (x / d) * d == x;
    assert (x / d - y) * d == 0.0;
  }

  lemma ScaledCenter(p: real, n: real, z: real)
    requires 0.0 < n
    ensures Center(p, n, z) * (n + z * z) == n * p + z * z / 2.0
  {
    var w := z * z;
    Square(z);
    var d, t := 1.0 + w / n, p + w / (2.0 * n);
    var h := w / (2.0 * n);
    assert h * (2.0 * n) == w && (w / n) * n == w;
    assert 0.0 <= w / n;
    assert n * d == n + w;
    assert n * h == w / 2.0;
    assert n * t == n * p + w / 2.0;
    assert (t / d) * d == t;
    assert (t / d) * (n * d) == n * ((t / d) * d);
  }

  lemma ScaledMargin(n: real, z: real, root: real)
    requires 0.0 < n
    ensures Margin(n, z, root) * (n + z * z) == n * (z * root)
  {
    var w := z * z;
    Square(z);
    var d, t := 1.0 + w / n, z * root;
    assert (w / n) * n == w;
    assert 0.0 <= w / n;
    assert n * d == n + w;
    assert (t / d) * d == t;
    assert (t / d) * (n * d) == n * ((t / d) * d);
  }

  lemma ScaledRadicand(p: real, n: real, z: real, root: real)
    requires 0.0 < n && root * root == Radicand(p, n, z)
    ensures (n * (z * root)) * (n * (z * root)) == (z * z) * (n * (p * (1.0 - p))) + (z * z) * (z * z) / 4.0
  {
    var w, v := z * z, p * (1.0 - p);
    var nn := PositiveSquare(n);
    var d := 4.0 * n * n;
    assert d == 4.0 * nn;
    var q, s := v / n, w / d;
    assert q * n == v && s * d == w;
    assert n * n * q == n * v;
    assert n * n * s == w / 4.0;
    var r := root * root;
    assert n * n * r == n * v + w / 4.0;
    assert (n * (z * root)) * (n * (z * root)) == w * (n * n * r);
    assert w * (n * v + w / 4.0) == w * (n * v) + w * w / 4.0;
  }

  /** `a` times the test polynomial is a difference of two squares. */
  lemma Discriminant(p: real, n: real, w: real, a: real, c: real, m: real, x: real)
    requires Scaled(p, n, w, a, c, m)
    ensures a * (n * ((x - p) * (x - p)) - w * (x * (1.0 - x))) == (a * x - c) * (a * x - c) - m * m
  {
    var xx, px, pp := x * x, p * x, p * p;
    assert n * ((x - p) * (x - p)) == n * xx - 2.0 * (n * px) + n * pp;
    assert w * (x * (1.0 - x)) == w * x - w * xx;
    var f := a * xx - (2.0 * (n * px) + w * x) + n * pp;
    assert n * ((x - p) * (x - p)) - w * (x * (1.0 - x)) == f;
    assert c * x == n * px + w * x / 2.0;
    assert f == a * xx - 2.0 * (c * x) + n * pp;
    assert a * f == (a * a) * xx - 2.0 * (a * (c * x)) + a * (n * pp);
    assert (a * x - c) * (a * x - c) == (a * a) * xx - 2.0 * (a * (c * x)) + c * c;
    CenterSquare(p, n, w, a, c, m);
  }

  lemma DiscriminantOf(p: real, n: real, z: real, a: real, c: real, m: real, x: real)
    requires Scaled(p, n, z * z, a, c, m)
    ensures a * Excess(p, n, z, x) == (a * x - c) * (a * x - c) - m * m
  {
    Discriminant(p, n, z * z, a, c, m, x);
  }

  lemma CenterSquare(p: real, n: real, w: real, a: real, c: real, m: real)
    requires Scaled(p, n, w, a, c, m)
    ensures c * c - m * m == a * (n * (p * p))
  {
    var np := n * p;
    assert c * c == np * np + w * np + w * w / 4.0;
    assert w * (n * (p * (1.0 - p))) == w * np - w * (n * (p * p));
    assert np * np == n * (n * (p * p));
  }

  /** Comparing squares is comparing magnitudes. */
  lemma Magnitude(y: real, m: real)
    requires 0.0 <= m
    ensures y * y <= m * m <==> -m <= y <= m
  {
    if -m <= y <= m {
      NonNegative(m - y, m + y);
      assert (m - y) * (m + y) == m * m - y * y;
    } else if m < y {
      var s, t := y - m, y + m;
      assert s * t == y * y - m * m;
      Strict(s, t);
    } else {
      var s, t := -y - m, m - y;
      assert s * t == y * y - m * m;
      Strict(s, t);
    }
  }

  lemma SignOf(a: real, f: real)
    requires 0.0 < a
    ensures a * f <= 0.0 <==> f <= 0.0
    ensures a * f == 0.0 <==> f == 0.0
  {
    if 0.0 < f {
      assert 0.0 < a * f;
    } else if f < 0.0 {
      assert a * f < 0.0;
    }
  }

  /** The unclamped bounds. */
  function RawLow(k: nat, n: nat, z: real, root: real): real
    requires 0 < n
  {
    Center(Proportion(k, n), n as real, z) - Margin(n as real, z, root)
  }

  function RawHigh(k: nat, n: nat, z: real, root: real): real
    requires 0 < n
  {
    Center(Proportion(k, n), n as real, z) + Margin(n as real, z, root)
  }

  predicate Valid(k: nat, n: nat, z: real, root: real) {
    k <= n && 0 < n && 0.0 <= z && IsRoot(root, Radicand(Proportion(k, n), n as real, z))
  }

  lemma ProportionBounds(k: nat, n: nat)
    requires k <= n && 0 < n
    ensures 0.0 <= Proportion(k, n) <= 1.0
    ensures Proportion(k, n) == 0.0 <==> k == 0
    ensures Proportion(k, n) == 1.0 <==> k == n
    ensures Proportion(n - k, n) == 1.0 - Proportion(k, n)
  {
    var p := Proportion(k, n);
    assert p * n as real == k as real;
    Over((n - k) as real, 1.0 - p, n as real);
  }

  lemma Scale(k: nat, n: nat, z: real, root: real) returns (a: real, c: real, m: real)
    requires Valid(k, n, z, root)
    ensures Scaled(Proportion(k, n), n as real, z * z, a, c, m)
    ensures RawLow(k, n, z, root) * a == c - m && RawHigh(k, n, z, root) * a == c + m
  {
    var p, w := Proportion(k, n), z * z;
    ProportionBounds(k, n);
    Square(z);
    NonNegative(z, root);
    NonNegative(n as real, z * root);
    a, c, m := n as real + w, n as real * p + w / 2.0, n as real * (z * root);
    ScaledCenter(p, n as real, z);
    ScaledMargin(n as real, z, root);
    ScaledRadicand(p, n as real, z, root);
    Distribute(Center(p, n as real, z), Margin(n as real, z, root), a);
  }

  lemma Distribute(x: real, y: real, a: real)
    ensures (x - y) * a == x * a - y * a && (x + y) * a == x * a + y * a
  {
  }

  lemma Compare(x: real, y: real, a: real)
    requires 0.0 < a
    ensures x <= y <==> x * a <= y * a
    ensures x == y <==> x * a == y * a
  {
    if x < y {
      assert 0.0 < (y - x) * a;
    } else if y < x {
      assert 0.0 < (x - y) * a;
    }
  }

  lemma Bracket(a: real, c: real, m: real, low: real, high: real, x: real, f: real)
    requires 0.0 < a && 0.0 <= m && low * a == c - m && high * a == c + m
    requires a * f == (a * x - c) * (a * x - c) - m * m
    ensures low <= x <= high <==> f <= 0.0
    ensures x == low || x == high ==> f == 0.0
  {
    var y := a * x - c;
    Magnitude(y, m);
    SignOf(a, f);
    Compare(low, x, a);
    Compare(x, high, a);
    assert x * a == y + c;
    if x == low || x == high {
      assert y == -m || y == m;
      assert y * y == m * m;
    }
  }

  /** Between the unclamped bounds lie exactly the accepted proportions, and the bounds themselves are
      the roots of the test's boundary. */
  lemma RawAcceptance(k: nat, n: nat, z: real, root: real, x: real)
    requires Valid(k, n, z, root)
    ensures RawLow(k, n, z, root) <= x <= RawHigh(k, n, z, root) <==> Excess(Proportion(k, n), n as real, z, x) <= 0.0
    ensures x == RawLow(k, n, z, root) || x == RawHigh(k, n, z, root) ==>
              Excess(Proportion(k, n), n as real, z, x) == 0.0
  {
    var p, w := Proportion(k, n), z * z;
    var a, c, m := Scale(k, n, z, root);
    var f := Excess(p, n as real, z, x);
    DiscriminantOf(p, n as real, z, a, c, m, x);
    Bracket(a, c, m, RawLow(k, n, z, root), RawHigh(k, n, z, root), x, f);
  }

  lemma AcceptsItself(p: real, n: real, z: real)
    requires 0.0 <= p <= 1.0
    ensures Accepted(p, n, z, p)
  {
    Square(z);
    NonNegative(p, 1.0 - p);
    NonNegative(z * z, p * (1.0 - p));
  }

  lemma RejectsOutside(p: real, n: real, z: real, x: real)
    requires 0.0 < n && 0.0 <= p <= 1.0 && (x < 0.0 || 1.0 < x)
    ensures !Accepted(p, n, z, x)
  {
    Square(z);
    if x < 0.0 {
      Strict(-x, 1.0 - x);
      assert (-x) * (1.0 - x) == -(x * (1.0 - x));
    } else {
      Strict(x, x - 1.0);
      assert x * (x - 1.0) == -(x * (1.0 - x));
    }
    var v := x * (1.0 - x);
    NonNegative(z * z, -v);
    assert (z * z) * (-v) == -((z * z) * v);
    var e := PositiveSquare(if x < p then p - x else x - p);
    assert e == (x - p) * (x - p);
    Strict(n, e);
    assert Excess(p, n, z, x) == n * e - (z * z) * v;
  }

  /** No clamp and no special case ever acts: the bounds are the unclamped ones. */
  lemma ClampsAreIdle(k: nat, n: nat, z: real, root: real)
    requires Valid(k, n, z, root)
    ensures Wilson(k, n, z, root) == Interval(RawLow(k, n, z, root), RawHigh(k, n, z, root))
    ensures 0.0 <= RawLow(k, n, z, root) <= Proportion(k, n) <= RawHigh(k, n, z, root) <= 1.0
  {
    var p := Proportion(k, n);
    var low, high := RawLow(k, n, z, root), RawHigh(k, n, z, root);
    ProportionBounds(k, n);
    AcceptsItself(p, n as real, z);
    RawAcceptance(k, n, z, root, p);
    RawAcceptance(k, n, z, root, low);
    RawAcceptance(k, n, z, root, high);
    if low < 0.0 {
      RejectsOutside(p, n as real, z, low);
    }
    if 1.0 < high {
      RejectsOutside(p, n as real, z, high);
    }
  }

  /** The interval is the set of proportions the score test accepts; its ends are the roots of
      `n (x - p)^2 == z^2 x (1 - x)`, and `0 <= low <= k/n <= high <= 1`. */
  lemma WilsonMeans(k: nat, n: nat, z: real, root: real, x: real)
    requires Valid(k, n, z, root)
    ensures var r := Wilson(k, n, z, root); var p := Proportion(k, n);
            && 0.0 <= r.low <= p <= r.high <= 1.0
            && Excess(p, n as real, z, r.low) == 0.0 == Excess(p, n as real, z, r.high)
            && (r.low <= x <= r.high <==> Accepted(p, n as real, z, x))
  {
    ClampsAreIdle(k, n, z, root);
    RawAcceptance(k, n, z, root, RawLow(k, n, z, root));
    RawAcceptance(k, n, z, root, RawHigh(k, n, z, root));
    RawAcceptance(k, n, z, root, x);
  }

  lemma AcceptedMirrors(p: real, n: real, z: real, x: real)
    ensures Accepted(p, n, z, x) <==> Accepted(1.0 - p, n, z, 1.0 - x)
  {
    assert (1.0 - x - (1.0 - p)) * (1.0 - x - (1.0 - p)) == (x - p) * (x - p);
    assert (1.0 - x) * (1.0 - (1.0 - x)) == x * (1.0 - x);
  }

  lemma SameRadicand(p: real, n: real, z: real)
    requires 0.0 < n
    ensures Radicand(1.0 - p, n, z) == Radicand(p, n, z)
  {
    assert (1.0 - p) * (1.0 - (1.0 - p)) == p * (1.0 - p);
  }

  /** Swapping successes and failures mirrors the interval. */
  lemma WilsonMirrors(k: nat, n: nat, z: real, root: real)
    requires Valid(k, n, z, root)
    ensures Valid(n - k, n, z, root)
    ensures var r := Wilson(k, n, z, root); Wilson(n - k, n, z, root) == Interval(1.0 - r.high, 1.0 - r.low)
  {
    ProportionBounds(k, n);
    SameRadicand(Proportion(k, n), n as real, z);
    var r, q := Wilson(k, n, z, root), Wilson(n - k, n, z, root);
    MirrorWithin(k, n, z, root, r.low);
    MirrorWithin(k, n, z, root, r.high);
    MirrorWithin(k, n, z, root, 1.0 - q.low);
    MirrorWithin(k, n, z, root, 1.0 - q.high);
    WilsonMeans(k, n, z, root, r.low);
    WilsonMeans(n - k, n, z, root, q.low);
  }

  lemma MirrorWithin(k: nat, n: nat, z: real, root: real, x: real)
    requires Valid(k, n, z, root) && Valid(n - k, n, z, root)
    ensures var r, q := Wilson(k, n, z, root), Wilson(n - k, n, z, root);
            r.low <= x <= r.high <==> q.low <= 1.0 - x <= q.high
  {
    WilsonMeans(k, n, z, root, x);
    WilsonMeans(n - k, n, z, root, 1.0 - x);
    ProportionBounds(k, n);
    AcceptedMirrors(Proportion(k, n), n as real, z, x);
  }

  lemma AcceptedGrows(p: real, n: real, z: real, y: real, x: real)
    requires 0.0 <= z <= y && 0.0 <= x <= 1.0 && Accepted(p, n, z, x)
    ensures Accepted(p, n, y, x)
  {
    NonNegative(y - z, y + z);
    assert (y - z) * (y + z) == y * y - z * z;
    NonNegative(x, 1.0 - x);
    NonNegative(y * y - z * z, x * (1.0 - x));
    assert (y * y - z * z) * (x * (1.0 - x)) == y * y * (x * (1.0 - x)) - z * z * (x * (1.0 - x));
  }

  /** A larger quantile gives a containing interval. */
  lemma WilsonWidens(k: nat, n: nat, z: real, root: real, y: real, wider: real)
    requires Valid(k, n, z, root) && Valid(k, n, y, wider) && z <= y
    ensures Wilson(k, n, y, wider).low <= Wilson(k, n, z, root).low
    ensures Wilson(k, n, z, root).high <= Wilson(k, n, y, wider).high
  {
    var r, p := Wilson(k, n, z, root), Proportion(k, n);
    WilsonMeans(k, n, z, root, r.low);
    WilsonMeans(k, n, z, root, r.high);
    AcceptedGrows(p, n as real, z, y, r.low);
    AcceptedGrows(p, n as real, z, y, r.high);
    WilsonMeans(k, n, y, wider, r.low);
    WilsonMeans(k, n, y, wider, r.high);
  }
}
