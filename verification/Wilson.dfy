/** The Wilson score interval of a pass count, in exact reals. */
module Wilson {
  import opened Wrappers

  const Z := 1.959963984540054

  /** A square root: of a number that is not negative, the one whose square it is. */
  ghost predicate IsRoot(sqrt: real -> real)
  {
    forall x: real :: x >= 0.0 ==> sqrt(x) >= 0.0 && sqrt(x) * sqrt(x) == x
  }

  datatype Interval = Interval(low: real, high: real)

  function Rate(passes: nat, n: nat): real
    requires n > 0
  {
    passes as real / n as real
  }

  function Denominator(z2: real, n: nat): (d: real)
    requires n > 0 && z2 > 0.0
    ensures d > 1.0
  {
    Quotient(z2, n as real);
    1.0 + z2 / n as real
  }

  function Centre(z2: real, passes: nat, n: nat): real
    requires n > 0 && z2 > 0.0
  {
    (Rate(passes, n) + z2 / (2.0 * n as real)) / Denominator(z2, n)
  }

  function Radicand(z2: real, passes: nat, n: nat): real
    requires n > 0
  {
    var p, m := Rate(passes, n), n as real;
    FourSquaresNotZero(m);
    p * (1.0 - p) / m + z2 / (4.0 * m * m)
  }

  function Half(z: real, z2: real, passes: nat, n: nat, sqrt: real -> real): real
    requires n > 0 && z2 > 0.0
  {
    z * sqrt(Radicand(z2, passes, n)) / Denominator(z2, n)
  }

  /** The bounds before they are clamped. */
  function Unclamped(z: real, z2: real, passes: nat, n: nat, sqrt: real -> real): Interval
    requires n > 0 && z2 > 0.0
  {
    Interval(
      Centre(z2, passes, n) - Half(z, z2, passes, n, sqrt), Centre(z2, passes, n) + Half(z, z2, passes, n, sqrt))
  }

  /** The interval, clamped to [0, 1]; none without a pass or fail. */
  function WilsonInterval(passes: nat, n: int, sqrt: real -> real): Option<Interval>
  {
    if n <= 0 then None
    else
      var i := Unclamped(Z, Z * Z, passes, n, sqrt);
      Some(Interval(if i.low > 0.0 then i.low else 0.0, if i.high < 1.0 then i.high else 1.0))
  }

  // ---- arithmetic ----

  lemma Quotient(a: real, b: real)
    requires a > 0.0 && b > 0.0
    ensures a / b > 0.0
  {
  }

  lemma Positive(x: real, y: real) returns (product: real)
    requires x > 0.0 && y > 0.0
    ensures product == x * y && product > 0.0
  {
    product := x * y;
  }

  lemma NonNegative(x: real, y: real) returns (product: real)
    requires x >= 0.0 && y >= 0.0
    ensures product == x * y && product >= 0.0
  {
    product := x * y;
  }

  lemma FourSquares(m: real) returns (m4: real)
    requires m > 0.0
    ensures m4 == 4.0 * m * m && m4 > 0.0
  {
    var mm := Positive(m, m);
    m4 := 4.0 * mm;
  }

  lemma FourSquaresNotZero(m: real)
    requires m > 0.0
    ensures 4.0 * m * m != 0.0
  {
  }

  lemma SquaresOrder(x: real, y: real, xx: real, yy: real)
    requires y >= 0.0 && xx == x * x && yy == y * y && xx <= yy
    ensures x <= y
  {
    assert (x - y) * (x + y) == xx - yy;
    if x > y { var _ := Positive(x - y, x + y); }
  }

  lemma DivideOrder(x: real, y: real, d: real, yd: real)
    requires d > 0.0 && yd == y * d
    ensures x <= yd ==> x / d <= y
    ensures yd <= x ==> y <= x / d
  {
  }

  /** With a the spread z*z/n, p the rate and t the half width before division, t stays under
      the centre, and covers the shift of the centre from the rate. */
  lemma SpreadBounds(p: real, a: real, t: real, q: real, tt: real)
    requires 0.0 <= p <= 1.0 && a > 0.0 && t >= 0.0
    requires q == p * (1.0 - p) && tt == t * t && tt == a * q + a * a / 4.0
    ensures t <= p + a / 2.0
    ensures a / 2.0 - a * p <= t
  {
    var u, v := p + a / 2.0, a / 2.0 - a * p;
    var pp := NonNegative(p, p);
    var q' := NonNegative(p, 1.0 - p);
    var app := NonNegative(a, pp);
    var aq := NonNegative(a, q);
    var aaq := NonNegative(a, aq);
    var uu, vv := u * u, v * v;
    assert uu == tt + pp + app;
    assert vv == tt - aq - aaq;
    SquaresOrder(t, u, tt, uu);
    SquaresOrder(v, t, vv, tt);
  }

  /** What the half width is the root of, times z. */
  lemma TimesRoot(z: real, z2: real, root: real, q: real, m: real, m4: real, tt: real)
    requires m > 0.0 && z2 == z * z && m4 == 4.0 * m * m && m4 > 0.0 && tt == (z * root) * (z * root)
    requires root * root == q / m + z2 / m4
    ensures var a := z2 / m; tt == a * q + a * a / 4.0
  {
  }

  // ---- the interval ----

  /** The rate p, the spread a, and the half width t before division. */
  ghost predicate Shape(p: real, a: real, t: real, i: Interval)
  {
    && 0.0 <= p <= 1.0 && a > 0.0 && t >= 0.0
    && t * t == a * (p * (1.0 - p)) + a * a / 4.0
    && i.low == (p + a / 2.0) / (1.0 + a) - t / (1.0 + a)
    && i.high == (p + a / 2.0) / (1.0 + a) + t / (1.0 + a)
  }

  lemma Unfolded(z: real, z2: real, passes: nat, n: nat, sqrt: real -> real) returns (a: real, t: real)
    requires 0 < n && passes <= n && z > 0.0 && z2 == z * z && z2 > 0.0 && IsRoot(sqrt)
    ensures Shape(Rate(passes, n), a, t, Unclamped(z, z2, passes, n, sqrt))
  {
    var m := n as real;
    var p := Rate(passes, n);
    a := z2 / m;
    RateBounds(passes, n);
    Quotient(z2, m);
    var q := NonNegative(p, 1.0 - p);
    var m4 := FourSquares(m);
    var x := RadicandIs(q, z2, m, m4);
    assert x == Radicand(z2, passes, n);
    var root := sqrt(x);
    t := NonNegative(z, root);
    TimesRoot(z, z2, root, q, m, m4, t * t);
    Halved(z2, m);
    HalfIs(z, z2, passes, n, sqrt, a, t);
    assert Centre(z2, passes, n) == (p + a / 2.0) / (1.0 + a);
  }

  lemma HalfIs(z: real, z2: real, passes: nat, n: nat, sqrt: real -> real, a: real, t: real)
    requires n > 0 && z2 > 0.0 && a == z2 / n as real && t == z * sqrt(Radicand(z2, passes, n))
    ensures Half(z, z2, passes, n, sqrt) == t / (1.0 + a)
  {
    hide Radicand;
  }

  lemma RateBounds(passes: nat, n: nat)
    requires 0 < n && passes <= n
    ensures 0.0 <= Rate(passes, n) <= 1.0
  {
  }

  lemma RadicandIs(q: real, z2: real, m: real, m4: real) returns (x: real)
    requires q >= 0.0 && z2 > 0.0 && m > 0.0 && m4 > 0.0
    ensures x == q / m + z2 / m4 && x >= 0.0
  {
    DivideOrder(q, 0.0, m, 0.0);
    Quotient(z2, m4);
    x := q / m + z2 / m4;
  }

  lemma Halved(w: real, m: real)
    requires m > 0.0
    ensures w / (2.0 * m) == w / m / 2.0
  {
  }

  /** The unclamped bounds stand either side of the rate and inside [0, 1]. */
  lemma ShapeBounds(p: real, a: real, t: real, i: Interval)
    requires Shape(p, a, t, i)
    ensures 0.0 <= i.low <= p <= i.high <= 1.0
  {
    var q := p * (1.0 - p);
    assert q == (1.0 - p) * (1.0 - (1.0 - p));
    SpreadBounds(p, a, t, q, t * t);
    SpreadBounds(1.0 - p, a, t, q, t * t);
    Bounds(p, a, t, i);
  }

  lemma Bounds(p: real, a: real, t: real, i: Interval)
    requires a > 0.0 && t <= p + a / 2.0 && a / 2.0 - a * p <= t
    requires t <= 1.0 - p + a / 2.0 && a / 2.0 - a * (1.0 - p) <= t
    requires i.low == (p + a / 2.0) / (1.0 + a) - t / (1.0 + a)
    requires i.high == (p + a / 2.0) / (1.0 + a) + t / (1.0 + a)
    ensures 0.0 <= i.low <= p <= i.high <= 1.0
  {
    Spread(p, a);
    Around(p, p + a * p, p + a / 2.0, t, 1.0 + a);
  }

  lemma Spread(p: real, a: real)
    ensures p * (1.0 + a) == p + a * p
    ensures a * (1.0 - p) == a - a * p
  {
  }

  /** Dividing keeps the order of a middle, its half width and a rate. */
  lemma Around(p: real, pd: real, middle: real, t: real, d: real)
    requires d > 0.0 && pd == p * d
    requires 0.0 <= middle - t <= pd <= middle + t <= d
    ensures 0.0 <= middle / d - t / d <= p <= middle / d + t / d <= 1.0
  {
    SameDivisor(middle, t, d);
    DivideOrder(middle - t, 0.0, d, 0.0);
    DivideOrder(middle - t, p, d, pd);
    DivideOrder(middle + t, p, d, pd);
    DivideOrder(middle + t, 1.0, d, d);
  }

  lemma SameDivisor(x: real, y: real, d: real)
    requires d > 0.0
    ensures x / d - y / d == (x - y) / d && x / d + y / d == (x + y) / d
  {
  }

  /** The bounds stand either side of the rate and inside [0, 1], so the clamps never act. */
  lemma IntervalHoldsTheRate(passes: nat, n: nat, sqrt: real -> real)
    requires 0 < n && passes <= n && IsRoot(sqrt)
    ensures WilsonInterval(passes, n, sqrt) == Some(Unclamped(Z, Z * Z, passes, n, sqrt))
    ensures var i := WilsonInterval(passes, n, sqrt).value;
            0.0 <= i.low <= Rate(passes, n) <= i.high <= 1.0
  {
    hide Unclamped;
    hide Rate;
    var a, t := Unfolded(Z, Z * Z, passes, n, sqrt);
    ShapeBounds(Rate(passes, n), a, t, Unclamped(Z, Z * Z, passes, n, sqrt));
  }

  /** Passes and fails of one case. */
  datatype Tally = Tally(passes: nat, fails: nat)

  predicate Beats(current: Tally, before: Tally, sqrt: real -> real)
  {
    var now := WilsonInterval(current.passes, current.passes + current.fails, sqrt);
    var was := WilsonInterval(before.passes, before.passes + before.fails, sqrt);
    now.Some? && was.Some? && now.value.low > was.value.high
  }

  /** To beat a baseline is to pass at a strictly higher rate, so two cases never beat each
      other. */
  lemma BeatingIsBetter(a: Tally, b: Tally, sqrt: real -> real)
    requires IsRoot(sqrt) && Beats(a, b, sqrt)
    ensures a.passes + a.fails > 0 && b.passes + b.fails > 0
    ensures Rate(a.passes, a.passes + a.fails) > Rate(b.passes, b.passes + b.fails)
    ensures !Beats(b, a, sqrt)
  {
    hide Unclamped;
    hide Rate;
    IntervalHoldsTheRate(a.passes, a.passes + a.fails, sqrt);
    IntervalHoldsTheRate(b.passes, b.passes + b.fails, sqrt);
  }
}
