/** The clamped closest-point computation between two segments, and between a point and a segment. */
module SegmentDistances {
  import opened Capsules
  import opened Geometry

  const SMALL_VALUE := 0.000001

  function Abs(x: real): (r: real)
    ensures r >= 0.0
  {
    if x < 0.0 then -x else x
  }

  /** Numerators and denominators of the two parameters. */
  datatype Fractions = Fractions(sN: real, sD: real, tN: real, tD: real) {
    /** Both parameters lie in [0, 1] as fractions, so that only a zero numerator allows a zero denominator. */
    predicate InRange() { 0.0 <= sN <= sD && 0.0 <= tN <= tD }

    /** A numerator is neither zero nor large enough to be divided. */
    predicate Snapped() {
      (sN != 0.0 && Abs(sN) < SMALL_VALUE) || (tN != 0.0 && Abs(tN) < SMALL_VALUE)
    }
  }

  /** Inner products of u, v (the segments' directions) and w (from the second head to the first). */
  datatype Products = Products(a: real, b: real, c: real, d: real, e: real) {
    function Determinant(): real { a * c - b * b }

    /** What holds of the inner products of any vectors. */
    predicate Gram() {
      && a >= 0.0 && c >= 0.0 && Determinant() >= 0.0
      && (a == 0.0 ==> b == 0.0 && d == 0.0)
      && (c == 0.0 ==> b == 0.0 && e == 0.0)
      && (Determinant() == 0.0 ==> a * e == b * d && c * d == b * e)
    }

    /** The fractions before the second parameter is clamped. */
    function Initial(): Fractions {
      var det := Determinant();
      if det < SMALL_VALUE then Fractions(0.0, 1.0, e, c)
      else
        var sN := b * e - c * d;
        if sN < 0.0 then Fractions(0.0, det, e, c)
        else if sN > det then Fractions(det, det, e + b, c)
        else Fractions(sN, det, a * e - b * d, det)
    }

    /** Re-clamps the first parameter for a second one fixed where its numerator is `n`. */
    function Reclamped(f: Fractions, n: real): Fractions {
      if n < 0.0 then f.(sN := 0.0)
      else if n > a then f.(sN := f.sD)
      else f.(sN := n, sD := a)
    }

    function Clamped(): Fractions {
      var f := Initial();
      if f.tN < 0.0 then Reclamped(f.(tN := 0.0), -d)
      else if f.tN > f.tD then Reclamped(f.(tN := f.tD), -d + b)
      else f
    }

    function SlopeS(s: real, t: real): real { a * s - b * t + d }
    function SlopeT(s: real, t: real): real { c * t - b * s - e }

    function Value(s: real, t: real): real { Quadratic(a, b, c, d, e, 0.0, s, t) }

    /** No point of the unit square gives a smaller value. */
    ghost predicate Minimal(s: real, t: real) {
      forall x, y :: InUnit(x) && InUnit(y) ==> Value(s, t) <= Value(x, y)
    }

    /** The second segment is not a point, and the determinant is zero, or not tiny, or the closest point
        of the first segment's line is not past its head. */
    predicate Decided() {
      c > 0.0 && (Determinant() == 0.0 || Determinant() >= SMALL_VALUE || b * e <= c * d)
    }

    /** The rest, a tiny determinant with the closest point of the first segment's line past its head: the first
        parameter is then taken to be zero, which the clamping of the second may yet correct. */
    predicate Undecided() {
      c > 0.0 && 0.0 < Determinant() < SMALL_VALUE && b * e > c * d
    }

    /** The first parameter re-clamped for the second at `t` is not snapped, and the slope there is `up` or zero. */
    predicate LeadsOutside(t: real, up: bool) {
      var n := b * t - d;
      && !(0.0 < n < SMALL_VALUE && n <= a)
      && (n < 0.0 || (
            var slope := if n > a then c * t - b - e else a * (c * t - e) - b * n;
            if up then slope >= 0.0 else slope <= 0.0))
    }

    /** When it does: the second parameter is clamped to an end from which the slope leads outside; or it is clamped
        to one, snapped back to zero, and both slopes lead outside there. */
    predicate Corrected() {
      || (e < 0.0 && LeadsOutside(0.0, true))
      || (e > c >= SMALL_VALUE && LeadsOutside(1.0, false))
      || (e > c && c < SMALL_VALUE && (b - d > a || b - d == a >= SMALL_VALUE) && a + d <= 0.0 && b + e <= 0.0)
    }

    /** The cases in which the first parameter, taken alone, is chosen as in exact arithmetic. */
    predicate Resolved() {
      c > 0.0 && (Determinant() >= SMALL_VALUE || b * e <= c * d)
    }
  }

  function Ratio(n: real, d: real): real
    requires 0.0 <= n <= d
  {
    if Abs(n) < SMALL_VALUE then 0.0 else n / d
  }

  /** The ratio without the snapping of small numerators. */
  function ExactRatio(n: real, d: real): real
    requires 0.0 <= n <= d
  {
    if n == 0.0 then 0.0 else n / d
  }

  lemma RatioFacts(n: real, d: real)
    requires 0.0 <= n <= d
    ensures InUnit(Ratio(n, d)) && InUnit(ExactRatio(n, d))
    ensures n == 0.0 || n >= SMALL_VALUE ==> Ratio(n, d) == ExactRatio(n, d)
    ensures 0.0 < n < SMALL_VALUE ==> Ratio(n, d) == 0.0 < ExactRatio(n, d)
    ensures ExactRatio(n, d) * d == n
    ensures n < d ==> ExactRatio(n, d) < 1.0
    ensures n == d && d > 0.0 ==> ExactRatio(n, d) == 1.0
  {
    if n > 0.0 {
      var q := n / d;
      assert Product(d, q) == n && Product(d, q - 1.0) == n - d;
      ProductSign(d, q);
      ProductSign(d, q - 1.0);
    }
  }

  lemma ClampedInRange(p: Products)
    requires p.Gram()
    ensures p.Clamped().InRange()
  {
  }

  /** No slope lets the value decrease while staying in the unit square. */
  predicate Stationary(p: Products, s: real, t: real) {
    SlopeFits(p.SlopeS(s, t), s) && SlopeFits(p.SlopeT(s, t), t)
  }

  predicate SlopeFits(g: real, s: real) {
    (s < 1.0 ==> g >= 0.0) && (s > 0.0 ==> g <= 0.0)
  }

  lemma VariationNonNegative(g: real, s: real, x: real)
    requires InUnit(s) && InUnit(x) && SlopeFits(g, s)
    ensures Product(g, x - s) >= 0.0
  {
    if x > s { ProductNonNegative(g, x - s); }
    else if x < s {
      ProductNonNegative(-g, s - x);
      assert Product(g, x - s) == Product(-g, s - x);
    } else { assert Product(g, x - s) == g * 0.0; }
  }

  lemma ValueDifference(p: Products, s: real, t: real, x: real, y: real)
    ensures p.Value(x, y) - p.Value(s, t) ==
            2.0 * Product(p.SlopeS(s, t), x - s) + 2.0 * Product(p.SlopeT(s, t), y - t) +
            Form(p.a, p.b, p.c, x - s, y - t)
  {
  }

  lemma StationaryIsMinimal(p: Products, s: real, t: real)
    requires p.Gram() && InUnit(s) && InUnit(t) && Stationary(p, s, t)
    ensures p.Minimal(s, t)
  {
    forall x, y | InUnit(x) && InUnit(y) ensures p.Value(s, t) <= p.Value(x, y) {
      VariationNonNegative(p.SlopeS(s, t), s, x);
      VariationNonNegative(p.SlopeT(s, t), t, y);
      FormNonNegative(p.a, p.b, p.c, x - s, y - t);
      ValueDifference(p, s, t, x, y);
    }
  }

  lemma Distributes(k: real, x: real, y: real)
    ensures Product(k, x - y) == Product(k, x) - Product(k, y)
  {
  }

  function Change(g: real, k: real, h: real): real {
    2.0 * Product(g, h) + Product(k, Square(h))
  }

  /** A step, no longer than `room`, along which a value with negative slope decreases. */
  lemma DescentStep(g: real, k: real, room: real) returns (h: real)
    requires g < 0.0 && k >= 0.0 && room > 0.0
    ensures 0.0 < h <= room && Change(g, k, h) < 0.0
  {
    var q := -g / (k + 1.0);
    assert Product(k + 1.0, q) == -g && Product(k + 1.0, q) == Product(k, q) + q;
    ProductSign(k + 1.0, q);
    h := if q < room then q else room;
    ProductNonNegative(k, q - h);
    Distributes(k, q, h);
    ProductSign(h, 2.0 * g + Product(k, h));
    StepValue(g, k, h);
  }

  lemma StepValue(g: real, k: real, h: real)
    ensures Product(h, 2.0 * g + Product(k, h)) == 2.0 * Product(g, h) + Product(k, Square(h))
  {
  }

  lemma ChangeReversed(g: real, k: real, h: real)
    ensures Change(-g, k, h) == Change(g, k, -h)
  {
    assert Product(-g, h) == Product(g, -h) && Square(h) == Square(-h);
  }

  lemma Descent(g: real, k: real, s: real) returns (h: real)
    requires k >= 0.0 && InUnit(s) && !SlopeFits(g, s)
    ensures InUnit(s + h) && Change(g, k, h) < 0.0
  {
    if s < 1.0 && g < 0.0 {
      h := DescentStep(g, k, 1.0 - s);
    } else {
      var back := DescentStep(-g, k, s);
      ChangeReversed(g, k, back);
      h := -back;
    }
  }

  lemma MinimalIsStationary(p: Products, s: real, t: real)
    requires p.Gram() && InUnit(s) && InUnit(t) && p.Minimal(s, t)
    ensures Stationary(p, s, t)
  {
    if !SlopeFits(p.SlopeS(s, t), s) {
      var h := Descent(p.SlopeS(s, t), p.a, s);
      StepInS(p, s, t, h);
    }
    if !SlopeFits(p.SlopeT(s, t), t) {
      var h := Descent(p.SlopeT(s, t), p.c, t);
      StepInT(p, s, t, h);
    }
  }

  lemma StepInS(p: Products, s: real, t: real, h: real)
    requires p.Minimal(s, t) && InUnit(s + h) && InUnit(t)
    ensures Change(p.SlopeS(s, t), p.a, h) >= 0.0
  {
    assert p.Value(s, t) <= p.Value(s + h, t);
    ValueStep(p, s, t, h, 0.0);
    FormOnAxes(p, h);
  }

  lemma StepInT(p: Products, s: real, t: real, h: real)
    requires p.Minimal(s, t) && InUnit(s) && InUnit(t + h)
    ensures Change(p.SlopeT(s, t), p.c, h) >= 0.0
  {
    assert p.Value(s, t) <= p.Value(s, t + h);
    ValueStep(p, s, t, 0.0, h);
    FormOnAxes(p, h);
  }

  lemma ValueStep(p: Products, s: real, t: real, x: real, y: real)
    ensures p.Value(s + x, t + y) == p.Value(s, t) + 2.0 * Product(p.SlopeS(s, t), x) +
            2.0 * Product(p.SlopeT(s, t), y) + Form(p.a, p.b, p.c, x, y)
  {
    hide *;
    ValueDifference(p, s, t, s + x, t + y);
    assert s + x - s == x && t + y - t == y;
  }

  lemma FormOnAxes(p: Products, x: real)
    ensures Form(p.a, p.b, p.c, x, 0.0) == Product(p.a, Square(x))
    ensures Form(p.a, p.b, p.c, 0.0, x) == Product(p.c, Square(x))
  {
  }

  lemma RatioOf(n: real, d: real) returns (q: real)
    requires d > 0.0
    ensures q == n / d && Product(d, q) == n
  {
    q := n / d;
  }

  /** Before clamping, the parameters minimise the value over the strip 0 <= s <= 1. */
  lemma InitialOptimal(p: Products) returns (s: real, t: real)
    requires p.Gram() && p.Resolved()
    ensures var f := p.Initial();
            && 0.0 <= f.sN <= f.sD && f.sD > 0.0 && s == ExactRatio(f.sN, f.sD)
            && f.tD > 0.0 && Product(f.tD, t) == f.tN
            && InUnit(s) && SlopeFits(p.SlopeS(s, t), s) && p.SlopeT(s, t) == 0.0
  {
    var f := p.Initial();
    RatioFacts(f.sN, f.sD);
    s := ExactRatio(f.sN, f.sD);
    t := RatioOf(f.tN, f.tD);
    var sN := p.b * p.e - p.c * p.d;
    if p.Determinant() < SMALL_VALUE || sN < 0.0 {
      FirstEdgeOptimal(p, t);
    } else if sN > p.Determinant() {
      SecondEdgeOptimal(p, t);
    } else {
      InteriorOptimal(p, s, t);
    }
  }

  lemma FirstEdgeOptimal(p: Products, t: real)
    requires p.c > 0.0 && p.b * p.e - p.c * p.d <= 0.0 && Product(p.c, t) == p.e
    ensures p.SlopeS(0.0, t) >= 0.0 && p.SlopeT(0.0, t) == 0.0
  {
    assert Product(p.c, p.SlopeS(0.0, t)) == p.c * p.d - p.b * Product(p.c, t);
    ProductSign(p.c, p.SlopeS(0.0, t));
  }

  lemma SecondEdgeOptimal(p: Products, t: real)
    requires p.c > 0.0 && p.b * p.e - p.c * p.d > p.Determinant() && Product(p.c, t) == p.e + p.b
    ensures p.SlopeS(1.0, t) <= 0.0 && p.SlopeT(1.0, t) == 0.0
  {
    assert Product(p.c, p.SlopeS(1.0, t)) == p.c * p.a + p.c * p.d - p.b * Product(p.c, t);
    ProductSign(p.c, p.SlopeS(1.0, t));
  }

  lemma InteriorOptimal(p: Products, s: real, t: real)
    requires p.Determinant() > 0.0
    requires p.Determinant() * s == p.b * p.e - p.c * p.d && p.Determinant() * t == p.a * p.e - p.b * p.d
    ensures p.SlopeS(s, t) == 0.0 && p.SlopeT(s, t) == 0.0
  {
    var det := p.Determinant();
    ProductSign(det, p.SlopeS(s, t));
    ProductSign(det, p.SlopeT(s, t));
    assert Product(det, p.SlopeS(s, t)) == p.a * (det * s) - p.b * (det * t) + det * p.d;
    assert Product(det, p.SlopeT(s, t)) == p.c * (det * t) - p.b * (det * s) - det * p.e;
  }

  /** For a second parameter fixed at 0 or 1, re-clamping makes the first one optimal. */
  lemma ReclampedOptimal(p: Products, f: Fractions, t: real, n: real) returns (s: real)
    requires p.Gram() && 0.0 <= f.sN <= f.sD && f.sD > 0.0 && n == p.b * t - p.d && (p.a == 0.0 ==> n == 0.0)
    ensures var g := p.Reclamped(f, n);
            && 0.0 <= g.sN <= g.sD && g.tN == f.tN && g.tD == f.tD
            && s == ExactRatio(g.sN, g.sD) && InUnit(s) && SlopeFits(p.SlopeS(s, t), s)
  {
    var g := p.Reclamped(f, n);
    RatioFacts(g.sN, g.sD);
    s := ExactRatio(g.sN, g.sD);
  }

  /** When the strip's optimum lies outside the unit interval, clamping the second parameter and re-clamping
      the first leaves a slope that only leads back outside: the slopes of a convex function are monotone. */
  lemma ClampKeepsSlope(p: Products, s0: real, t0: real, s1: real, t1: real)
    requires p.Gram() && InUnit(s0) && InUnit(s1)
    requires SlopeFits(p.SlopeS(s0, t0), s0) && p.SlopeT(s0, t0) == 0.0 && SlopeFits(p.SlopeS(s1, t1), s1)
    ensures Product(p.SlopeT(s1, t1), t1 - t0) >= 0.0
  {
    VariationNonNegative(p.SlopeS(s0, t0), s0, s1);
    VariationNonNegative(p.SlopeS(s1, t1), s1, s0);
    FormNonNegative(p.a, p.b, p.c, s1 - s0, t1 - t0);
    SlopesMonotone(p, s0, t0, s1, t1);
  }

  lemma SlopesMonotone(p: Products, s0: real, t0: real, s1: real, t1: real)
    ensures Form(p.a, p.b, p.c, s1 - s0, t1 - t0) ==
            Product(p.SlopeT(s1, t1), t1 - t0) - Product(p.SlopeT(s0, t0), t1 - t0) -
            Product(p.SlopeS(s1, t1), s0 - s1) - Product(p.SlopeS(s0, t0), s1 - s0)
    ensures Product(0.0, t1 - t0) == 0.0
  {
  }

  /** The parameters as computed, but for the snapping. */
  function ExactParameters(p: Products): (real, real)
    requires p.Clamped().InRange()
  {
    (ExactRatio(p.Clamped().sN, p.Clamped().sD), ExactRatio(p.Clamped().tN, p.Clamped().tD))
  }

  lemma ClampedStationary(p: Products)
    requires p.Gram() && p.Resolved()
    ensures p.Clamped().InRange()
    ensures Stationary(p, ExactParameters(p).0, ExactParameters(p).1)
  {
    ClampedInRange(p);
    var f := p.Initial();
    var s0, t0 := InitialOptimal(p);
    if f.tN < 0.0 {
      ClampedAtZero(p, s0, t0);
    } else if f.tN > f.tD {
      ClampedAtOne(p, s0, t0);
    } else {
      RatioFacts(f.tN, f.tD);
      SameRatio(f.tN, f.tD, t0);
    }
  }

  lemma ClampedAtZero(p: Products, s0: real, t0: real)
    requires p.Gram() && p.Clamped().InRange()
    requires var f := p.Initial();
             0.0 <= f.sN <= f.sD && f.sD > 0.0 && f.tD > 0.0 && f.tN < 0.0 && Product(f.tD, t0) == f.tN
    requires InUnit(s0) && SlopeFits(p.SlopeS(s0, t0), s0) && p.SlopeT(s0, t0) == 0.0
    ensures Stationary(p, ExactParameters(p).0, ExactParameters(p).1)
  {
    var f := p.Initial();
    ProductSign(f.tD, t0);
    var s1 := ReclampedOptimal(p, f.(tN := 0.0), 0.0, -p.d);
    ClampKeepsSlope(p, s0, t0, s1, 0.0);
    SlopeSign(p.SlopeT(s1, 0.0), 0.0 - t0);
  }

  lemma ClampedAtOne(p: Products, s0: real, t0: real)
    requires p.Gram() && p.Clamped().InRange()
    requires var f := p.Initial(); 0.0 <= f.sN <= f.sD && f.sD > 0.0 && f.tN > f.tD > 0.0 && Product(f.tD, t0) == f.tN
    requires InUnit(s0) && SlopeFits(p.SlopeS(s0, t0), s0) && p.SlopeT(s0, t0) == 0.0
    ensures Stationary(p, ExactParameters(p).0, ExactParameters(p).1)
  {
    var f := p.Initial();
    AboveOne(f.tD, t0);
    RatioFacts(f.tD, f.tD);
    var s1 := ReclampedOptimal(p, f.(tN := f.tD), 1.0, -p.d + p.b);
    ClampKeepsSlope(p, s0, t0, s1, 1.0);
    Negated(p.SlopeT(s1, 1.0), 1.0 - t0);
    SlopeSign(-p.SlopeT(s1, 1.0), t0 - 1.0);
  }

  lemma AboveOne(d: real, q: real)
    requires d > 0.0 && Product(d, q) > d
    ensures q > 1.0
  {
    assert Product(d, q - 1.0) == Product(d, q) - d;
    ProductSign(d, q - 1.0);
  }

  lemma Negated(g: real, y: real)
    ensures Product(-g, -y) == Product(g, y)
  {
  }

  lemma SlopeSign(g: real, y: real)
    requires y > 0.0 && Product(g, y) >= 0.0
    ensures g >= 0.0
  {
    assert Product(g, y) == Product(y, g);
    ProductSign(y, g);
  }

  lemma SameRatio(n: real, d: real, q: real)
    requires 0.0 <= n <= d && d > 0.0 && Product(d, q) == n
    ensures q == ExactRatio(n, d)
  {
    ProductSign(d, q - ExactRatio(n, d));
    RatioFacts(n, d);
    Distributes(d, q, ExactRatio(n, d));
  }

  /** The parameters as computed: small numerators count as zero. */
  function Parameters(p: Products): (real, real)
    requires p.Clamped().InRange()
  {
    (Ratio(p.Clamped().sN, p.Clamped().sD), Ratio(p.Clamped().tN, p.Clamped().tD))
  }

  /** Moving one parameter of a stationary point to zero leaves a negative slope there. */
  lemma SnappingFirst(p: Products, s: real, t: real)
    requires Stationary(p, s, t) && s > 0.0 && p.a > 0.0
    ensures !Stationary(p, 0.0, t)
  {
    ProductPositive(p.a, s);
    assert p.SlopeS(0.0, t) == p.SlopeS(s, t) - Product(p.a, s);
  }

  lemma SnappingSecond(p: Products, s: real, t: real)
    requires Stationary(p, s, t) && t > 0.0 && p.c > 0.0
    ensures !Stationary(p, s, 0.0)
  {
    ProductPositive(p.c, t);
    assert p.SlopeT(s, 0.0) == p.SlopeT(s, t) - Product(p.c, t);
  }

  lemma SnappedNotStationary(p: Products)
    requires p.Gram() && p.Resolved() && p.Clamped().InRange() && p.Clamped().Snapped()
    ensures !Stationary(p, Parameters(p).0, Parameters(p).1)
  {
    var f := p.Clamped();
    var s, t := ExactRatio(f.sN, f.sD), ExactRatio(f.tN, f.tD);
    ClampedStationary(p);
    RatioFacts(f.sN, f.sD);
    RatioFacts(f.tN, f.tD);
    var firstSnapped, secondSnapped := 0.0 < f.sN < SMALL_VALUE, 0.0 < f.tN < SMALL_VALUE;
    if firstSnapped { FirstLengthPositive(p); }
    if firstSnapped && secondSnapped {
      BothSnapped(p, s, t);
    } else if firstSnapped {
      SnappingFirst(p, s, t);
    } else {
      SnappingSecond(p, s, t);
    }
  }

  lemma FirstLengthPositive(p: Products)
    requires p.Gram() && p.Clamped().sN > 0.0
    ensures p.a > 0.0
  {
  }

  lemma BothSnapped(p: Products, s: real, t: real)
    requires p.Gram() && p.Resolved() && p.a > 0.0 && Stationary(p, s, t)
    requires 0.0 < s <= 1.0 && 0.0 < t <= 1.0 && p.Clamped().sN > 0.0 && p.Clamped().tN > 0.0
    ensures !Stationary(p, 0.0, 0.0)
  {
    if p.Determinant() >= SMALL_VALUE {
      StationaryUnique(p, s, t);
    } else {
      assert p.e > p.c;
    }
  }

  /** With a positive determinant the value is strictly convex. */
  lemma StationaryUnique(p: Products, s: real, t: real)
    requires p.Gram() && p.Determinant() > 0.0 && p.a > 0.0
    requires 0.0 < s <= 1.0 && 0.0 < t <= 1.0 && Stationary(p, s, t)
    ensures !Stationary(p, 0.0, 0.0)
  {
    VariationNonNegative(p.SlopeS(s, t), s, 0.0);
    VariationNonNegative(p.SlopeT(s, t), t, 0.0);
    SlopesMonotone(p, 0.0, 0.0, s, t);
    assert Product(p.SlopeT(s, t), t - 0.0) == -Product(p.SlopeT(s, t), 0.0 - t);
    FormPositive(p, s, t);
    if Stationary(p, 0.0, 0.0) {
      VariationNonNegative(p.SlopeS(0.0, 0.0), 0.0, s);
      VariationNonNegative(p.SlopeT(0.0, 0.0), 0.0, t);
    }
  }

  lemma FormPositive(p: Products, x: real, y: real)
    requires p.Determinant() > 0.0 && p.a > 0.0 && y > 0.0
    ensures Form(p.a, p.b, p.c, x, y) > 0.0
  {
    SquareNonNegative(p.a * x - p.b * y);
    SquareNonNegative(y);
    CompleteSquare(p.a, p.b, p.c, x, y);
    ProductPositive(p.Determinant(), Square(y));
    ProductSign(p.a, Form(p.a, p.b, p.c, x, y));
  }

  /** The computed parameters are the closest ones exactly when neither numerator was snapped. */
  lemma ParametersExact(p: Products)
    requires p.Gram() && p.Resolved()
    ensures p.Clamped().InRange() && InUnit(Parameters(p).0) && InUnit(Parameters(p).1)
    ensures p.Minimal(Parameters(p).0, Parameters(p).1) <==> !p.Clamped().Snapped()
  {
    ClampedInRange(p);
    var f := p.Clamped();
    RatioFacts(f.sN, f.sD);
    RatioFacts(f.tN, f.tD);
    if f.Snapped() {
      SnappedNotStationary(p);
      if p.Minimal(Parameters(p).0, Parameters(p).1) { MinimalIsStationary(p, Parameters(p).0, Parameters(p).1); }
    } else {
      ClampedStationary(p);
      StationaryIsMinimal(p, Parameters(p).0, Parameters(p).1);
    }
  }

  /** When the second segment is a point the first one's head is taken, whatever is closest. */
  lemma PointSecondExact(p: Products)
    requires p.Gram() && p.c == 0.0
    ensures p.Clamped().InRange() && Parameters(p) == (0.0, 0.0)
    ensures p.Minimal(0.0, 0.0) <==> p.d >= 0.0
  {
    ClampedInRange(p);
    assert p.b == 0.0 && p.e == 0.0;
    if p.d >= 0.0 { StationaryIsMinimal(p, 0.0, 0.0); }
    if p.Minimal(0.0, 0.0) { MinimalIsStationary(p, 0.0, 0.0); }
  }

  lemma MinimalIffStationary(p: Products, s: real, t: real)
    requires p.Gram() && InUnit(s) && InUnit(t)
    ensures p.Minimal(s, t) <==> Stationary(p, s, t)
  {
    if p.Minimal(s, t) { MinimalIsStationary(p, s, t); }
    if Stationary(p, s, t) { StationaryIsMinimal(p, s, t); }
  }

  /** With a tiny determinant, the computed parameters are the closest ones exactly when the clamping has
      corrected the first. */
  lemma UndecidedExact(p: Products)
    requires p.Gram() && p.Undecided()
    ensures p.Clamped().InRange()
    ensures p.Minimal(Parameters(p).0, Parameters(p).1) <==> p.Corrected()
  {
    ClampedInRange(p);
    var f := p.Clamped();
    RatioFacts(f.sN, f.sD);
    RatioFacts(f.tN, f.tD);
    var s, t := Parameters(p).0, Parameters(p).1;
    MinimalIffStationary(p, s, t);
    if p.e < 0.0 {
      UndecidedAtZero(p, s);
    } else if p.e > p.c {
      if p.c >= SMALL_VALUE { UndecidedAtOne(p, s); } else { UndecidedSnapped(p, s); }
    } else {
      UndecidedBetween(p, t);
    }
  }

  lemma UndecidedBetween(p: Products, t: real)
    requires p.Gram() && p.Undecided() && 0.0 <= p.e <= p.c && t == Ratio(p.e, p.c)
    ensures !Stationary(p, 0.0, t)
  {
    RatioFacts(p.e, p.c);
    if p.e == 0.0 || p.e >= SMALL_VALUE {
      assert Product(p.c, p.SlopeS(0.0, t)) == p.c * p.d - p.b * Product(p.c, t);
      ProductSign(p.c, p.SlopeS(0.0, t));
    } else {
      assert p.SlopeT(0.0, 0.0) == -p.e;
    }
  }

  lemma SlopeOf(a: real, g: real)
    requires a > 0.0
    ensures Product(a, g) >= 0.0 <==> g >= 0.0
    ensures Product(a, g) <= 0.0 <==> g <= 0.0
  {
    ProductSign(a, g);
  }

  /** On an edge, re-clamping is right for the first parameter unless it is snapped; the second is right if its
      slope leads outside. */
  lemma OnEdge(p: Products, t: real, s: real)
    requires p.a > 0.0 && (t == 0.0 || t == 1.0)
    requires var f := p.Reclamped(Fractions(0.0, 1.0, 0.0, 1.0), p.b * t - p.d);
             0.0 <= f.sN <= f.sD && s == Ratio(f.sN, f.sD)
    requires if t == 0.0 then p.e < 0.0 else p.e > p.c
    ensures Stationary(p, s, t) <==> p.LeadsOutside(t, t == 0.0)
  {
    var n := p.b * t - p.d;
    if n < 0.0 {
      RatioFacts(0.0, 1.0);
      hide Stationary, Products.LeadsOutside;
      FirstEnd(p, t, n);
    } else if n > p.a {
      RatioFacts(1.0, 1.0);
      hide Stationary, Products.LeadsOutside;
      SecondEnd(p, t, n);
    } else {
      RatioFacts(n, p.a);
      hide Stationary, Products.LeadsOutside, Ratio, ExactRatio;
      if n == 0.0 || n >= SMALL_VALUE {
        Inside(p, t, s, n);
      } else {
        SnappedToHead(p, t, n);
      }
    }
  }

  lemma FirstEnd(p: Products, t: real, n: real)
    requires n == p.b * t - p.d < 0.0 && (t == 0.0 || t == 1.0) && if t == 0.0 then p.e < 0.0 else p.e > p.c
    ensures Stationary(p, 0.0, t) && p.LeadsOutside(t, t == 0.0)
  {
    assert p.SlopeS(0.0, t) == -n && p.SlopeT(0.0, t) == p.c * t - p.e;
  }

  lemma SecondEnd(p: Products, t: real, n: real)
    requires n == p.b * t - p.d > p.a > 0.0 && (t == 0.0 || t == 1.0)
    ensures Stationary(p, 1.0, t) <==> p.LeadsOutside(t, t == 0.0)
  {
    assert p.SlopeS(1.0, t) == p.a - n && p.SlopeT(1.0, t) == p.c * t - p.b - p.e;
  }

  lemma Inside(p: Products, t: real, s: real, n: real)
    requires p.a > 0.0 && Product(p.a, s) == n == p.b * t - p.d && 0.0 <= n <= p.a && (n == 0.0 || n >= SMALL_VALUE)
    requires t == 0.0 || t == 1.0
    ensures Stationary(p, s, t) <==> p.LeadsOutside(t, t == 0.0)
  {
    InnerSlope(p, t, s, n);
  }

  lemma SnappedToHead(p: Products, t: real, n: real)
    requires n == p.b * t - p.d && 0.0 < n < SMALL_VALUE && n <= p.a
    ensures !Stationary(p, 0.0, t) && !p.LeadsOutside(t, t == 0.0)
  {
    assert p.SlopeS(0.0, t) == -n;
  }

  lemma InnerSlope(p: Products, t: real, s: real, n: real)
    requires p.a > 0.0 && Product(p.a, s) == n == p.b * t - p.d
    ensures p.SlopeS(s, t) == 0.0
    ensures p.SlopeT(s, t) >= 0.0 <==> p.a * (p.c * t - p.e) - p.b * n >= 0.0
    ensures p.SlopeT(s, t) <= 0.0 <==> p.a * (p.c * t - p.e) - p.b * n <= 0.0
  {
    var g := p.SlopeT(s, t);
    assert Product(p.a, g) == p.a * (p.c * t - p.e) - p.b * Product(p.a, s);
    SlopeOf(p.a, g);
  }

  lemma UndecidedAtZero(p: Products, s: real)
    requires p.Gram() && p.Undecided() && p.e < 0.0 && p.Clamped().InRange() && s == Parameters(p).0
    ensures Parameters(p).1 == 0.0
    ensures Stationary(p, s, 0.0) <==> p.Corrected()
  {
    OnEdge(p, 0.0, s);
  }

  lemma UndecidedAtOne(p: Products, s: real)
    requires p.Gram() && p.Undecided() && p.e > p.c >= SMALL_VALUE && p.Clamped().InRange() && s == Parameters(p).0
    ensures Parameters(p).1 == 1.0
    ensures Stationary(p, s, 1.0) <==> p.Corrected()
  {
    RatioFacts(p.c, p.c);
    OnEdge(p, 1.0, s);
  }

  /** The second parameter was to be one, and is zero. */
  lemma UndecidedSnapped(p: Products, s: real)
    requires p.Gram() && p.Undecided() && p.e > p.c && p.c < SMALL_VALUE
    requires p.Clamped().InRange() && s == Parameters(p).0
    ensures Parameters(p).1 == 0.0
    ensures Stationary(p, s, 0.0) <==> p.Corrected()
  {
    var n := p.b - p.d;
    RatioFacts(p.Clamped().sN, p.Clamped().sD);
    if n < p.a {
      SnappedInside(p, s, n);
    } else if n == p.a {
      assert p.a >= SMALL_VALUE ==> s == 1.0;
    } else {
      assert s == 1.0;
    }
  }

  lemma SnappedInside(p: Products, s: real, n: real)
    requires p.a > 0.0 && p.e > 0.0 && n == p.b - p.d < p.a && 0.0 <= s < 1.0
    requires s > 0.0 ==> Product(p.a, s) == n
    ensures !Stationary(p, s, 0.0)
  {
    if s > 0.0 {
      assert p.SlopeS(s, 0.0) == Product(p.a, s) + p.d;
      ProductSign(s, p.b);
    } else {
      assert p.SlopeT(0.0, 0.0) == -p.e;
    }
  }

  function ProductsOf(h1: Point, t1: Point, h2: Point, t2: Point): Products {
    var u, v, w := t1.Minus(h1), t2.Minus(h2), h1.Minus(h2);
    Products(u.Dot(u), u.Dot(v), v.Dot(v), u.Dot(w), v.Dot(w))
  }

  lemma ProductsOfGram(h1: Point, t1: Point, h2: Point, t2: Point)
    ensures ProductsOf(h1, t1, h2, t2).Gram()
  {
    var u, v, w := t1.Minus(h1), t2.Minus(h2), h1.Minus(h2);
    GramOf(u, v, w);
  }

  lemma GramOf(u: Point, v: Point, w: Point)
    ensures Products(u.Dot(u), u.Dot(v), v.Dot(v), u.Dot(w), v.Dot(w)).Gram()
  {
    GramSigns(u, v);
    GramNull(u, v, w);
    GramNull(v, u, w);
    DotSymmetric(u, v);
    GramParallel(u, v, w);
    GramParallel(v, u, w);
  }

  lemma GramSigns(u: Point, v: Point)
    ensures u.Dot(u) >= 0.0 && v.Dot(v) >= 0.0 && u.Dot(u) * v.Dot(v) - u.Dot(v) * u.Dot(v) >= 0.0
  {
    SquaredNormNonNegative(u);
    SquaredNormNonNegative(v);
    CauchySchwarz(u, v);
  }

  lemma GramNull(u: Point, v: Point, w: Point)
    ensures u.Dot(u) == 0.0 ==> u.Dot(v) == 0.0 && u.Dot(w) == 0.0
  {
    if !(u.Dot(u) > 0.0) {
      NullVector(u, v);
      NullVector(u, w);
    }
  }

  lemma GramParallel(u: Point, v: Point, w: Point)
    ensures u.Dot(u) * v.Dot(v) - u.Dot(v) * u.Dot(v) == 0.0 ==> u.Dot(u) * v.Dot(w) == u.Dot(v) * u.Dot(w)
  {
    if u.Dot(u) * v.Dot(v) - u.Dot(v) * u.Dot(v) == 0.0 {
      Proportional(u, v, w);
    }
  }

  lemma DotSymmetric(u: Point, v: Point)
    ensures u.Dot(v) == v.Dot(u)
  {
  }

  lemma NullVector(u: Point, v: Point)
    requires !(u.Dot(u) > 0.0)
    ensures u.Dot(v) == 0.0
  {
    SquaredNormNonNegative(u);
    assert u == Point(0.0, 0.0, 0.0);
  }

  /** Parallel vectors have proportional products with any third one. */
  lemma Proportional(u: Point, v: Point, w: Point)
    requires u.Dot(u) * v.Dot(v) - u.Dot(v) * u.Dot(v) == 0.0
    ensures u.Dot(u) * v.Dot(w) == u.Dot(v) * u.Dot(w)
  {
    var a, b, c := u.Dot(u), u.Dot(v), v.Dot(v);
    CombinationNorm(u, v, a, b);
    NormVanishes(a, b, c);
    var r := v.Times(a).Minus(u.Times(b));
    NullVector(r, w);
    CombinationDot(u, v, w, a, b);
  }

  lemma NormVanishes(a: real, b: real, c: real)
    requires a * c - b * b == 0.0
    ensures a * a * c - 2.0 * a * b * b + b * b * a == 0.0
  {
    assert a * a * c - 2.0 * a * b * b + b * b * a == a * (a * c - b * b);
  }

  lemma CombinationNorm(u: Point, v: Point, a: real, b: real)
    ensures var r := v.Times(a).Minus(u.Times(b));
            r.Dot(r) == a * a * v.Dot(v) - 2.0 * a * b * u.Dot(v) + b * b * u.Dot(u)
  {
  }

  lemma CombinationDot(u: Point, v: Point, w: Point, a: real, b: real)
    ensures v.Times(a).Minus(u.Times(b)).Dot(w) == a * v.Dot(w) - b * u.Dot(w)
  {
  }

  ghost predicate IsSquareRoot(sqrt: real -> Distance) {
    forall x :: x >= 0.0 ==> Square(sqrt(x)) == x
  }

  /** The squared distance between the points at the computed parameters. */
  function ClosestSquared(h1: Point, t1: Point, h2: Point, t2: Point): real {
    var p := ProductsOf(h1, t1, h2, t2);
    ProductsOfGram(h1, t1, h2, t2);
    ClampedInRange(p);
    SquaredDistance(At(h1, t1, Parameters(p).0), At(h2, t2, Parameters(p).1))
  }

  function SegmentDistance(sqrt: real -> Distance, h1: Point, t1: Point, h2: Point, t2: Point): Distance {
    sqrt(ClosestSquared(h1, t1, h2, t2))
  }

  /** The first half of the computation: the parameters' fractions, the first one clamped. */
  method ComputeInitial(a: real, b: real, c: real, d: real, e: real) returns (sN: real, sD: real, tN: real, tD: real)
    ensures Fractions(sN, sD, tN, tD) == Products(a, b, c, d, e).Initial()
  {
    var det := a * c - b * b;
    sD, tD := det, det;
    if det < SMALL_VALUE {
      sN := 0.0;
      sD := 1.0;
      tN := e;
      tD := c;
    } else {
      sN := b * e - c * d;
      tN := a * e - b * d;
      if sN < 0.0 {
        sN := 0.0;
        tN := e;
        tD := c;
      } else if sN > sD {
        sN := sD;
        tN := e + b;
        tD := c;
      }
    }
  }

  /** The second half: clamps the second parameter, and then the first one again. */
  method ComputeClamped(a: real, b: real, d: real, ghost p: Products, f: Fractions)
    returns (sN: real, sD: real, tN: real, tD: real)
    requires p.a == a && p.b == b && p.d == d && f == p.Initial()
    ensures Fractions(sN, sD, tN, tD) == p.Clamped()
  {
    sN, sD, tN, tD := f.sN, f.sD, f.tN, f.tD;
    if tN < 0.0 {
      tN := 0.0;
      if -d < 0.0 {
        sN := 0.0;
      } else if -d > a {
        sN := sD;
      } else {
        sN := -d;
        sD := a;
      }
    } else if tN > tD {
      tN := tD;
      if -d + b < 0.0 {
        sN := 0.0;
      } else if -d + b > a {
        sN := sD;
      } else {
        sN := -d + b;
        sD := a;
      }
    }
  }

  method ComputeSegmentDistance(sqrt: real -> Distance, h1: Point, t1: Point, h2: Point, t2: Point)
    returns (distance: Distance)
    ensures distance == SegmentDistance(sqrt, h1, t1, h2, t2)
  {
    ProductsOfGram(h1, t1, h2, t2);
    ClampedInRange(ProductsOf(h1, t1, h2, t2));
    var u, v, w := t1.Minus(h1), t2.Minus(h2), h1.Minus(h2);
    var sN, sD, tN, tD := ComputeInitial(u.Dot(u), u.Dot(v), v.Dot(v), u.Dot(w), v.Dot(w));
    sN, sD, tN, tD := ComputeClamped(u.Dot(u), u.Dot(v), u.Dot(w), ProductsOf(h1, t1, h2, t2),
                                     Fractions(sN, sD, tN, tD));
    var sc, tc := 0.0, 0.0;
    if Abs(sN) >= SMALL_VALUE {
      sc := sN / sD;
    }
    if Abs(tN) >= SMALL_VALUE {
      tc := tN / tD;
    }
    var dP := w.Plus(u.Times(sc)).Minus(v.Times(tc));
    SameDifference(h1, t1, h2, t2, sc, tc);
    distance := sqrt(dP.Dot(dP));
  }

  lemma SameDifference(h1: Point, t1: Point, h2: Point, t2: Point, s: real, t: real)
    ensures h1.Minus(h2).Plus(t1.Minus(h1).Times(s)).Minus(t2.Minus(h2).Times(t)) ==
            At(h1, t1, s).Minus(At(h2, t2, t))
  {
  }

  /** `d` is the distance between two segments: no two of their points are closer, and some are that close. */
  ghost predicate IsDistance(d: real, h1: Point, t1: Point, h2: Point, t2: Point) {
    && d >= 0.0
    && Apart(d, h1, t1, h2, t2)
    && (exists s, t :: InUnit(s) && InUnit(t) && SquaredDistance(At(h1, t1, s), At(h2, t2, t)) == Square(d))
  }

  ghost predicate Apart(d: real, h1: Point, t1: Point, h2: Point, t2: Point) {
    forall s, t :: InUnit(s) && InUnit(t) ==> SquaredDistance(At(h1, t1, s), At(h2, t2, t)) >= Square(d)
  }

  lemma ExactWhen(p: Products)
    requires p.Gram()
    ensures p.Clamped().InRange()
    ensures p.c == 0.0 ==> (p.Minimal(Parameters(p).0, Parameters(p).1) <==> p.d >= 0.0)
    ensures p.Decided() ==>
              (p.Minimal(Parameters(p).0, Parameters(p).1) <==> !p.Clamped().Snapped())
    ensures p.Undecided() ==>
              (p.Minimal(Parameters(p).0, Parameters(p).1) <==> p.Corrected())
    ensures p.c == 0.0 || p.Decided() || p.Undecided()
  {
    ClampedInRange(p);
    if p.c == 0.0 {
      PointSecondExact(p);
    } else if p.Undecided() {
      UndecidedExact(p);
    } else if p.Decided() {
      assert p.Resolved();
      ParametersExact(p);
    }
  }

  lemma DistanceIsValue(h1: Point, t1: Point, h2: Point, t2: Point, s: real, t: real)
    ensures SquaredDistance(At(h1, t1, s), At(h2, t2, t)) ==
            ProductsOf(h1, t1, h2, t2).Value(s, t) + SquaredDistance(h1, h2)
  {
    DistanceIsQuadratic(h1, t1, h2, t2, s, t);
    OffsetOnly(ProductsOf(h1, t1, h2, t2), SquaredDistance(h1, h2), s, t);
  }

  lemma OffsetOnly(p: Products, f: real, s: real, t: real)
    ensures Quadratic(p.a, p.b, p.c, p.d, p.e, f, s, t) == p.Value(s, t) + f
  {
  }

  lemma ApartIff(d: real, h1: Point, t1: Point, h2: Point, t2: Point, s: real, t: real)
    requires Square(d) == SquaredDistance(At(h1, t1, s), At(h2, t2, t))
    ensures Apart(d, h1, t1, h2, t2) <==> ProductsOf(h1, t1, h2, t2).Minimal(s, t)
  {
    var p := ProductsOf(h1, t1, h2, t2);
    DistanceIsValue(h1, t1, h2, t2, s, t);
    forall x, y
      ensures SquaredDistance(At(h1, t1, x), At(h2, t2, y)) == p.Value(x, y) + SquaredDistance(h1, h2)
    {
      DistanceIsValue(h1, t1, h2, t2, x, y);
    }
  }

  lemma ClosestIsDistanceIff(sqrt: real -> Distance, h1: Point, t1: Point, h2: Point, t2: Point)
    requires IsSquareRoot(sqrt)
    ensures ProductsOf(h1, t1, h2, t2).Clamped().InRange()
    ensures var p := ProductsOf(h1, t1, h2, t2);
            IsDistance(SegmentDistance(sqrt, h1, t1, h2, t2), h1, t1, h2, t2) <==>
            p.Minimal(Parameters(p).0, Parameters(p).1)
  {
    var p := ProductsOf(h1, t1, h2, t2);
    ProductsOfGram(h1, t1, h2, t2);
    ClampedInRange(p);
    var s, t := SegmentDistanceAttained(sqrt, h1, t1, h2, t2);
    ApartIff(SegmentDistance(sqrt, h1, t1, h2, t2), h1, t1, h2, t2, s, t);
  }

  /** The computed distance is the distance between the segments exactly when: if the second segment is a
      point, the first one leads away from it or is a point too; otherwise, if no numerator was snapped; but for a
      tiny determinant and a closest point past the first segment's head, if the clamping has corrected it. These
      are all the cases. */
  lemma SegmentDistanceExact(sqrt: real -> Distance, h1: Point, t1: Point, h2: Point, t2: Point)
    requires IsSquareRoot(sqrt)
    ensures var p, d := ProductsOf(h1, t1, h2, t2), SegmentDistance(sqrt, h1, t1, h2, t2);
            && (p.c == 0.0 ==> (IsDistance(d, h1, t1, h2, t2) <==> p.d >= 0.0))
            && (p.Decided() ==> (IsDistance(d, h1, t1, h2, t2) <==> !p.Clamped().Snapped()))
            && (p.Undecided() ==> (IsDistance(d, h1, t1, h2, t2) <==> p.Corrected()))
            && (p.c == 0.0 || p.Decided() || p.Undecided())
  {
    var p := ProductsOf(h1, t1, h2, t2);
    ClosestIsDistanceIff(sqrt, h1, t1, h2, t2);
    ProductsOfGram(h1, t1, h2, t2);
    ExactWhen(p);
  }

  /** In every case the computed distance is attained by two points of the segments. */
  lemma SegmentDistanceAttained(sqrt: real -> Distance, h1: Point, t1: Point, h2: Point, t2: Point)
    returns (s: real, t: real)
    requires IsSquareRoot(sqrt)
    ensures InUnit(s) && InUnit(t)
    ensures Square(SegmentDistance(sqrt, h1, t1, h2, t2)) == SquaredDistance(At(h1, t1, s), At(h2, t2, t))
    ensures ProductsOf(h1, t1, h2, t2).Clamped().InRange() && (s, t) == Parameters(ProductsOf(h1, t1, h2, t2))
  {
    var p := ProductsOf(h1, t1, h2, t2);
    ProductsOfGram(h1, t1, h2, t2);
    ClampedInRange(p);
    var f := p.Clamped();
    RatioFacts(f.sN, f.sD);
    RatioFacts(f.tN, f.tD);
    s, t := Ratio(f.sN, f.sD), Ratio(f.tN, f.tD);
    SquaredNormNonNegative(At(h1, t1, s).Minus(At(h2, t2, t)));
  }

  /* Inputs on which the computed distance is too large */

  /** The second segment is a point and the first one ends in it: the distance is zero, but it is computed from the
      first head. */
  lemma PointSecondOverestimated(sqrt: real -> Distance, h: Point, p: Point)
    requires IsSquareRoot(sqrt) && h != p
    ensures !IsDistance(SegmentDistance(sqrt, h, p, p, p), h, p, p, p)
  {
    hide *;
    TowardsPoint(h, p);
    SegmentDistanceExact(sqrt, h, p, p, p);
  }

  lemma TowardsPoint(h: Point, p: Point)
    requires h != p
    ensures ProductsOf(h, p, p, p).c == 0.0 && ProductsOf(h, p, p, p).d < 0.0
  {
    var u, w := p.Minus(h), h.Minus(p);
    assert p.Minus(p) == Point(0.0, 0.0, 0.0);
    Opposite(u, w);
    SquaredNormNonNegative(u);
    DifferenceNonZero(p, h);
  }

  lemma Opposite(u: Point, w: Point)
    requires w.x == -u.x && w.y == -u.y && w.z == -u.z
    ensures u.Dot(w) == -SquaredNorm(u)
  {
  }

  /** Two segments that are nearly parallel, the first beginning before the second: the first parameter is taken to be
      zero, and the clamping does not correct it. */
  lemma NearlyParallelOverestimated(sqrt: real -> Distance)
    requires IsSquareRoot(sqrt)
    ensures var h1, t1 := Point(-0.5, 1.0, 0.0), Point(0.5, 1.0, 0.0);
            var h2, t2 := Point(0.0, 0.0, 0.0), Point(1.0, 0.0001, 0.0);
            !IsDistance(SegmentDistance(sqrt, h1, t1, h2, t2), h1, t1, h2, t2)
  {
    hide *;
    var h1, t1 := Point(-0.5, 1.0, 0.0), Point(0.5, 1.0, 0.0);
    var h2, t2 := Point(0.0, 0.0, 0.0), Point(1.0, 0.0001, 0.0);
    NearlyParallel(h1, t1, h2, t2);
    SegmentDistanceExact(sqrt, h1, t1, h2, t2);
  }

  lemma NearlyParallel(h1: Point, t1: Point, h2: Point, t2: Point)
    requires h1 == Point(-0.5, 1.0, 0.0) && t1 == Point(0.5, 1.0, 0.0)
    requires h2 == Point(0.0, 0.0, 0.0) && t2 == Point(1.0, 0.0001, 0.0)
    ensures ProductsOf(h1, t1, h2, t2).Undecided() && !ProductsOf(h1, t1, h2, t2).Corrected()
  {
    hide *;
    var u, v, w := Point(1.0, 0.0, 0.0), Point(1.0, 0.0001, 0.0), Point(-0.5, 1.0, 0.0);
    Difference(0.5, 1.0, 0.0, -0.5, 1.0, 0.0);
    Difference(1.0, 0.0001, 0.0, 0.0, 0.0, 0.0);
    Difference(-0.5, 1.0, 0.0, 0.0, 0.0, 0.0);
    InnerProduct(1.0, 0.0, 0.0, 1.0, 0.0, 0.0);
    InnerProduct(1.0, 0.0, 0.0, 1.0, 0.0001, 0.0);
    InnerProduct(1.0, 0.0001, 0.0, 1.0, 0.0001, 0.0);
    InnerProduct(1.0, 0.0, 0.0, -0.5, 1.0, 0.0);
    InnerProduct(1.0, 0.0001, 0.0, -0.5, 1.0, 0.0);
    ProductsFrom(h1, t1, h2, t2, u, v, w);
    NearlyParallelProducts();
  }

  lemma ProductsFrom(h1: Point, t1: Point, h2: Point, t2: Point, u: Point, v: Point, w: Point)
    requires u == t1.Minus(h1) && v == t2.Minus(h2) && w == h1.Minus(h2)
    ensures ProductsOf(h1, t1, h2, t2) == Products(u.Dot(u), u.Dot(v), v.Dot(v), u.Dot(w), v.Dot(w))
  {
  }

  lemma Difference(x: real, y: real, z: real, a: real, b: real, c: real)
    ensures Point(x, y, z).Minus(Point(a, b, c)) == Point(x - a, y - b, z - c)
  {
  }

  lemma InnerProduct(x: real, y: real, z: real, a: real, b: real, c: real)
    ensures Point(x, y, z).Dot(Point(a, b, c)) == x * a + y * b + z * c
  {
  }

  lemma NearlyParallelProducts()
    ensures var q := Products(1.0, 1.0, 1.00000001, -0.5, -0.4999); q.Undecided() && !q.Corrected()
  {
  }
}
