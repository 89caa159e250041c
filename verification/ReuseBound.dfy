/** The distances of the two kinds of section, and why they let checks of an older human sample be reused. */
module ReuseBounds {
  import opened Capsules
  import opened Geometry
  import opened SegmentDistances

  function Max(x: real, y: real): (r: real)
    ensures r >= x && r >= y && (r == x || r == y)
  {
    if x >= y then x else y
  }

  /** The parameter, as computed, of the point of a segment closest to a point. */
  function PointParameter(c: real, e: real): real
    requires c >= 0.0
  {
    if e < 0.0 then Ratio(0.0, c) else if e > c then Ratio(c, c) else Ratio(e, c)
  }

  function PointDistance(sqrt: real -> Distance, p: Point, head: Point, tail: Point): Distance {
    var v, w := tail.Minus(head), p.Minus(head);
    SquaredNormNonNegative(v);
    sqrt(SquaredDistance(p, At(head, tail, PointParameter(v.Dot(v), v.Dot(w)))))
  }

  method ComputePointDistance(sqrt: real -> Distance, p: Point, head: Point, tail: Point) returns (distance: Distance)
    ensures distance == PointDistance(sqrt, p, head, tail)
  {
    var v, w := tail.Minus(head), p.Minus(head);
    SquaredNormNonNegative(v);
    var c, e := v.Dot(v), v.Dot(w);
    var tc, tN, tD := 0.0, e, c;
    if tN < 0.0 {
      tN := 0.0;
    } else if tN > tD {
      tN := tD;
    }
    if Abs(tN) >= SMALL_VALUE {
      tc := tN / tD;
    }
    var dP := w.Minus(v.Times(tc));
    SamePointDifference(p, head, tail, tc);
    distance := sqrt(dP.Dot(dP));
  }

  lemma SamePointDifference(p: Point, head: Point, tail: Point, t: real)
    ensures p.Minus(head).Minus(tail.Minus(head).Times(t)) == p.Minus(At(head, tail, t))
  {
  }

  /** The point distance is the segment distance of a first segment that is a point. */
  lemma PointIsDegenerateSegment(sqrt: real -> Distance, p: Point, head: Point, tail: Point)
    ensures PointDistance(sqrt, p, head, tail) == SegmentDistance(sqrt, p, p, head, tail)
  {
    var q := ProductsOf(p, p, head, tail);
    ProductsOfGram(p, p, head, tail);
    DegenerateProducts(p, head, tail);
    ClampedInRange(q);
    DegenerateParameters(q);
    AtSame(p);
  }

  lemma DegenerateProducts(p: Point, head: Point, tail: Point)
    ensures var v, w := tail.Minus(head), p.Minus(head);
            ProductsOf(p, p, head, tail) == Products(0.0, 0.0, v.Dot(v), 0.0, v.Dot(w))
  {
    var u, v, w := p.Minus(p), tail.Minus(head), p.Minus(head);
    assert u == Point(0.0, 0.0, 0.0);
    ZeroDot(u);
    ZeroDot(v);
    ZeroDot(w);
  }

  lemma ZeroDot(v: Point)
    ensures Point(0.0, 0.0, 0.0).Dot(v) == 0.0
  {
  }

  lemma AtSame(p: Point)
    ensures At(p, p, 0.0) == p
  {
  }

  lemma DegenerateParameters(q: Products)
    requires q.Gram() && q.a == q.b == q.d == 0.0 && q.Clamped().InRange()
    ensures Parameters(q) == (0.0, PointParameter(q.c, q.e))
  {
  }

  /** A positive numerator, or its bound, is too small to be divided. */
  predicate PointSnapped(c: real, e: real) {
    c > 0.0 && e > 0.0 && (e < SMALL_VALUE || c < SMALL_VALUE)
  }

  /** The point distance is the distance exactly when the closest parameter is not snapped to the head. */
  lemma PointDistanceExact(sqrt: real -> Distance, p: Point, head: Point, tail: Point)
    requires IsSquareRoot(sqrt)
    ensures var q := ProductsOf(p, p, head, tail);
            IsDistance(PointDistance(sqrt, p, head, tail), p, p, head, tail) == !PointSnapped(q.c, q.e)
  {
    hide *;
    PointIsDegenerateSegment(sqrt, p, head, tail);
    ClosestIsDistanceIff(sqrt, p, p, head, tail);
    DegenerateMinimalOf(p, head, tail);
  }

  lemma DegenerateMinimalOf(p: Point, head: Point, tail: Point)
    ensures var q := ProductsOf(p, p, head, tail);
            q.Clamped().InRange() && q.Minimal(Parameters(q).0, Parameters(q).1) == !PointSnapped(q.c, q.e)
  {
    hide *;
    ProductsOfGram(p, p, head, tail);
    DegenerateProducts(p, head, tail);
    DegenerateMinimal(ProductsOf(p, p, head, tail));
  }

  lemma DegenerateMinimal(q: Products)
    requires q.Gram() && q.a == q.b == q.d == 0.0
    ensures q.Clamped().InRange()
    ensures q.Minimal(Parameters(q).0, Parameters(q).1) == !PointSnapped(q.c, q.e)
  {
    ExactWhen(q);
    DegenerateSnapped(q);
  }

  lemma DegenerateSnapped(q: Products)
    requires q.Gram() && q.a == q.b == q.d == 0.0
    ensures q.c > 0.0 ==> q.Decided()
    ensures q.c > 0.0 ==> (q.Clamped().Snapped() <==> PointSnapped(q.c, q.e))
  {
  }

  type SegmentDistanceFunction = (Point, Point, Point, Point) -> Distance
  type PointDistanceFunction = (Point, Point, Point) -> Distance

  function Clearance(distance: Distance, reach: real): Distance {
    if distance <= reach then 0.0 else distance - reach
  }

  /** The distances of a capsule section. */
  function CapsuleHumanHuman(point: PointDistanceFunction, reference: Capsule, other: Capsule): Distance {
    Max(0.0, Max(point(other.head, reference.head, reference.tail), point(other.tail, reference.head, reference.tail))
             + other.thickness + other.error - reference.thickness - reference.error)
  }

  function CapsuleHumanRobot(segment: SegmentDistanceFunction, human: Capsule, robot: Capsule): Distance {
    Clearance(segment(human.head, human.tail, robot.head, robot.tail),
              human.error + human.thickness + robot.error + robot.thickness)
  }

  function CapsuleMetric(segment: SegmentDistanceFunction, point: PointDistanceFunction): Metric {
    Metric((reference, other) => CapsuleHumanHuman(point, reference, other),
           (human, robot) => CapsuleHumanRobot(segment, human, robot))
  }

  datatype Sphere = Sphere(centre: Point, radius: real)

  function Centre(p: Point, q: Point): Point { p.Plus(q).Times(0.5) }

  function BoundingSphere(sqrt: real -> Distance, c: Capsule): Sphere {
    SquaredNormNonNegative(c.head.Minus(c.tail));
    Sphere(Centre(c.head, c.tail), sqrt(SquaredDistance(c.head, c.tail)) / 2.0 + c.error + c.thickness)
  }

  /** The distances of a sphere section. */
  function SphereHumanHuman(sqrt: real -> Distance, reference: Capsule, other: Capsule): Distance {
    var r, o := BoundingSphere(sqrt, reference), BoundingSphere(sqrt, other);
    SquaredNormNonNegative(r.centre.Minus(o.centre));
    Max(0.0, sqrt(SquaredDistance(r.centre, o.centre)) + o.radius - r.radius)
  }

  function SphereHumanRobot(sqrt: real -> Distance, point: PointDistanceFunction, human: Capsule,
                            robot: Capsule): Distance {
    var s := BoundingSphere(sqrt, human);
    Max(0.0, point(s.centre, robot.head, robot.tail) - robot.error - robot.thickness - s.radius)
  }

  function SphereMetric(sqrt: real -> Distance, point: PointDistanceFunction): Metric {
    Metric((reference, other) => SphereHumanHuman(sqrt, reference, other),
           (human, robot) => SphereHumanRobot(sqrt, point, human, robot))
  }

  /** A distance that some points of the two segments have: it never underestimates. */
  ghost predicate Attained(d: Distance, h1: Point, t1: Point, h2: Point, t2: Point) {
    exists s, t :: InUnit(s) && InUnit(t) && SquaredDistance(At(h1, t1, s), At(h2, t2, t)) == Square(d)
  }

  /** No point of the capsule's segment is farther than `reach` from the given point. */
  ghost predicate WithinReach(p: Point, reach: Distance, head: Point, tail: Point) {
    exists s :: InUnit(s) && SquaredDistance(p, At(head, tail, s)) <= Square(reach)
  }

  lemma SquareMonotone(x: real, y: real)
    requires 0.0 <= x <= y
    ensures Square(x) <= Square(y)
  {
    ProductNonNegative(y - x, y + x);
    assert Product(y - x, y + x) == Square(y) - Square(x);
  }

  lemma SquareReflectsOrder(x: real, y: real)
    requires y >= 0.0
    ensures Square(x) <= Square(y) ==> x <= y
  {
    if x > y {
      ProductSign(x + y, x - y);
      assert Product(x + y, x - y) == Square(x) - Square(y);
    }
  }

  /** The triangle inequality on squared distances: leaving `q` by at most `m` costs at most `m`. */
  lemma Triangle(p: Point, q: Point, z: Point, m: Distance, k: Distance)
    requires SquaredDistance(p, q) <= Square(m) && SquaredDistance(p, z) < Square(k)
    ensures SquaredDistance(q, z) < Square(m + k)
  {
    var x, y := q.Minus(p), p.Minus(z);
    CauchySchwarz(x, y);
    SquaredNormNonNegative(x);
    SquaredNormNonNegative(y);
    NormOfReverse(p, q);
    NormOfSum(p, q, z);
    TriangleOfNorms(SquaredNorm(x), SquaredNorm(y), x.Dot(y), m, k);
  }

  lemma TriangleOfNorms(a: real, b: real, dot: real, m: Distance, k: Distance)
    requires 0.0 <= a <= Square(m) && 0.0 <= b < Square(k) && dot * dot <= a * b
    ensures a + 2.0 * dot + b < Square(m + k)
  {
    ProductMonotone(a, b, Square(m), Square(k));
    ProductNonNegative(m, k);
    assert Square(dot) <= Product(Square(m), Square(k)) == Square(Product(m, k));
    SquareReflectsOrder(dot, Product(m, k));
    assert Square(m + k) == Square(m) + 2.0 * Product(m, k) + Square(k);
  }

  lemma NormOfReverse(p: Point, q: Point)
    ensures SquaredNorm(q.Minus(p)) == SquaredDistance(p, q)
  {
  }

  lemma NormOfSum(p: Point, q: Point, z: Point)
    ensures var x, y := q.Minus(p), p.Minus(z);
            SquaredDistance(q, z) == SquaredNorm(x) + 2.0 * x.Dot(y) + SquaredNorm(y)
  {
  }

  lemma ProductMonotone(a: real, b: real, c: real, d: real)
    requires 0.0 <= a <= c && 0.0 <= b <= d
    ensures a * b <= Product(c, d)
  {
    ProductNonNegative(c - a, d);
    ProductNonNegative(a, d - b);
    assert Product(c - a, d) + Product(a, d - b) == Product(c, d) - a * b;
  }

  /** The distance to a segment is convex: if both ends of a segment are within reach, all of it is. */
  lemma ReachConvex(h: Point, t: Point, s: real, reach: Distance, head: Point, tail: Point)
    requires WithinReach(h, reach, head, tail) && WithinReach(t, reach, head, tail) && InUnit(s)
    ensures WithinReach(At(h, t, s), reach, head, tail)
  {
    var x :| InUnit(x) && SquaredDistance(h, At(head, tail, x)) <= Square(reach);
    var y :| InUnit(y) && SquaredDistance(t, At(head, tail, y)) <= Square(reach);
    var z := x + (y - x) * s;
    BetweenInUnit(x, y, s);
    var p, q := h.Minus(At(head, tail, x)), t.Minus(At(head, tail, y));
    ConvexNorm(p, q, s);
    WeightedBound(SquaredNorm(p), SquaredNorm(q), s, Square(reach));
    MixedDifference(h, t, s, head, tail, x, y);
    assert SquaredDistance(At(h, t, s), At(head, tail, z)) <= Square(reach);
  }

  lemma BetweenInUnit(x: real, y: real, s: real)
    requires InUnit(x) && InUnit(y) && InUnit(s)
    ensures InUnit(x + (y - x) * s)
  {
    ProductNonNegative(x, 1.0 - s);
    ProductNonNegative(y, s);
    ProductNonNegative(1.0 - x, 1.0 - s);
    ProductNonNegative(1.0 - y, s);
    assert Product(x, 1.0 - s) + Product(y, s) == x + (y - x) * s;
    assert Product(1.0 - x, 1.0 - s) + Product(1.0 - y, s) == 1.0 - (x + (y - x) * s);
  }

  function Mix(s: real, x: real, y: real): real { (1.0 - s) * x + s * y }

  lemma ConvexNorm(p: Point, q: Point, s: real)
    requires InUnit(s)
    ensures SquaredNorm(p.Times(1.0 - s).Plus(q.Times(s))) <= Mix(s, SquaredNorm(p), SquaredNorm(q))
  {
    hide *;
    ConvexSquare(p.x, q.x, s);
    ConvexSquare(p.y, q.y, s);
    ConvexSquare(p.z, q.z, s);
    SumOfMixes(p, q, s);
    MixedNorm(p, q, s);
  }

  lemma MixedNorm(p: Point, q: Point, s: real)
    ensures SquaredNorm(p.Times(1.0 - s).Plus(q.Times(s))) ==
            Square(Mix(s, p.x, q.x)) + Square(Mix(s, p.y, q.y)) + Square(Mix(s, p.z, q.z))
  {
  }

  lemma SumOfMixes(p: Point, q: Point, s: real)
    ensures Mix(s, SquaredNorm(p), SquaredNorm(q)) ==
            Mix(s, Square(p.x), Square(q.x)) + Mix(s, Square(p.y), Square(q.y)) + Mix(s, Square(p.z), Square(q.z))
  {
  }

  lemma ConvexSquare(x: real, y: real, s: real)
    requires InUnit(s)
    ensures Square(Mix(s, x, y)) <= Mix(s, Square(x), Square(y))
  {
    SquareNonNegative(x - y);
    ProductNonNegative(s, 1.0 - s);
    ProductNonNegative(Product(s, 1.0 - s), Square(x - y));
    assert Product(Product(s, 1.0 - s), Square(x - y)) == Mix(s, Square(x), Square(y)) - Square(Mix(s, x, y));
  }

  lemma WeightedBound(a: real, b: real, s: real, c: real)
    requires InUnit(s) && a <= c && b <= c
    ensures Mix(s, a, b) <= c
  {
    ProductNonNegative(1.0 - s, c - a);
    ProductNonNegative(s, c - b);
    assert Product(1.0 - s, c - a) + Product(s, c - b) == c - Mix(s, a, b);
  }

  lemma MixedDifference(h: Point, t: Point, s: real, head: Point, tail: Point, x: real, y: real)
    ensures At(h, t, s).Minus(At(head, tail, x + (y - x) * s)) ==
            h.Minus(At(head, tail, x)).Times(1.0 - s).Plus(t.Minus(At(head, tail, y)).Times(s))
  {
    hide *;
    AtOfAt(head, tail, x, y, s);
    AtDifference(h, t, At(head, tail, x), At(head, tail, y), s);
  }

  lemma AtOfAt(head: Point, tail: Point, x: real, y: real, s: real)
    ensures At(At(head, tail, x), At(head, tail, y), s) == At(head, tail, x + (y - x) * s)
  {
    AtOfAtCoordinate(head.x, tail.x, x, y, s);
    AtOfAtCoordinate(head.y, tail.y, x, y, s);
    AtOfAtCoordinate(head.z, tail.z, x, y, s);
  }

  lemma AtOfAtCoordinate(h: real, t: real, x: real, y: real, s: real)
    ensures (h + x * (t - h)) + s * ((h + y * (t - h)) - (h + x * (t - h))) == h + (x + (y - x) * s) * (t - h)
  {
  }

  lemma AtDifference(h: Point, t: Point, a: Point, b: Point, s: real)
    ensures At(h, t, s).Minus(At(a, b, s)) == h.Minus(a).Times(1.0 - s).Plus(t.Minus(b).Times(s))
  {
    hide *;
    var l, r := At(h, t, s).Minus(At(a, b, s)), h.Minus(a).Times(1.0 - s).Plus(t.Minus(b).Times(s));
    DifferenceOfAts(h, t, a, b, s);
    MixOfDifferences(h, t, a, b, s);
    AtDifferenceCoordinate(h.x, t.x, a.x, b.x, s);
    AtDifferenceCoordinate(h.y, t.y, a.y, b.y, s);
    AtDifferenceCoordinate(h.z, t.z, a.z, b.z, s);
    assert l.x == r.x && l.y == r.y && l.z == r.z;
  }

  lemma DifferenceOfAts(h: Point, t: Point, a: Point, b: Point, s: real)
    ensures var l := At(h, t, s).Minus(At(a, b, s));
            && l.x == (h.x + s * (t.x - h.x)) - (a.x + s * (b.x - a.x))
            && l.y == (h.y + s * (t.y - h.y)) - (a.y + s * (b.y - a.y))
            && l.z == (h.z + s * (t.z - h.z)) - (a.z + s * (b.z - a.z))
  {
  }

  lemma MixOfDifferences(h: Point, t: Point, a: Point, b: Point, s: real)
    ensures var r := h.Minus(a).Times(1.0 - s).Plus(t.Minus(b).Times(s));
            && r.x == (1.0 - s) * (h.x - a.x) + s * (t.x - b.x)
            && r.y == (1.0 - s) * (h.y - a.y) + s * (t.y - b.y)
            && r.z == (1.0 - s) * (h.z - a.z) + s * (t.z - b.z)
  {
  }

  lemma AtDifferenceCoordinate(h: real, t: real, a: real, b: real, s: real)
    ensures (h + s * (t - h)) - (a + s * (b - a)) == (1.0 - s) * (h - a) + s * (t - b)
  {
  }

  /** If every point of the reference segment is at least `d` from the robot's, and the other segment lies
      within reach of the reference one, no distance the other one attains is below `d - reach`. */
  lemma ReachLosesAtMost(d: Distance, reach: Distance, attained: Distance, reference: Capsule, h: Point, t: Point,
                         robot: Capsule)
    requires Apart(d, reference.head, reference.tail, robot.head, robot.tail)
    requires WithinReach(h, reach, reference.head, reference.tail)
    requires WithinReach(t, reach, reference.head, reference.tail)
    requires Attained(attained, h, t, robot.head, robot.tail)
    ensures d <= attained + reach
  {
    var s, r :| InUnit(s) && InUnit(r) &&
                SquaredDistance(At(h, t, s), At(robot.head, robot.tail, r)) == Square(attained);
    ReachConvex(h, t, s, reach, reference.head, reference.tail);
    var p, z := At(h, t, s), At(robot.head, robot.tail, r);
    var x :| InUnit(x) && SquaredDistance(p, At(reference.head, reference.tail, x)) <= Square(reach);
    assert SquaredDistance(At(reference.head, reference.tail, x), z) >= Square(d);
    TriangleBound(p, At(reference.head, reference.tail, x), z, d, reach, attained);
  }

  lemma TriangleBound(p: Point, q: Point, z: Point, d: Distance, reach: Distance, attained: Distance)
    requires SquaredDistance(p, q) <= Square(reach) && SquaredDistance(p, z) == Square(attained)
    requires SquaredDistance(q, z) >= Square(d)
    ensures d <= attained + reach
  {
    if attained + reach < d {
      var k := d - reach;
      SquareStrict(attained, k);
      Triangle(p, q, z, reach, k);
    }
  }

  lemma SquareStrict(x: real, y: real)
    requires 0.0 <= x < y
    ensures Square(x) < Square(y)
  {
    ProductPositive(y - x, y + x);
    assert Product(y - x, y + x) == Square(y) - Square(x);
  }

  /** Reuse is sound for capsule sections as soon as the distance of the reference human from the robot is
      not overestimated; the other distances need only be attained, as the computed ones always are. */
  lemma CapsuleReuseSound(segment: SegmentDistanceFunction, point: PointDistanceFunction, reference: Capsule,
                          other: Capsule, robot: Capsule)
    requires Apart(segment(reference.head, reference.tail, robot.head, robot.tail),
                   reference.head, reference.tail, robot.head, robot.tail)
    requires Attained(segment(other.head, other.tail, robot.head, robot.tail), other.head, other.tail, robot.head,
                      robot.tail)
    requires forall p :: Attained(point(p, reference.head, reference.tail), p, p, reference.head, reference.tail)
    ensures CapsuleMetric(segment, point).ReuseSound(reference, other, robot)
  {
    var mh, mt := point(other.head, reference.head, reference.tail), point(other.tail, reference.head, reference.tail);
    var reach: Distance := Max(mh, mt);
    AttainedWithin(other.head, mh, reach, reference.head, reference.tail);
    AttainedWithin(other.tail, mt, reach, reference.head, reference.tail);
    ReachLosesAtMost(segment(reference.head, reference.tail, robot.head, robot.tail), reach,
                     segment(other.head, other.tail, robot.head, robot.tail), reference, other.head, other.tail, robot);
  }

  lemma AttainedWithin(p: Point, d: Distance, reach: Distance, head: Point, tail: Point)
    requires Attained(d, p, p, head, tail) && d <= reach
    ensures WithinReach(p, reach, head, tail)
  {
    var s, t :| InUnit(s) && InUnit(t) && SquaredDistance(At(p, p, s), At(head, tail, t)) == Square(d);
    AtDegenerate(p, s);
    SquareMonotone(d, reach);
  }

  lemma AtDegenerate(p: Point, s: real)
    ensures At(p, p, s) == p
  {
  }

  /** The same for sphere sections, whose reference is the centre of the bounding sphere. */
  lemma SphereReuseSound(sqrt: real -> Distance, point: PointDistanceFunction, reference: Capsule, other: Capsule,
                         robot: Capsule)
    requires IsSquareRoot(sqrt)
    requires var c := Centre(reference.head, reference.tail);
             Apart(point(c, robot.head, robot.tail), c, c, robot.head, robot.tail)
    requires var c := Centre(other.head, other.tail);
             Attained(point(c, robot.head, robot.tail), c, c, robot.head, robot.tail)
    ensures SphereMetric(sqrt, point).ReuseSound(reference, other, robot)
  {
    hide *;
    var r, o := Centre(reference.head, reference.tail), Centre(other.head, other.tail);
    CentreReach(sqrt, point, r, o, reference, robot);
    SphereBoundSound(sqrt, point, reference, other, robot);
  }

  lemma CentreReach(sqrt: real -> Distance, point: PointDistanceFunction, r: Point, o: Point, reference: Capsule,
                    robot: Capsule)
    requires IsSquareRoot(sqrt)
    requires Apart(point(r, robot.head, robot.tail), r, r, robot.head, robot.tail)
    requires Attained(point(o, robot.head, robot.tail), o, o, robot.head, robot.tail)
    ensures point(r, robot.head, robot.tail) <= point(o, robot.head, robot.tail) + sqrt(SquaredDistance(r, o))
  {
    SquaredNormNonNegative(r.Minus(o));
    var reach := sqrt(SquaredDistance(r, o));
    RootWithin(r, o, reach);
    ReachLosesAtMost(point(r, robot.head, robot.tail), reach, point(o, robot.head, robot.tail),
                     reference.(head := r, tail := r), o, o, robot);
  }

  lemma RootWithin(r: Point, o: Point, reach: Distance)
    requires Square(reach) == SquaredDistance(r, o)
    ensures WithinReach(o, reach, r, r)
  {
    NormOfReverse(o, r);
    AtDegenerate(r, 0.0);
    assert SquaredDistance(o, At(r, r, 0.0)) <= Square(reach);
  }

  lemma SphereBoundSound(sqrt: real -> Distance, point: PointDistanceFunction, reference: Capsule, other: Capsule,
                         robot: Capsule)
    requires var r, o := Centre(reference.head, reference.tail), Centre(other.head, other.tail);
             point(r, robot.head, robot.tail) <= point(o, robot.head, robot.tail) + sqrt(SquaredDistance(r, o))
    ensures SphereMetric(sqrt, point).ReuseSound(reference, other, robot)
  {
  }

  /** The distances as the program computes them. */
  function ComputedCapsuleMetric(sqrt: real -> Distance): Metric {
    CapsuleMetric((h1, t1, h2, t2) => SegmentDistance(sqrt, h1, t1, h2, t2), (p, h, t) => PointDistance(sqrt, p, h, t))
  }

  /** With the computed distances, reuse for capsules is sound whenever the one distance between the
      reference human and the robot is exact; `SegmentDistanceExact` says when it is. */
  lemma ComputedCapsuleReuseSound(sqrt: real -> Distance, reference: Capsule, other: Capsule, robot: Capsule)
    requires IsSquareRoot(sqrt)
    requires IsDistance(SegmentDistance(sqrt, reference.head, reference.tail, robot.head, robot.tail),
                        reference.head, reference.tail, robot.head, robot.tail)
    ensures ComputedCapsuleMetric(sqrt).ReuseSound(reference, other, robot)
  {
    var segment := (h1, t1, h2, t2) => SegmentDistance(sqrt, h1, t1, h2, t2);
    var point := (p, h, t) => PointDistance(sqrt, p, h, t);
    var s, t := SegmentDistanceAttained(sqrt, other.head, other.tail, robot.head, robot.tail);
    forall p ensures Attained(point(p, reference.head, reference.tail), p, p, reference.head, reference.tail) {
      PointIsDegenerateSegment(sqrt, p, reference.head, reference.tail);
      var x, y := SegmentDistanceAttained(sqrt, p, p, reference.head, reference.tail);
    }
    CapsuleReuseSound(segment, point, reference, other, robot);
  }

  /** A point of a segment, so close to its head that its parameter is snapped: the distance is zero, but it is
      computed from the head. */
  lemma PointDistanceOverestimated(sqrt: real -> Distance, h: Point, t: Point, s: real)
    requires IsSquareRoot(sqrt) && 0.0 < s <= 1.0 && 0.0 < s * SquaredDistance(t, h) < SMALL_VALUE
    ensures !IsDistance(PointDistance(sqrt, At(h, t, s), h, t), At(h, t, s), At(h, t, s), h, t)
  {
    hide *;
    PointDistanceExact(sqrt, At(h, t, s), h, t);
    CloseToHead(h, t, s);
  }

  lemma CloseToHead(h: Point, t: Point, s: real)
    requires 0.0 < s <= 1.0 && 0.0 < s * SquaredDistance(t, h) < SMALL_VALUE
    ensures var q := ProductsOf(At(h, t, s), At(h, t, s), h, t); PointSnapped(q.c, q.e)
  {
    hide SquaredDistance, ProductsOf, At;
    CloseProducts(h, t, s);
    PositiveFactor(s, SquaredDistance(t, h));
  }

  lemma CloseProducts(h: Point, t: Point, s: real)
    ensures var q := ProductsOf(At(h, t, s), At(h, t, s), h, t);
            q.c == SquaredDistance(t, h) && q.e == s * SquaredDistance(t, h)
  {
    hide *;
    var v, w := t.Minus(h), At(h, t, s).Minus(h);
    DegenerateProducts(At(h, t, s), h, t);
    PartOf(h, t, s);
    NormOf(t, h);
  }

  lemma NormOf(t: Point, h: Point)
    ensures t.Minus(h).Dot(t.Minus(h)) == SquaredDistance(t, h)
  {
  }

  lemma PositiveFactor(x: real, y: real)
    requires x > 0.0 && x * y > 0.0
    ensures y > 0.0
  {
    ProductSign(x, y);
  }

  lemma PartOf(h: Point, t: Point, s: real)
    ensures t.Minus(h).Dot(At(h, t, s).Minus(h)) == s * SquaredDistance(t, h)
  {
    ScaledDot(t.Minus(h), s);
    assert At(h, t, s).Minus(h) == t.Minus(h).Times(s);
  }

  lemma ScaledDot(v: Point, s: real)
    ensures v.Dot(v.Times(s)) == s * v.Dot(v)
  {
  }

  /* Samples of a single point */

  function PointCapsule(p: Point): Capsule { Capsule(0, p, p, 0.0, 0.0) }

  /** Between points, all computed distances are exact. */
  lemma BetweenPoints(sqrt: real -> Distance, p: Point, q: Point)
    requires IsSquareRoot(sqrt)
    ensures var d := SegmentDistance(sqrt, p, p, q, q);
            Square(d) == SquaredDistance(p, q) && IsDistance(d, p, p, q, q) && PointDistance(sqrt, p, q, q) == d
  {
    hide *;
    PointIsDegenerateSegment(sqrt, p, q, q);
    SegmentDistanceExact(sqrt, p, p, q, q);
    BothDegenerate(p, q);
    var s, t := SegmentDistanceAttained(sqrt, p, p, q, q);
    AtDegenerate(p, s);
    AtDegenerate(q, t);
  }

  lemma BothDegenerate(p: Point, q: Point)
    ensures ProductsOf(p, p, q, q).c == 0.0 && ProductsOf(p, p, q, q).d == 0.0
  {
    DegenerateProducts(p, q, q);
    assert q.Minus(q) == Point(0.0, 0.0, 0.0);
    ZeroDot(q.Minus(q));
  }

  lemma RootOfZero(d: Distance)
    ensures Square(d) == 0.0 <==> d == 0.0
  {
    SquareNonNegative(d);
  }

  /** The distances of such samples, by the metric of the program. */
  lemma PointCapsulesMeasured(sqrt: real -> Distance, p: Point, q: Point)
    requires IsSquareRoot(sqrt)
    ensures var m := ComputedCapsuleMetric(sqrt);
            && m.humanHuman(PointCapsule(p), PointCapsule(p)) == 0.0
            && (m.humanRobot(PointCapsule(p), PointCapsule(q)) == 0.0 <==> p == q)
  {
    hide SegmentDistance, PointDistance, IsSquareRoot, IsDistance, SquaredDistance, Square;
    BetweenPoints(sqrt, p, p);
    BetweenPoints(sqrt, p, q);
    RootOfZero(SegmentDistance(sqrt, p, p, p, p));
    RootOfZero(SegmentDistance(sqrt, p, p, q, q));
    NoDistance(p, p);
    NoDistance(p, q);
  }

  lemma NoDistance(p: Point, q: Point)
    ensures SquaredDistance(p, q) == 0.0 <==> p == q
  {
    SquaredNormNonNegative(p.Minus(q));
    if p == q {
      assert p.Minus(q) == Point(0.0, 0.0, 0.0);
      ZeroDot(p.Minus(q));
    } else {
      DifferenceNonZero(p, q);
    }
  }

  /** Why that one distance must be exact: from a human sample that ends in a robot sample of a single point, the
      distance to the robot is overestimated, the barrier is kept for a human sample at that very point, and the
      collision there is missed. */
  lemma OverestimateUnsound(sqrt: real -> Distance, h: Point, p: Point)
    requires IsSquareRoot(sqrt) && SquaredDistance(p, h) >= SMALL_VALUE
    ensures var m, reference := ComputedCapsuleMetric(sqrt), Capsule(0, h, p, 0.0, 0.0);
            && m.humanRobot(reference, PointCapsule(p)) > m.humanHuman(reference, PointCapsule(p)) == 0.0
            && m.humanRobot(PointCapsule(p), PointCapsule(p)) == 0.0
            && !m.ReuseSound(reference, PointCapsule(p), PointCapsule(p))
  {
    hide SegmentDistance, PointDistance, IsSquareRoot, IsDistance, SquaredDistance, Square, At;
    NoDistance(p, h);
    PointSecondOverestimated(sqrt, h, p);
    EndsTouch(sqrt, h, p);
    OfItself(sqrt, h, p);
    PointCapsulesMeasured(sqrt, p, p);
  }

  /** The distance is zero, so any other value is not the distance. */
  lemma EndsTouch(sqrt: real -> Distance, h: Point, p: Point)
    requires IsSquareRoot(sqrt)
    ensures SegmentDistance(sqrt, h, p, p, p) == 0.0 ==> IsDistance(SegmentDistance(sqrt, h, p, p, p), h, p, p, p)
  {
    hide *;
    var s, t := SegmentDistanceAttained(sqrt, h, p, p, p);
    if SegmentDistance(sqrt, h, p, p, p) == 0.0 {
      ZeroIsDistance(0.0, h, p, p, p, s, t);
    }
  }

  lemma ZeroIsDistance(d: real, h1: Point, t1: Point, h2: Point, t2: Point, s: real, t: real)
    requires d == 0.0 && InUnit(s) && InUnit(t) && SquaredDistance(At(h1, t1, s), At(h2, t2, t)) == Square(d)
    ensures IsDistance(d, h1, t1, h2, t2)
  {
    hide SquaredDistance, At, InUnit;
    forall x, y | InUnit(x) && InUnit(y) ensures SquaredDistance(At(h1, t1, x), At(h2, t2, y)) >= Square(d) {
      DistanceNonNegative(At(h1, t1, x), At(h2, t2, y));
    }
  }

  lemma DistanceNonNegative(p: Point, q: Point)
    ensures SquaredDistance(p, q) >= 0.0
  {
    SquaredNormNonNegative(p.Minus(q));
  }

  lemma OfItself(sqrt: real -> Distance, h: Point, p: Point)
    requires IsSquareRoot(sqrt) && SquaredDistance(p, h) >= SMALL_VALUE
    ensures PointDistance(sqrt, p, h, p) == 0.0
  {
    hide *;
    FullProducts(h, p);
    PointDistanceExact(sqrt, p, h, p);
    NotBeyond(PointDistance(sqrt, p, h, p), h, p);
  }

  lemma AtTail(h: Point, p: Point)
    ensures At(h, p, 1.0) == p
  {
  }

  lemma FullProducts(h: Point, p: Point)
    requires SquaredDistance(p, h) >= SMALL_VALUE
    ensures var q := ProductsOf(p, p, h, p); !PointSnapped(q.c, q.e)
  {
    hide SquaredDistance, ProductsOf, At;
    AtTail(h, p);
    CloseProducts(h, p, 1.0);
  }

  lemma NotBeyond(d: Distance, h: Point, p: Point)
    requires IsDistance(d, p, p, h, p)
    ensures d == 0.0
  {
    hide SquaredDistance, At, Square;
    AtDegenerate(p, 0.0);
    AtTail(h, p);
    NoDistance(p, p);
    RootOfZero(d);
    SquareNonNegative(d);
    assert SquaredDistance(At(p, p, 0.0), At(h, p, 1.0)) >= Square(d);
  }
}
