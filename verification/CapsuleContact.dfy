/** What the distances between samples mean: the least distances between the points of two capsules. */
module CapsuleContacts {
  import opened Capsules
  import opened Geometry
  import opened SegmentDistances
  import opened ReuseBounds
  import opened BodySamples

  /* Points along a line */

  lemma LinePoints(p: Point, q: Point)
    ensures At(p, q, 0.0) == p && At(p, q, 1.0) == q
  {
  }

  lemma AlongLine(p: Point, q: Point, u: real, v: real)
    ensures At(p, q, u).Minus(At(p, q, v)) == q.Minus(p).Times(u - v)
  {
    AlongCoordinate(p.x, q.x, u, v);
    AlongCoordinate(p.y, q.y, u, v);
    AlongCoordinate(p.z, q.z, u, v);
  }

  lemma AlongCoordinate(p: real, q: real, u: real, v: real)
    ensures (p + u * (q - p)) - (p + v * (q - p)) == (u - v) * (q - p)
  {
  }

  lemma ScaledNorm(p: Point, k: real)
    ensures SquaredNorm(p.Times(k)) == Product(Square(k), SquaredNorm(p))
  {
    OffsetNorm(p.x, p.y, p.z, k);
  }

  lemma SquareOfProduct(k: real, d: real)
    ensures Product(Square(k), Square(d)) == Square(Product(k, d))
  {
  }

  /** The distance of two points along the line from p to q, which are d apart. */
  lemma DistanceAlong(p: Point, q: Point, d: real, u: real, v: real)
    requires SquaredDistance(p, q) == Square(d)
    ensures SquaredDistance(At(p, q, u), At(p, q, v)) == Square(Product(u - v, d))
  {
    hide At, SquaredNorm, Square, Product;
    AlongLine(p, q, u, v);
    SquaredDistanceSymmetric(p, q);
    var k := u - v;
    ScaledNorm(q.Minus(p), k);
    SquareOfProduct(k, d);
  }

  /** The point on the way from p to q that is r away from p, or q if that is not farther. */
  lemma WithinOf(p: Point, q: Point, d: Distance, r: Distance) returns (x: Point)
    requires SquaredDistance(p, q) == Square(d)
    ensures SquaredDistance(x, p) <= Square(r)
    ensures SquaredDistance(x, q) == Square(if d <= r then 0.0 else d - r)
  {
    hide SquaredDistance, At, Square;
    LinePoints(p, q);
    if d <= r {
      x := q;
      DistanceAlong(p, q, d, 1.0, 1.0);
      SquaredDistanceSymmetric(p, q);
      SquareMonotone(d, r);
      assert Product(1.0 - 1.0, d) == 0.0;
    } else {
      var u := r / d;
      x := At(p, q, u);
      DistanceAlong(p, q, d, u, 0.0);
      DistanceAlong(p, q, d, u, 1.0);
      assert Product(u - 0.0, d) == r && Product(u - 1.0, d) == -(d - r);
      SquareOfNegative(d - r);
    }
  }

  lemma SquareOfNegative(x: real)
    ensures Square(-x) == Square(x)
  {
  }

  /* Distances between capsules */

  /** Two points, each within reach of a segment point, are no closer than these are without the reaches. */
  lemma ReachesLose(p: Point, q: Point, x: Point, y: Point, ra: real, rb: real, d: real, m: Distance)
    requires ra >= 0.0 && rb >= 0.0 && SquaredDistance(p, x) <= Square(ra) && SquaredDistance(q, y) <= Square(rb)
    requires SquaredDistance(x, y) >= Square(d) && SquaredDistance(p, q) <= Square(m)
    ensures d <= ra + m + rb
  {
    hide SquaredDistance, Square;
    TriangleAtMost(p, x, q, ra, m);
    SquaredDistanceSymmetric(x, q);
    TriangleAtMost(q, x, y, ra + m, rb);
    SquareReflectsOrder(d, ra + m + rb);
  }

  /** Error and thickness are such that both capsules hold their segments. */
  predicate Reaches(a: Capsule, b: Capsule) {
    a.error + a.thickness >= 0.0 && b.error + b.thickness >= 0.0
  }

  /** No points of the two capsules are closer than the distance of the barriers, where the distance of the segments
      is exact. */
  lemma GapIsLower(sqrt: real -> Distance, a: Capsule, b: Capsule, p: Point, q: Point)
    requires IsSquareRoot(sqrt) && Reaches(a, b) && InCapsule(p, a) && InCapsule(q, b)
    requires IsDistance(SegmentDistance(sqrt, a.head, a.tail, b.head, b.tail), a.head, a.tail, b.head, b.tail)
    ensures SquaredDistance(p, q) >= Square(ComputedCapsuleMetric(sqrt).humanRobot(a, b))
  {
    hide SquaredDistance, Square, SegmentDistance, At;
    var d := SegmentDistance(sqrt, a.head, a.tail, b.head, b.tail);
    var s :| InUnit(s) && SquaredDistance(p, At(a.head, a.tail, s)) <= Square(a.error + a.thickness);
    var t :| InUnit(t) && SquaredDistance(q, At(b.head, b.tail, t)) <= Square(b.error + b.thickness);
    SquaredDistanceNonNegative(p, q);
    var m := sqrt(SquaredDistance(p, q));
    ReachesLose(p, q, At(a.head, a.tail, s), At(b.head, b.tail, t), a.error + a.thickness, b.error + b.thickness, d, m);
    SquareMonotone(ComputedCapsuleMetric(sqrt).humanRobot(a, b), m);
  }

  /** And some are as close as that, whether it is exact or not. */
  lemma GapIsAttained(sqrt: real -> Distance, a: Capsule, b: Capsule) returns (p: Point, q: Point)
    requires IsSquareRoot(sqrt) && Reaches(a, b)
    ensures InCapsule(p, a) && InCapsule(q, b)
    ensures SquaredDistance(p, q) == Square(ComputedCapsuleMetric(sqrt).humanRobot(a, b))
  {
    hide SquaredDistance, Square, SegmentDistance, At;
    var d := SegmentDistance(sqrt, a.head, a.tail, b.head, b.tail);
    var s, t := SegmentDistanceAttained(sqrt, a.head, a.tail, b.head, b.tail);
    var x, y := At(a.head, a.tail, s), At(b.head, b.tail, t);
    p := WithinOf(x, y, d, a.error + a.thickness);
    var d' := if d <= a.error + a.thickness then 0.0 else d - (a.error + a.thickness);
    SquaredDistanceSymmetric(p, y);
    q := WithinOf(y, p, d', b.error + b.thickness);
    SquaredDistanceSymmetric(p, q);
  }

  /** The distance of the barriers between a human and a robot sample is the least distance between points of their
      capsules. */
  lemma GapIsLeast(sqrt: real -> Distance, a: Capsule, b: Capsule)
    requires IsSquareRoot(sqrt) && Reaches(a, b)
    requires IsDistance(SegmentDistance(sqrt, a.head, a.tail, b.head, b.tail), a.head, a.tail, b.head, b.tail)
    ensures var gap := ComputedCapsuleMetric(sqrt).humanRobot(a, b);
            && (forall p, q :: InCapsule(p, a) && InCapsule(q, b) ==> SquaredDistance(p, q) >= Square(gap))
            && (exists p, q :: InCapsule(p, a) && InCapsule(q, b) && SquaredDistance(p, q) == Square(gap))
  {
    hide *;
    forall p, q | InCapsule(p, a) && InCapsule(q, b)
      ensures SquaredDistance(p, q) >= Square(ComputedCapsuleMetric(sqrt).humanRobot(a, b))
    {
      GapIsLower(sqrt, a, b, p, q);
    }
    var p, q := GapIsAttained(sqrt, a, b);
  }

  /** Samples that touch have a point in common, whether the distance is exact or not. */
  lemma TouchIsContact(sqrt: real -> Distance, a: Capsule, b: Capsule) returns (p: Point)
    requires IsSquareRoot(sqrt) && Reaches(a, b) && Touch(sqrt, a, b)
    ensures InCapsule(p, a) && InCapsule(p, b)
  {
    hide InCapsule, SquaredDistance, Square, SegmentDistance, ComputedCapsuleMetric, Touch, IsSquareRoot;
    TouchAgreesWithMetric(sqrt, a, b);
    var q;
    p, q := GapIsAttained(sqrt, a, b);
    RootOfZero(ComputedCapsuleMetric(sqrt).humanRobot(a, b));
    NoDistance(p, q);
  }

  /** Two samples touch exactly if their capsules have a point in common, where the distance of their segments is
      exact. */
  lemma TouchIffContact(sqrt: real -> Distance, a: Capsule, b: Capsule)
    requires IsSquareRoot(sqrt) && Reaches(a, b)
    requires IsDistance(SegmentDistance(sqrt, a.head, a.tail, b.head, b.tail), a.head, a.tail, b.head, b.tail)
    ensures Touch(sqrt, a, b) <==> exists p :: InCapsule(p, a) && InCapsule(p, b)
    ensures Touch(sqrt, a, b) <==> ComputedCapsuleMetric(sqrt).humanRobot(a, b) == 0.0
  {
    hide InCapsule, SquaredDistance, Square, SegmentDistance, ComputedCapsuleMetric, Touch, IsSquareRoot, IsDistance;
    TouchAgreesWithMetric(sqrt, a, b);
    if Touch(sqrt, a, b) { var p := TouchIsContact(sqrt, a, b); }
    if p :| InCapsule(p, a) && InCapsule(p, b) {
      GapIsLower(sqrt, a, b, p, p);
      NoDistance(p, p);
      SquareNonNegative(ComputedCapsuleMetric(sqrt).humanRobot(a, b));
    }
  }

  /** A point of the body, no farther than its thickness from a segment that was observed, lies in the capsule of the
      sample. */
  lemma BodyInCapsule(sqrt: real -> Distance, heads: seq<Point>, tails: seq<Point>, h: Point, t: Point, c: Capsule,
                      s: real, p: Point)
    requires IsSquareRoot(sqrt) && h in heads && t in tails && InUnit(s) && c.thickness >= 0.0
    requires Bounds(heads).Box? && Bounds(tails).Box?
    requires c.head == Bounds(heads).Centre() && c.tail == Bounds(tails).Centre()
    requires c.error == Max(Bounds(heads).CircleRadius(sqrt), Bounds(tails).CircleRadius(sqrt))
    requires SquaredDistance(p, At(h, t, s)) <= Square(c.thickness)
    ensures InCapsule(p, c)
  {
    hide SquaredDistance, Square, At, Bounds;
    ObservedSegmentWithinError(sqrt, heads, tails, h, t, c.error, s);
    SquaredDistanceSymmetric(p, At(h, t, s));
    TriangleAtMost(At(h, t, s), p, At(c.head, c.tail, s), c.thickness, c.error);
  }

  /** So if a point of one body, as observed, is a point of the other, the samples touch. */
  lemma ObservedContactTouches(sqrt: real -> Distance, a: BodySegmentSample, b: BodySegmentSample, i: nat, j: nat,
                               k: nat, l: nat, s: real, t: real, p: Point)
    requires IsSquareRoot(sqrt) && a.Valid() && b.Valid() && a.sqrt == sqrt == b.sqrt && !a.isEmpty && !b.isEmpty
    requires a.thickness >= 0.0 && b.thickness >= 0.0 && InUnit(s) && InUnit(t)
    requires i < |a.heads| && j < |a.tails| && SquaredDistance(p, At(a.heads[i], a.tails[j], s)) <= Square(a.thickness)
    requires k < |b.heads| && l < |b.tails| && SquaredDistance(p, At(b.heads[k], b.tails[l], t)) <= Square(b.thickness)
    requires var c, d := a.Value(), b.Value();
             IsDistance(SegmentDistance(sqrt, c.head, c.tail, d.head, d.tail), c.head, c.tail, d.head, d.tail)
    ensures Touch(sqrt, a.Value(), b.Value())
  {
    hide SquaredDistance, Square, At, SegmentDistance, InCapsule, Touch, IsDistance;
    BodyInCapsule(sqrt, a.heads, a.tails, a.heads[i], a.tails[j], a.Value(), s, p);
    BodyInCapsule(sqrt, b.heads, b.tails, b.heads[k], b.tails[l], b.Value(), t, p);
    TouchIffContact(sqrt, a.Value(), b.Value());
  }

  /** The bounding sphere of a sample, as a capsule. */
  function Ball(sqrt: real -> Distance, c: Capsule): Capsule {
    var sphere := BoundingSphere(sqrt, c);
    Capsule(0, sphere.centre, sphere.centre, 0.0, sphere.radius)
  }

  /** Sphere sections take a human sample for its bounding sphere, and measure as capsule sections do. */
  lemma SphereIsBall(sqrt: real -> Distance, reference: Capsule, other: Capsule, robot: Capsule)
    requires IsSquareRoot(sqrt)
    ensures var sphere, capsule := SphereMetric(sqrt, (p, h, t) => PointDistance(sqrt, p, h, t)),
                                   ComputedCapsuleMetric(sqrt);
            && sphere.humanRobot(reference, robot) == capsule.humanRobot(Ball(sqrt, reference), robot)
            && sphere.humanHuman(reference, other) == capsule.humanHuman(Ball(sqrt, reference), Ball(sqrt, other))
  {
    hide SegmentDistance, PointDistance;
    var r, o := BoundingSphere(sqrt, reference).centre, BoundingSphere(sqrt, other).centre;
    PointIsDegenerateSegment(sqrt, r, robot.head, robot.tail);
    DistanceOfPoints(sqrt, o, r);
    SquaredDistanceSymmetric(r, o);
  }

  lemma DistanceOfPoints(sqrt: real -> Distance, p: Point, q: Point)
    ensures SquaredDistance(p, q) >= 0.0 && PointDistance(sqrt, p, q, q) == sqrt(SquaredDistance(p, q))
  {
    hide SquaredDistance, Point.Dot, Point.Minus, PointParameter, At;
    SquaredDistanceNonNegative(p, q);
    var v := q.Minus(q);
    SquaredNormNonNegative(v);
    AtDegenerate(q, PointParameter(v.Dot(v), v.Dot(p.Minus(q))));
  }

  /* How far a human sample reaches out of another */

  /** No point of the other capsule is farther from the reference one than the distance that the barriers are kept
      by. */
  lemma ReachIsUpper(sqrt: real -> Distance, reference: Capsule, other: Capsule, p: Point) returns (q: Point)
    requires IsSquareRoot(sqrt) && Reaches(reference, other) && InCapsule(p, other)
    ensures InCapsule(q, reference)
    ensures SquaredDistance(p, q) <= Square(ComputedCapsuleMetric(sqrt).humanHuman(reference, other))
  {
    hide SquaredDistance, Square, PointDistance, At;
    var s :| InUnit(s) && SquaredDistance(p, At(other.head, other.tail, s)) <= Square(other.error + other.thickness);
    var reach := EndsReach(sqrt, reference, other);
    ReachConvex(other.head, other.tail, s, reach, reference.head, reference.tail);
    var x := At(other.head, other.tail, s);
    var u :| InUnit(u) && SquaredDistance(x, At(reference.head, reference.tail, u)) <= Square(reach);
    var z := At(reference.head, reference.tail, u);
    SquaredDistanceSymmetric(p, x);
    TriangleAtMost(x, p, z, other.error + other.thickness, reach);
    SquaredDistanceNonNegative(p, z);
    var d := sqrt(SquaredDistance(p, z));
    SquareReflectsOrder(d, other.error + other.thickness + reach);
    SquaredDistanceSymmetric(p, z);
    q := WithinOf(z, p, d, reference.error + reference.thickness);
    SquaredDistanceSymmetric(p, q);
    var excess: Distance := if d <= reference.error + reference.thickness then 0.0
                            else d - (reference.error + reference.thickness);
    SquareMonotone(excess, ComputedCapsuleMetric(sqrt).humanHuman(reference, other));
  }

  /** The farther of the two ends. */
  lemma EndsReach(sqrt: real -> Distance, reference: Capsule, other: Capsule) returns (reach: Distance)
    requires IsSquareRoot(sqrt)
    ensures WithinReach(other.head, reach, reference.head, reference.tail)
    ensures WithinReach(other.tail, reach, reference.head, reference.tail)
    ensures ComputedCapsuleMetric(sqrt).humanHuman(reference, other) ==
            Max(0.0, reach + other.thickness + other.error - reference.thickness - reference.error)
    ensures reach == PointDistance(sqrt, other.head, reference.head, reference.tail) ||
            reach == PointDistance(sqrt, other.tail, reference.head, reference.tail)
  {
    hide SquaredDistance, PointDistance, WithinReach;
    var mh := PointDistance(sqrt, other.head, reference.head, reference.tail);
    var mt := PointDistance(sqrt, other.tail, reference.head, reference.tail);
    reach := Max(mh, mt);
    PointAttained(sqrt, other.head, reference.head, reference.tail);
    PointAttained(sqrt, other.tail, reference.head, reference.tail);
    AttainedWithin(other.head, mh, reach, reference.head, reference.tail);
    AttainedWithin(other.tail, mt, reach, reference.head, reference.tail);
  }

  lemma PointAttained(sqrt: real -> Distance, p: Point, head: Point, tail: Point)
    requires IsSquareRoot(sqrt)
    ensures Attained(PointDistance(sqrt, p, head, tail), p, p, head, tail)
  {
    hide SegmentDistance, PointDistance, SquaredDistance;
    PointIsDegenerateSegment(sqrt, p, head, tail);
    var s, t := SegmentDistanceAttained(sqrt, p, p, head, tail);
  }

  /** The closest point of a segment sees the rest of it behind: the way to it makes no acute angle with the way to any
      other point of the segment. */
  lemma ClosestSeesBehind(v: Point, w: Point)
    requires forall e :: InUnit(e) ==> SquaredNorm(v.Minus(w.Times(e))) >= SquaredNorm(v)
    ensures v.Dot(w) <= 0.0
  {
    hide SquaredNorm, Point.Dot;
    var a, b := v.Dot(w), SquaredNorm(w);
    SquaredNormNonNegative(w);
    if a > 0.0 {
      CauchySchwarz(v, w);
      var e := if a >= b then 1.0 else a / b;
      StepNorm(v, w, e);
      StepGains(a, b, e);
    }
  }

  lemma StepNorm(v: Point, w: Point, e: real)
    ensures SquaredNorm(v.Minus(w.Times(e))) ==
            SquaredNorm(v) - 2.0 * Product(e, v.Dot(w)) + Product(Square(e), SquaredNorm(w))
  {
    StepCoordinate(v.x, w.x, e);
    StepCoordinate(v.y, w.y, e);
    StepCoordinate(v.z, w.z, e);
    StepSums(e, v.x * w.x, v.y * w.y, v.z * w.z, w.x * w.x, w.y * w.y, w.z * w.z);
  }

  lemma StepCoordinate(v: real, w: real, e: real)
    ensures (v - e * w) * (v - e * w) == v * v - 2.0 * Product(e, v * w) + Product(Square(e), w * w)
  {
  }

  lemma StepSums(e: real, a: real, b: real, c: real, x: real, y: real, z: real)
    ensures Product(e, a) + Product(e, b) + Product(e, c) == Product(e, a + b + c)
    ensures Product(Square(e), x) + Product(Square(e), y) + Product(Square(e), z) == Product(Square(e), x + y + z)
  {
  }

  lemma StepGains(a: real, b: real, e: real)
    requires a > 0.0 && b >= 0.0 && e == (if a >= b then 1.0 else a / b)
    ensures 0.0 <= e <= 1.0 && Product(Square(e), b) < 2.0 * Product(e, a)
  {
    if a >= b {
      assert Product(Square(1.0), b) == b && Product(1.0, a) == a;
    } else {
      assert Product(e, b) == a;
      assert Product(Square(e), b) == Product(e, a);
      ProductPositive(e, a);
    }
  }

  /** Every point of the segment is at least d away from p. */
  ghost predicate AwayFrom(p: Point, d: real, head: Point, tail: Point) {
    forall t :: InUnit(t) ==> SquaredDistance(p, At(head, tail, t)) >= Square(d)
  }

  lemma FromOfAt(h: Point, head: Point, tail: Point, u: real, t: real, e: real)
    ensures h.Minus(At(head, tail, u + (t - u) * e)) ==
            h.Minus(At(head, tail, u)).Minus(At(head, tail, t).Minus(At(head, tail, u)).Times(e))
  {
    FromOfAtCoordinate(h.x, head.x, tail.x, u, t, e);
    FromOfAtCoordinate(h.y, head.y, tail.y, u, t, e);
    FromOfAtCoordinate(h.z, head.z, tail.z, u, t, e);
  }

  lemma FromOfAtCoordinate(h: real, x: real, y: real, u: real, t: real, e: real)
    ensures h - (x + (u + (t - u) * e) * (y - x)) ==
            (h - (x + u * (y - x))) - e * ((x + t * (y - x)) - (x + u * (y - x)))
  {
  }

  lemma BehindClosest(h: Point, d: Distance, head: Point, tail: Point, u: real, t: real)
    requires AwayFrom(h, d, head, tail) && InUnit(u) && InUnit(t)
    requires SquaredDistance(h, At(head, tail, u)) == Square(d)
    ensures h.Minus(At(head, tail, u)).Dot(At(head, tail, t).Minus(At(head, tail, u))) <= 0.0
  {
    hide At, Square, SquaredNorm;
    var v, w := h.Minus(At(head, tail, u)), At(head, tail, t).Minus(At(head, tail, u));
    forall e | InUnit(e) ensures SquaredNorm(v.Minus(w.Times(e))) >= SquaredNorm(v) {
      BetweenInUnit(u, t, e);
      FromOfAt(h, head, tail, u, t, e);
    }
    ClosestSeesBehind(v, w);
  }

  /** Going on beyond h, away from the closest point of the segment, takes one away from all of it. */
  lemma BeyondIsAway(h: Point, d: Distance, r: Distance, head: Point, tail: Point, u: real) returns (p: Point)
    requires AwayFrom(h, d, head, tail) && InUnit(u) && d > 0.0
    requires SquaredDistance(h, At(head, tail, u)) == Square(d)
    ensures SquaredDistance(p, h) <= Square(r) && AwayFrom(p, d + r, head, tail)
  {
    hide At, Square, SquaredDistance;
    var z, k := At(head, tail, u), (d + r) / d;
    p := At(z, h, k);
    LinePoints(z, h);
    SquaredDistanceSymmetric(h, z);
    DistanceAlong(z, h, d, k, 1.0);
    assert Product(k - 1.0, d) == r && Product(k, d) == d + r;
    forall t | InUnit(t) ensures SquaredDistance(p, At(head, tail, t)) >= Square(d + r) {
      BehindClosest(h, d, head, tail, u, t);
      Stretched(h, z, At(head, tail, t), d, k);
    }
  }

  lemma Stretched(h: Point, z: Point, y: Point, d: Distance, k: real)
    requires SquaredDistance(h, z) == Square(d) && k >= 0.0 && h.Minus(z).Dot(y.Minus(z)) <= 0.0
    ensures SquaredDistance(At(z, h, k), y) >= Square(Product(k, d))
  {
    hide Square, SquaredNorm, Point.Dot;
    var v, w := h.Minus(z), y.Minus(z);
    FromStretched(h, z, y, k);
    StretchedNorm(v, w, k);
    SquaredNormNonNegative(w);
    ProductNonNegative(k, -v.Dot(w));
    assert Product(k, -v.Dot(w)) == -Product(k, v.Dot(w));
    SquareOfProduct(k, d);
  }

  lemma FromStretched(h: Point, z: Point, y: Point, k: real)
    ensures At(z, h, k).Minus(y) == h.Minus(z).Times(k).Minus(y.Minus(z))
  {
  }

  lemma StretchedNorm(v: Point, w: Point, k: real)
    ensures SquaredNorm(v.Times(k).Minus(w)) ==
            Product(Square(k), SquaredNorm(v)) - 2.0 * Product(k, v.Dot(w)) + SquaredNorm(w)
  {
    StretchedCoordinate(v.x, w.x, k);
    StretchedCoordinate(v.y, w.y, k);
    StretchedCoordinate(v.z, w.z, k);
    StepSums(k, v.x * w.x, v.y * w.y, v.z * w.z, v.x * v.x, v.y * v.y, v.z * v.z);
  }

  lemma StretchedCoordinate(v: real, w: real, k: real)
    ensures (k * v - w) * (k * v - w) == Product(Square(k), v * v) - 2.0 * Product(k, v * w) + w * w
  {
  }

  /** A direction of length one across a segment. */
  lemma Across(sqrt: real -> Distance, v: Point) returns (n: Point)
    requires IsSquareRoot(sqrt)
    ensures v.Dot(n) == 0.0 && SquaredNorm(n) == 1.0
  {
    if v.x == 0.0 && v.y == 0.0 {
      n := Point(1.0, 0.0, 0.0);
      FirstAxis(v);
    } else {
      var e := Point(v.y, -v.x, 0.0);
      var l := SquaredNorm(e);
      SquaredNormNonNegative(e);
      var d := sqrt(l);
      RootOfZero(d);
      n := e.Times(1.0 / d);
      Normalised(e, d);
      AcrossScaled(v, 1.0 / d);
    }
  }

  lemma FirstAxis(v: Point)
    requires v.x == 0.0
    ensures v.Dot(Point(1.0, 0.0, 0.0)) == 0.0 && SquaredNorm(Point(1.0, 0.0, 0.0)) == 1.0
  {
  }

  lemma Normalised(e: Point, d: Distance)
    requires d > 0.0 && Square(d) == SquaredNorm(e)
    ensures SquaredNorm(e.Times(1.0 / d)) == 1.0
  {
    hide SquaredNorm;
    ScaledNorm(e, 1.0 / d);
    SquareOfProduct(1.0 / d, d);
    assert Product(1.0 / d, d) == 1.0;
  }

  lemma AcrossScaled(v: Point, k: real)
    ensures v.Dot(Point(v.y, -v.x, 0.0).Times(k)) == 0.0
  {
    assert v.x * (k * v.y) == v.y * (k * v.x);
    assert v.y * (k * -v.x) == -(v.y * (k * v.x));
  }

  /** From a point of the segment, going across takes one away from all of it. */
  lemma AcrossIsAway(sqrt: real -> Distance, r: Distance, head: Point, tail: Point, u: real) returns (p: Point)
    requires IsSquareRoot(sqrt)
    ensures SquaredDistance(p, At(head, tail, u)) <= Square(r) && AwayFrom(p, r, head, tail)
  {
    hide SquaredNorm, Square, At, Point.Dot, IsSquareRoot;
    var n := Across(sqrt, tail.Minus(head));
    var h := At(head, tail, u);
    p := h.Plus(n.Times(r));
    PlusMinus(h, n.Times(r));
    ScaledNorm(n, r);
    assert Product(Square(r), 1.0) == Square(r);
    forall t | InUnit(t) ensures SquaredDistance(p, At(head, tail, t)) >= Square(r) {
      AlongLine(head, tail, u, t);
      AcrossNorm(tail.Minus(head), n, u - t, r);
      SquaredNormNonNegative(tail.Minus(head).Times(u - t));
      PlusFrom(h, n.Times(r), At(head, tail, t));
    }
  }

  lemma PlusMinus(h: Point, v: Point)
    ensures h.Plus(v).Minus(h) == v
  {
  }

  lemma PlusFrom(h: Point, v: Point, y: Point)
    ensures h.Plus(v).Minus(y) == h.Minus(y).Plus(v)
  {
  }

  lemma AcrossNorm(v: Point, n: Point, k: real, r: real)
    requires v.Dot(n) == 0.0 && SquaredNorm(n) == 1.0
    ensures SquaredNorm(v.Times(k).Plus(n.Times(r))) == SquaredNorm(v.Times(k)) + Square(r)
  {
    hide SquaredNorm, Square, Point.Dot;
    var w := n.Times(r);
    SumNorm(v.Times(k), w);
    ScaledNorm(n, r);
    BothScaled(v, n, k, r);
    assert Product(Square(r), 1.0) == Square(r);
    assert Product(Product(k, r), 0.0) == 0.0;
  }

  lemma SumNorm(v: Point, w: Point)
    ensures SquaredNorm(v.Plus(w)) == SquaredNorm(v) + 2.0 * v.Dot(w) + SquaredNorm(w)
  {
  }

  lemma BothScaled(v: Point, n: Point, k: real, r: real)
    ensures v.Times(k).Dot(n.Times(r)) == Product(Product(k, r), v.Dot(n))
  {
    BothScaledSum(v.x, v.y, v.z, n.x, n.y, n.z, k, r);
  }

  lemma BothScaledSum(a: real, b: real, c: real, x: real, y: real, z: real, k: real, r: real)
    ensures (k * a) * (r * x) + (k * b) * (r * y) + (k * c) * (r * z) ==
            Product(Product(k, r), a * x + b * y + c * z)
  {
  }

  /** And some point is as far as that, where the distances of the two ends are exact. */
  lemma ReachIsAttained(sqrt: real -> Distance, reference: Capsule, other: Capsule) returns (p: Point)
    requires IsSquareRoot(sqrt) && Reaches(reference, other)
    requires PointIsExact(sqrt, other.head, reference) && PointIsExact(sqrt, other.tail, reference)
    ensures InCapsule(p, other)
    ensures forall q :: InCapsule(q, reference) ==>
              SquaredDistance(p, q) >= Square(ComputedCapsuleMetric(sqrt).humanHuman(reference, other))
  {
    hide At, Square, SquaredDistance, PointDistance, IsSquareRoot, ComputedCapsuleMetric, PointIsExact, AwayFrom;
    var reach := EndsReach(sqrt, reference, other);
    var atHead := reach == PointDistance(sqrt, other.head, reference.head, reference.tail);
    var h := if atHead then other.head else other.tail;
    p := FarPoint(sqrt, h, reference, other.error + other.thickness);
    EndInCapsule(p, h, other);
    forall q | InCapsule(q, reference)
      ensures SquaredDistance(p, q) >= Square(ComputedCapsuleMetric(sqrt).humanHuman(reference, other))
    {
      FarFromCapsule(sqrt, p, q, reference, reach + (other.error + other.thickness));
      SquareMonotone(ComputedCapsuleMetric(sqrt).humanHuman(reference, other),
                     Max(0.0, reach + (other.error + other.thickness) - (reference.error + reference.thickness)));
    }
  }

  ghost predicate PointIsExact(sqrt: real -> Distance, p: Point, c: Capsule) {
    IsDistance(PointDistance(sqrt, p, c.head, c.tail), p, p, c.head, c.tail)
  }

  lemma FarPoint(sqrt: real -> Distance, h: Point, c: Capsule, r: Distance) returns (p: Point)
    requires IsSquareRoot(sqrt) && PointIsExact(sqrt, h, c)
    ensures SquaredDistance(p, h) <= Square(r)
    ensures AwayFrom(p, PointDistance(sqrt, h, c.head, c.tail) + r, c.head, c.tail)
  {
    hide At, Square, SquaredDistance, PointDistance, IsSquareRoot;
    var d := PointDistance(sqrt, h, c.head, c.tail);
    var s, u :| InUnit(s) && InUnit(u) && SquaredDistance(At(h, h, s), At(c.head, c.tail, u)) == Square(d);
    AtDegenerate(h, s);
    forall t | InUnit(t) ensures SquaredDistance(h, At(c.head, c.tail, t)) >= Square(d) {
      AtDegenerate(h, s);
      assert SquaredDistance(At(h, h, s), At(c.head, c.tail, t)) >= Square(d);
    }
    if d > 0.0 {
      p := BeyondIsAway(h, d, r, c.head, c.tail, u);
    } else {
      RootOfZero(d);
      NoDistance(h, At(c.head, c.tail, u));
      p := AcrossIsAway(sqrt, r, c.head, c.tail, u);
    }
  }

  lemma EndInCapsule(p: Point, h: Point, c: Capsule)
    requires (h == c.head || h == c.tail) && SquaredDistance(p, h) <= Square(c.error + c.thickness)
    ensures InCapsule(p, c)
  {
    hide At, SquaredDistance, Square;
    LinePoints(c.head, c.tail);
    if h == c.head { assert InUnit(0.0); } else { assert InUnit(1.0); }
  }

  lemma FarFromCapsule(sqrt: real -> Distance, p: Point, q: Point, c: Capsule, d: real)
    requires IsSquareRoot(sqrt) && InCapsule(q, c) && c.error + c.thickness >= 0.0 && AwayFrom(p, d, c.head, c.tail)
    ensures SquaredDistance(p, q) >= Square(Max(0.0, d - (c.error + c.thickness)))
  {
    hide At, SquaredDistance, Square;
    var t :| InUnit(t) && SquaredDistance(q, At(c.head, c.tail, t)) <= Square(c.error + c.thickness);
    SquaredDistanceNonNegative(p, q);
    var m := sqrt(SquaredDistance(p, q));
    NoDistance(p, p);
    SquareNonNegative(0.0);
    ReachesLose(p, q, p, At(c.head, c.tail, t), 0.0, c.error + c.thickness, d, m);
    SquareMonotone(Max(0.0, d - (c.error + c.thickness)), m);
  }
}
