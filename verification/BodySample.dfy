/** Samples of body segments: bounds of the observed end points, and the capsule, box and sphere around them. */
module BodySamples {
  import opened Capsules
  import opened Geometry
  import opened SegmentDistances
  import opened ReuseBounds

  function Min(x: real, y: real): real { if y < x then y else x }

  datatype Box = EmptyBox | Box(xl: real, xu: real, yl: real, yu: real, zl: real, zu: real) {
    predicate Contains(p: Point) {
      Box? && xl <= p.x <= xu && yl <= p.y <= yu && zl <= p.z <= zu
    }

    function Centre(): Point
      requires Box?
    {
      Point((xl + xu) / 2.0, (yl + yu) / 2.0, (zl + zu) / 2.0)
    }

    function SquaredDiagonal(): real
      requires Box?
    {
      Square(xu - xl) + Square(yu - yl) + Square(zu - zl)
    }

    function CircleRadius(sqrt: real -> Distance): Distance
      requires Box?
    {
      sqrt(SquaredDiagonal()) / 2.0
    }

    function Extended(p: Point): Box {
      if EmptyBox? then Box(p.x, p.x, p.y, p.y, p.z, p.z)
      else Box(Min(xl, p.x), Max(xu, p.x), Min(yl, p.y), Max(yu, p.y), Min(zl, p.z), Max(zu, p.z))
    }

    predicate Disjoint(other: Box)
      requires Box? && other.Box?
    {
      xu < other.xl || xl > other.xu || yu < other.yl || yl > other.yu || zu < other.zl || zl > other.zu
    }

    function Widened(v: real): Box
      requires Box?
    {
      Box(xl - v, xu + v, yl - v, yu + v, zl - v, zu + v)
    }
  }

  function Hull(p: Point, q: Point): Box {
    Box(Min(p.x, q.x), Max(p.x, q.x), Min(p.y, q.y), Max(p.y, q.y), Min(p.z, q.z), Max(p.z, q.z))
  }

  /** The bounds of a sequence of points. */
  function Bounds(ps: seq<Point>): Box {
    if ps == [] then EmptyBox else Bounds(ps[..|ps| - 1]).Extended(ps[|ps| - 1])
  }

  lemma {:induction false} BoundsContain(ps: seq<Point>)
    ensures Bounds(ps).Box? <==> ps != []
    ensures forall p :: p in ps ==> Bounds(ps).Contains(p)
  {
    if ps != [] {
      BoundsContain(ps[..|ps| - 1]);
      forall p | p in ps ensures Bounds(ps).Contains(p) {
        if p != ps[|ps| - 1] { assert p in ps[..|ps| - 1]; }
      }
    }
  }

  predicate Touches(ps: seq<Point>, b: Box)
    requires b.Box?
  {
    && (exists p :: p in ps && p.x == b.xl) && (exists p :: p in ps && p.x == b.xu)
    && (exists p :: p in ps && p.y == b.yl) && (exists p :: p in ps && p.y == b.yu)
    && (exists p :: p in ps && p.z == b.zl) && (exists p :: p in ps && p.z == b.zu)
  }

  lemma TouchesExtended(ps: seq<Point>, b: Box, p: Point)
    requires b.Box? && Touches(ps, b)
    ensures Touches(ps + [p], b.Extended(p))
  {
    var qs := ps + [p];
    assert qs[|ps|] == p;
    assert forall q :: q in ps ==> q in qs;
  }

  /** Each bound is a coordinate of one of the points. */
  lemma {:induction false} BoundsTight(ps: seq<Point>)
    requires ps != []
    ensures Bounds(ps).Box? && Touches(ps, Bounds(ps))
  {
    hide Touches;
    var n := |ps| - 1;
    assert ps == ps[..n] + [ps[n]];
    if n == 0 {
      assert ps[..0] == [];
      SinglePoint(ps[0]);
    } else {
      BoundsTight(ps[..n]);
      TouchesExtended(ps[..n], Bounds(ps[..n]), ps[n]);
    }
  }

  lemma SinglePoint(p: Point)
    ensures Touches([p], Box(p.x, p.x, p.y, p.y, p.z, p.z))
  {
    assert p in [p];
  }

  class BodySegmentSample {
    const segment: nat
    const thickness: real
    const sqrt: real -> Distance

    var isEmpty: bool
    var headBounds: Box
    var tailBounds: Box
    var headCentre: Option<Point>
    var tailCentre: Option<Point>
    var radius: Distance
    var bb: Option<Box>
    var bs: Option<Sphere>

    /** The end points observed so far. */
    ghost var heads: seq<Point>
    ghost var tails: seq<Point>

    ghost predicate Valid()
      reads this
    {
      && headBounds == Bounds(heads) && tailBounds == Bounds(tails)
      && headCentre == CentreOf(headBounds) && tailCentre == CentreOf(tailBounds)
      && (isEmpty <==> heads == [] || tails == [])
      && (!isEmpty ==> headBounds.Box? && tailBounds.Box? &&
                       radius == Max(headBounds.CircleRadius(sqrt), tailBounds.CircleRadius(sqrt)))
      && (!isEmpty && bb.Some? ==> bb.value == BoundingBox(Value()))
      && (!isEmpty && bs.Some? ==> bs.value == BoundingSphere(sqrt, Value()))
    }

    /** The capsule the sample stands for. */
    function Value(): Capsule
      requires headCentre.Some? && tailCentre.Some?
      reads this
    {
      Capsule(segment, headCentre.value, tailCentre.value, radius, thickness)
    }

    constructor (segment: nat, thickness: real, sqrt: real -> Distance)
      ensures Valid() && isEmpty && heads == tails == []
      ensures this.segment == segment && this.thickness == thickness && this.sqrt == sqrt
    {
      this.segment, this.thickness, this.sqrt := segment, thickness, sqrt;
      isEmpty := true;
      headBounds, tailBounds := EmptyBox, EmptyBox;
      headCentre, tailCentre := None, None;
      radius := 0.0;
      bb, bs := None, None;
      heads, tails := [], [];
    }

    method UpdateHead(head: Point)
      modifies this`headBounds, this`heads
      requires headBounds == Bounds(heads)
      ensures heads == old(heads) + [head] && headBounds == Bounds(heads)
    {
      headBounds := headBounds.Extended(head);
      heads := heads + [head];
      assert heads[..|heads| - 1] == old(heads);
    }

    method UpdateTail(tail: Point)
      modifies this`tailBounds, this`tails
      requires tailBounds == Bounds(tails)
      ensures tails == old(tails) + [tail] && tailBounds == Bounds(tails)
    {
      tailBounds := tailBounds.Extended(tail);
      tails := tails + [tail];
      assert tails[..|tails| - 1] == old(tails);
    }

    method WidenHeads(newHeads: seq<Point>, from: nat)
      requires headBounds == Bounds(heads) && from <= |newHeads|
      modifies this`headBounds, this`heads
      ensures heads == old(heads) + newHeads[from..] && headBounds == Bounds(heads)
    {
      hide *;
      var j := from;
      while j < |newHeads|
        invariant from <= j <= |newHeads|
        invariant heads == old(heads) + newHeads[from..j] && headBounds == Bounds(heads)
      {
        UpdateHead(newHeads[j]);
        j := j + 1;
      }
    }

    method WidenTails(newTails: seq<Point>, from: nat)
      requires tailBounds == Bounds(tails) && from <= |newTails|
      modifies this`tailBounds, this`tails
      ensures tails == old(tails) + newTails[from..] && tailBounds == Bounds(tails)
    {
      hide *;
      var j := from;
      while j < |newTails|
        invariant from <= j <= |newTails|
        invariant tails == old(tails) + newTails[from..j] && tailBounds == Bounds(tails)
      {
        UpdateTail(newTails[j]);
        j := j + 1;
      }
    }

    /** Widens the bounds by a batch of observed heads and tails: pairwise while both last, then the rest. */
    method WidenBounds(newHeads: seq<Point>, newTails: seq<Point>)
      requires headBounds == Bounds(heads) && tailBounds == Bounds(tails)
      modifies this`headBounds, this`tailBounds, this`heads, this`tails
      ensures heads == old(heads) + newHeads && tails == old(tails) + newTails
      ensures headBounds == Bounds(heads) && tailBounds == Bounds(tails)
    {
      hide *;
      var commonSize := if |newHeads| <= |newTails| then |newHeads| else |newTails|;
      var j := 0;
      while j < commonSize
        invariant 0 <= j <= commonSize
        invariant heads == old(heads) + newHeads[..j] && tails == old(tails) + newTails[..j]
        invariant headBounds == Bounds(heads) && tailBounds == Bounds(tails)
      {
        UpdateHead(newHeads[j]);
        UpdateTail(newTails[j]);
        j := j + 1;
      }
      WidenHeads(newHeads, commonSize);
      WidenTails(newTails, commonSize);
      assert newHeads[..commonSize] + newHeads[commonSize..] == newHeads;
      assert newTails[..commonSize] + newTails[commonSize..] == newTails;
    }

    /** Takes in a batch of observed heads and tails: the sample then stands for all observed so far. */
    method Update(newHeads: seq<Point>, newTails: seq<Point>)
      requires Valid()
      modifies this
      ensures Valid() && heads == old(heads) + newHeads && tails == old(tails) + newTails
    {
      WidenBounds(newHeads, newTails);
      BoundsContain(heads);
      BoundsContain(tails);
      if isEmpty && headBounds.Box? && tailBounds.Box? {
        isEmpty := false;
      }
      if newHeads != [] {
        headCentre := Some(headBounds.Centre());
      }
      if newTails != [] {
        tailCentre := Some(tailBounds.Centre());
      }
      assert newHeads == [] ==> heads == old(heads);
      assert newTails == [] ==> tails == old(tails);
      if !isEmpty {
        Recalculate();
      }
    }

    /** Whatever segment joins an observed head to an observed tail stays, point for point, within the
        sample's error of the sample's own segment. */
    lemma OverApproximates(h: Point, t: Point, s: real)
      requires Valid() && !isEmpty && IsSquareRoot(sqrt) && h in heads && t in tails && InUnit(s)
      ensures headCentre.Some? && tailCentre.Some?
      ensures SquaredDistance(At(h, t, s), At(Value().head, Value().tail, s)) <= Square(Value().error)
    {
      ObservedSegmentWithinError(sqrt, heads, tails, h, t, radius, s);
    }

    /** And the error is no larger than that takes: the segment joins the points halfway between the bounds, and a
        corner of the bounds of the heads, or of those of the tails, is that far from there. */
    lemma ErrorIsAttained()
      requires Valid() && !isEmpty && IsSquareRoot(sqrt)
      ensures headCentre.Some? && tailCentre.Some? && headBounds.Box? && tailBounds.Box?
      ensures Halfway(Value().head, headBounds) && Halfway(Value().tail, tailBounds)
      ensures || SquaredDistance(Point(headBounds.xu, headBounds.yu, headBounds.zu), Value().head) ==
                 Square(Value().error)
              || SquaredDistance(Point(tailBounds.xu, tailBounds.yu, tailBounds.zu), Value().tail) ==
                 Square(Value().error)
    {
      CornerAtRadius(sqrt, headBounds);
      CornerAtRadius(sqrt, tailBounds);
    }

    method Recalculate()
      requires headBounds.Box? && tailBounds.Box? && headCentre.Some? && tailCentre.Some?
      modifies this`radius, this`bb, this`bs
      ensures radius == Max(headBounds.CircleRadius(sqrt), tailBounds.CircleRadius(sqrt))
      ensures bb.Some? ==> bb.value == BoundingBox(Value())
      ensures bs.Some? ==> bs.value == BoundingSphere(sqrt, Value())
    {
      radius := Max(headBounds.CircleRadius(sqrt), tailBounds.CircleRadius(sqrt));
      if bb.Some? {
        bb := Some(BoundingBox(Value()));
      }
      if bs.Some? {
        bs := Some(BoundingSphere(sqrt, Value()));
      }
    }

    /** The bounding box, computed on first use. */
    method GetBoundingBox() returns (box: Box)
      requires Valid() && !isEmpty
      modifies this`bb
      ensures Valid() && box == BoundingBox(Value())
    {
      if bb.None? {
        bb := Some(BoundingBox(Value()));
      }
      box := bb.value;
    }

    method GetBoundingSphere() returns (sphere: Sphere)
      requires Valid() && !isEmpty
      modifies this`bs
      ensures Valid() && sphere == BoundingSphere(sqrt, Value())
    {
      if bs.None? {
        bs := Some(BoundingSphere(sqrt, Value()));
      }
      sphere := bs.value;
    }

    /** The collision test: the box test only saves the distance, it never changes the answer. */
    method Intersects(other: BodySegmentSample) returns (r: bool)
      requires Valid() && other.Valid() && !isEmpty && !other.isEmpty && IsSquareRoot(sqrt)
      modifies this`bb, other`bb
      ensures Valid() && other.Valid()
      ensures r <==> Touch(sqrt, Value(), other.Value())
    {
      var box := GetBoundingBox();
      var otherBox := other.GetBoundingBox();
      if box.Disjoint(otherBox) {
        DisjointBoxesApart(sqrt, Value(), other.Value());
        return false;
      }
      var distance := ComputeSegmentDistance(sqrt, headCentre.value, tailCentre.value, other.headCentre.value,
                                             other.tailCentre.value);
      r := distance <= thickness + radius + other.thickness + other.radius;
    }
  }

  function CentreOf(b: Box): Option<Point> {
    if b.EmptyBox? then None else Some(b.Centre())
  }

  function BoundingBox(c: Capsule): Box {
    Hull(c.head, c.tail).Widened(c.error + c.thickness)
  }

  /** The plain distance test. */
  predicate Touch(sqrt: real -> Distance, a: Capsule, b: Capsule) {
    SegmentDistance(sqrt, a.head, a.tail, b.head, b.tail) <= a.thickness + a.error + b.thickness + b.error
  }

  /** Capsules in disjoint boxes do not touch, for the distance as computed, exact or not. */
  lemma DisjointBoxesApart(sqrt: real -> Distance, a: Capsule, b: Capsule)
    requires IsSquareRoot(sqrt) && BoundingBox(a).Disjoint(BoundingBox(b))
    ensures !Touch(sqrt, a, b)
  {
    var d := SegmentDistance(sqrt, a.head, a.tail, b.head, b.tail);
    var s, t := SegmentDistanceAttained(sqrt, a.head, a.tail, b.head, b.tail);
    var p, q := At(a.head, a.tail, s), At(b.head, b.tail, t);
    InHull(a.head, a.tail, s);
    InHull(b.head, b.tail, t);
    var reach := a.thickness + a.error + b.thickness + b.error;
    CoordinateBound(p, q, d);
  }

  lemma Between(h: real, t: real, s: real)
    requires InUnit(s)
    ensures Min(h, t) <= h + s * (t - h) <= Max(h, t)
  {
    if t >= h {
      ProductNonNegative(s, t - h);
      ProductNonNegative(1.0 - s, t - h);
      assert Product(1.0 - s, t - h) == t - h - Product(s, t - h);
    } else {
      ProductNonNegative(s, h - t);
      ProductNonNegative(1.0 - s, h - t);
      assert Product(1.0 - s, h - t) == h - t - Product(s, h - t);
      assert Product(s, h - t) == -(s * (t - h));
    }
  }

  lemma InHull(h: Point, t: Point, s: real)
    requires InUnit(s)
    ensures Hull(h, t).Contains(At(h, t, s))
  {
    Between(h.x, t.x, s);
    Between(h.y, t.y, s);
    Between(h.z, t.z, s);
  }

  /** No coordinate differs by more than the distance. */
  lemma CoordinateBound(p: Point, q: Point, d: real)
    requires d >= 0.0 && SquaredDistance(p, q) <= Square(d)
    ensures -d <= p.x - q.x <= d && -d <= p.y - q.y <= d && -d <= p.z - q.z <= d
  {
    var r := p.Minus(q);
    SquareNonNegative(r.x);
    SquareNonNegative(r.y);
    SquareNonNegative(r.z);
    assert SquaredNorm(r) == Square(r.x) + Square(r.y) + Square(r.z);
    RootBound(r.x, d);
    RootBound(r.y, d);
    RootBound(r.z, d);
  }

  lemma RootBound(x: real, d: real)
    requires d >= 0.0 && Square(x) <= Square(d)
    ensures -d <= x <= d
  {
    SquareReflectsOrder(x, d);
    SquareReflectsOrder(-x, d);
    assert Square(-x) == Square(x);
  }

  /** The collision test of the direct scan and the metric of the capsule sections agree. */
  lemma TouchAgreesWithMetric(sqrt: real -> Distance, human: Capsule, robot: Capsule)
    ensures Touch(sqrt, human, robot) <==> !(ComputedCapsuleMetric(sqrt).humanRobot(human, robot) > 0.0)
  {
  }

  /** Every observed end point is within the error of the centre it is represented by. */
  lemma ObservedWithinRadius(sqrt: real -> Distance, ps: seq<Point>, p: Point, radius: Distance)
    requires IsSquareRoot(sqrt) && p in ps && Bounds(ps).Box? && Bounds(ps).CircleRadius(sqrt) <= radius
    ensures SquaredDistance(p, Bounds(ps).Centre()) <= Square(radius)
  {
    hide *;
    BoundsContain(ps);
    WithinHalfDiagonal(p, Bounds(ps));
    CircleRadiusSquared(sqrt, Bounds(ps));
    SquareMonotone(Bounds(ps).CircleRadius(sqrt), radius);
  }

  lemma CircleRadiusSquared(sqrt: real -> Distance, b: Box)
    requires IsSquareRoot(sqrt) && b.Box?
    ensures Square(b.CircleRadius(sqrt)) == b.SquaredDiagonal() / 4.0
  {
    SquareNonNegative(b.xu - b.xl);
    SquareNonNegative(b.yu - b.yl);
    SquareNonNegative(b.zu - b.zl);
    HalfSquare(sqrt(b.SquaredDiagonal()));
  }

  lemma WithinHalfDiagonal(p: Point, b: Box)
    requires b.Contains(p)
    ensures SquaredDistance(p, b.Centre()) <= b.SquaredDiagonal() / 4.0
  {
    HalfWidth(p.x, b.xl, b.xu);
    HalfWidth(p.y, b.yl, b.yu);
    HalfWidth(p.z, b.zl, b.zu);
    var r := p.Minus(b.Centre());
    assert SquaredNorm(r) == Square(r.x) + Square(r.y) + Square(r.z);
  }

  lemma HalfWidth(x: real, l: real, u: real)
    requires l <= x <= u
    ensures Square(x - (l + u) / 2.0) <= Square(u - l) / 4.0
  {
    ProductNonNegative(x - l, u - x);
    assert Square(u - l) / 4.0 - Square(x - (l + u) / 2.0) == Product(x - l, u - x);
  }

  lemma HalfSquare(x: real)
    ensures Square(x / 2.0) == Square(x) / 4.0
  {
  }

  predicate Halfway(p: Point, b: Box)
    requires b.Box?
  {
    p.x - b.xl == b.xu - p.x && p.y - b.yl == b.yu - p.y && p.z - b.zl == b.zu - p.z
  }

  /** A corner of a box is as far from its centre as its radius says. */
  lemma CornerAtRadius(sqrt: real -> Distance, b: Box)
    requires IsSquareRoot(sqrt) && b.Box?
    ensures SquaredDistance(Point(b.xu, b.yu, b.zu), b.Centre()) == Square(b.CircleRadius(sqrt))
  {
    hide Square, SquaredNorm, IsSquareRoot;
    var x, y, z := b.xu - b.xl, b.yu - b.yl, b.zu - b.zl;
    assert Point(b.xu, b.yu, b.zu).Minus(b.Centre()) == Point(x / 2.0, y / 2.0, z / 2.0);
    NormOfSquares(Point(x / 2.0, y / 2.0, z / 2.0));
    HalfSquare(x);
    HalfSquare(y);
    HalfSquare(z);
    SquareNonNegative(x);
    SquareNonNegative(y);
    SquareNonNegative(z);
    HalfOfRoot(sqrt, b.SquaredDiagonal());
  }

  lemma HalfOfRoot(sqrt: real -> Distance, x: real)
    requires IsSquareRoot(sqrt) && x >= 0.0
    ensures Square(sqrt(x) / 2.0) == x / 4.0
  {
    HalfSquare(sqrt(x));
    hide Square;
  }

  lemma NormOfSquares(p: Point)
    ensures SquaredNorm(p) == Square(p.x) + Square(p.y) + Square(p.z)
  {
  }

  /** The point lies in the capsule: no farther from its segment than error and thickness allow. */
  ghost predicate InCapsule(p: Point, c: Capsule) {
    exists s :: InUnit(s) && SquaredDistance(p, At(c.head, c.tail, s)) <= Square(c.error + c.thickness)
  }

  /** After any updates, whatever segment joins an observed head to an observed tail stays within the
      sample's error of the segment it is represented by, point for point. */
  lemma ObservedSegmentWithinError(sqrt: real -> Distance, heads: seq<Point>, tails: seq<Point>, h: Point, t: Point,
                                   radius: Distance, s: real)
    requires IsSquareRoot(sqrt) && h in heads && t in tails && InUnit(s)
    requires Bounds(heads).Box? && Bounds(tails).Box?
    requires radius == Max(Bounds(heads).CircleRadius(sqrt), Bounds(tails).CircleRadius(sqrt))
    ensures SquaredDistance(At(h, t, s), At(Bounds(heads).Centre(), Bounds(tails).Centre(), s)) <= Square(radius)
  {
    var hc, tc := Bounds(heads).Centre(), Bounds(tails).Centre();
    ObservedWithinRadius(sqrt, heads, h, radius);
    ObservedWithinRadius(sqrt, tails, t, radius);
    AtDifference(h, t, hc, tc, s);
    ConvexNorm(h.Minus(hc), t.Minus(tc), s);
    WeightedBound(SquaredNorm(h.Minus(hc)), SquaredNorm(t.Minus(tc)), s, Square(radius));
  }

  /** The capsule lies in its bounding box and in its bounding sphere. */
  lemma CapsuleInBounds(sqrt: real -> Distance, p: Point, c: Capsule)
    requires IsSquareRoot(sqrt) && InCapsule(p, c) && c.Reach() >= 0.0
    ensures BoundingBox(c).Contains(p)
    ensures SquaredDistance(p, BoundingSphere(sqrt, c).centre) <= Square(BoundingSphere(sqrt, c).radius)
  {
    var s :| InUnit(s) && SquaredDistance(p, At(c.head, c.tail, s)) <= Square(c.error + c.thickness);
    InHull(c.head, c.tail, s);
    CoordinateBound(p, At(c.head, c.tail, s), c.Reach());
    InSphere(sqrt, p, c, s);
  }

  lemma InSphere(sqrt: real -> Distance, p: Point, c: Capsule, s: real)
    requires IsSquareRoot(sqrt) && InUnit(s) && c.Reach() >= 0.0
    requires SquaredDistance(p, At(c.head, c.tail, s)) <= Square(c.Reach())
    ensures SquaredDistance(p, BoundingSphere(sqrt, c).centre) <= Square(BoundingSphere(sqrt, c).radius)
  {
    hide *;
    var q, m := At(c.head, c.tail, s), Centre(c.head, c.tail);
    var half := HalfLength(sqrt, c, s);
    SquaredDistanceSymmetric(p, q);
    TriangleAtMost(q, p, m, c.Reach(), half);
  }

  lemma HalfLength(sqrt: real -> Distance, c: Capsule, s: real) returns (half: Distance)
    requires IsSquareRoot(sqrt) && InUnit(s)
    ensures SquaredDistance(At(c.head, c.tail, s), Centre(c.head, c.tail)) <= Square(half)
    ensures BoundingSphere(sqrt, c).radius == c.Reach() + half
    ensures BoundingSphere(sqrt, c).centre == Centre(c.head, c.tail)
  {
    hide *;
    half := HalfRoot(sqrt, c.head, c.tail);
    SphereParts(sqrt, c, half);
    HalfwayBound(c.head, c.tail, s);
  }

  lemma HalfRoot(sqrt: real -> Distance, p: Point, q: Point) returns (half: Distance)
    requires IsSquareRoot(sqrt)
    ensures half == sqrt(SquaredDistance(p, q)) / 2.0 && Square(half) == SquaredDistance(p, q) / 4.0
  {
    hide *;
    SquaredDistanceNonNegative(p, q);
    half := sqrt(SquaredDistance(p, q)) / 2.0;
    HalfRootOf(sqrt, SquaredDistance(p, q));
  }

  lemma SquaredDistanceNonNegative(p: Point, q: Point)
    ensures SquaredDistance(p, q) >= 0.0
  {
    SquaredNormNonNegative(p.Minus(q));
  }

  lemma HalfRootOf(sqrt: real -> Distance, x: real)
    requires IsSquareRoot(sqrt) && x >= 0.0
    ensures Square(sqrt(x) / 2.0) == x / 4.0
  {
    HalfSquare(sqrt(x));
  }

  lemma SphereParts(sqrt: real -> Distance, c: Capsule, half: Distance)
    requires half == sqrt(SquaredDistance(c.head, c.tail)) / 2.0
    ensures BoundingSphere(sqrt, c).radius == c.Reach() + half
    ensures BoundingSphere(sqrt, c).centre == Centre(c.head, c.tail)
  {
  }

  lemma SquaredDistanceSymmetric(p: Point, q: Point)
    ensures SquaredDistance(p, q) == SquaredDistance(q, p)
  {
  }

  /** No point of a segment is farther from its middle than half the length. */
  lemma HalfwayBound(h: Point, t: Point, s: real)
    requires InUnit(s)
    ensures SquaredDistance(At(h, t, s), Centre(h, t)) <= SquaredDistance(h, t) / 4.0
  {
    MiddleOffset(h, t, s);
    SquaredNormNonNegative(h.Minus(t));
    QuarterBound(s, SquaredDistance(h, t));
  }

  lemma QuarterBound(s: real, d: real)
    requires InUnit(s) && d >= 0.0
    ensures ((s - 0.5) * (s - 0.5)) * d <= d / 4.0
  {
    ProductNonNegative(s, 1.0 - s);
    var k := Product(s, 1.0 - s);
    ProductNonNegative(k, d);
    assert Product(k, d) == d / 4.0 - ((s - 0.5) * (s - 0.5)) * d;
  }

  lemma MiddleOffset(h: Point, t: Point, s: real)
    ensures SquaredDistance(At(h, t, s), Centre(h, t)) == ((s - 0.5) * (s - 0.5)) * SquaredDistance(h, t)
  {
    var r := At(h, t, s).Minus(Centre(h, t));
    assert r.x == (s - 0.5) * (t.x - h.x) && r.y == (s - 0.5) * (t.y - h.y) && r.z == (s - 0.5) * (t.z - h.z);
    OffsetNorm(t.x - h.x, t.y - h.y, t.z - h.z, s - 0.5);
    assert SquaredDistance(h, t) == (t.x - h.x) * (t.x - h.x) + (t.y - h.y) * (t.y - h.y) + (t.z - h.z) * (t.z - h.z);
  }

  lemma OffsetNorm(x: real, y: real, z: real, k: real)
    ensures (k * x) * (k * x) + (k * y) * (k * y) + (k * z) * (k * z) == (k * k) * (x * x + y * y + z * z)
  {
  }

  /** The triangle inequality for bounds that may be met. */
  lemma TriangleAtMost(p: Point, q: Point, z: Point, m: real, k: real)
    requires m >= 0.0 && k >= 0.0
    requires SquaredDistance(p, q) <= Square(m) && SquaredDistance(p, z) <= Square(k)
    ensures SquaredDistance(q, z) <= Square(m + k)
  {
    hide Square, SquaredNorm, Point.Dot, Point.Minus;
    var x, y := q.Minus(p), p.Minus(z);
    CauchySchwarz(x, y);
    SquaredNormNonNegative(x);
    SquaredNormNonNegative(y);
    NormOfReverse(p, q);
    NormOfSum(p, q, z);
    NormsAtMost(SquaredNorm(x), SquaredNorm(y), x.Dot(y), m, k);
  }

  lemma NormsAtMost(a: real, b: real, dot: real, m: real, k: real)
    requires m >= 0.0 && k >= 0.0
    requires 0.0 <= a <= Square(m) && 0.0 <= b <= Square(k) && dot * dot <= a * b
    ensures a + 2.0 * dot + b <= Square(m + k)
  {
    ProductMonotone(a, b, Square(m), Square(k));
    ProductNonNegative(m, k);
    assert Square(dot) <= Product(Square(m), Square(k)) == Square(Product(m, k));
    SquareReflectsOrder(dot, Product(m, k));
    assert Square(m + k) == Square(m) + 2.0 * Product(m, k) + Square(k);
  }
}
