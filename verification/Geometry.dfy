/** Vector algebra behind the distances: segments, their squared distances, and the triangle inequality. */
module Geometry {
  import opened Capsules

  function SquaredNorm(p: Point): real { p.Dot(p) }

  lemma SquaredNormNonNegative(p: Point)
    ensures SquaredNorm(p) >= 0.0
    ensures p != Point(0.0, 0.0, 0.0) ==> SquaredNorm(p) > 0.0
  {
    SquareNonNegative(p.x);
    SquareNonNegative(p.y);
    SquareNonNegative(p.z);
    assert SquaredNorm(p) == Square(p.x) + Square(p.y) + Square(p.z);
    if p.x == 0.0 && p.y == 0.0 && p.z == 0.0 { assert p == Point(0.0, 0.0, 0.0); }
  }

  lemma DifferenceNonZero(p: Point, q: Point)
    requires p != q
    ensures p.Minus(q) != Point(0.0, 0.0, 0.0)
  {
    if p.x == q.x && p.y == q.y { assert p.z != q.z; }
  }

  function Product(x: real, y: real): real { x * y }
  function Square(x: real): real { x * x }

  lemma ProductPositive(x: real, y: real)
    requires x > 0.0 && y > 0.0
    ensures Product(x, y) > 0.0
  {
  }

  lemma ProductSign(x: real, y: real)
    requires x > 0.0
    ensures Product(x, y) > 0.0 <==> y > 0.0
    ensures Product(x, y) < 0.0 <==> y < 0.0
  {
    if y > 0.0 {
      ProductPositive(x, y);
    } else if y < 0.0 {
      ProductPositive(x, -y);
      assert Product(x, y) == -Product(x, -y);
    } else {
      assert Product(x, y) == x * 0.0;
    }
  }

  lemma SquareNonNegative(x: real)
    ensures Square(x) >= 0.0
    ensures x != 0.0 ==> Square(x) > 0.0
  {
    if x > 0.0 {
      ProductPositive(x, x);
      assert Square(x) == Product(x, x);
    } else if x < 0.0 {
      ProductPositive(-x, -x);
      assert Square(x) == Product(-x, -x);
    }
  }

  function SquaredDistance(p: Point, q: Point): real { SquaredNorm(p.Minus(q)) }

  /** The point of the segment from `head` to `tail` at parameter s. */
  function At(head: Point, tail: Point, s: real): Point {
    head.Plus(tail.Minus(head).Times(s))
  }

  predicate InUnit(s: real) { 0.0 <= s <= 1.0 }

  /** Cauchy-Schwarz, through the identity |p|^2 |q|^2 - (p.q)^2 = |p x q|^2. */
  lemma CauchySchwarz(p: Point, q: Point)
    ensures p.Dot(q) * p.Dot(q) <= SquaredNorm(p) * SquaredNorm(q)
  {
    hide *;
    var cx, cy, cz := p.y * q.z - p.z * q.y, p.z * q.x - p.x * q.z, p.x * q.y - p.y * q.x;
    SquareNonNegative(cx);
    SquareNonNegative(cy);
    SquareNonNegative(cz);
    LagrangeIdentity(p, q);
  }

  lemma LagrangeIdentity(p: Point, q: Point)
    ensures SquaredNorm(p) * SquaredNorm(q) - p.Dot(q) * p.Dot(q) ==
            Square(p.y * q.z - p.z * q.y) + Square(p.z * q.x - p.x * q.z) + Square(p.x * q.y - p.y * q.x)
  {
  }

  /** The squared distance of two segments' points, as a quadratic in their parameters. */
  function Quadratic(a: real, b: real, c: real, d: real, e: real, f: real, s: real, t: real): real {
    a * s * s - 2.0 * b * s * t + c * t * t + 2.0 * d * s - 2.0 * e * t + f
  }

  lemma DistanceIsQuadratic(h1: Point, t1: Point, h2: Point, t2: Point, s: real, t: real)
    ensures var u, v, w := t1.Minus(h1), t2.Minus(h2), h1.Minus(h2);
            SquaredDistance(At(h1, t1, s), At(h2, t2, t)) ==
            Quadratic(u.Dot(u), u.Dot(v), v.Dot(v), u.Dot(w), v.Dot(w), w.Dot(w), s, t)
  {
    var u, v, w := t1.Minus(h1), t2.Minus(h2), h1.Minus(h2);
    var p := At(h1, t1, s).Minus(At(h2, t2, t));
    CoordinateIsQuadratic(u.x, v.x, w.x, s, t, p.x);
    CoordinateIsQuadratic(u.y, v.y, w.y, s, t, p.y);
    CoordinateIsQuadratic(u.z, v.z, w.z, s, t, p.z);
    QuadraticSums(u, v, w, s, t);
  }

  lemma CoordinateIsQuadratic(u: real, v: real, w: real, s: real, t: real, p: real)
    requires p == w + s * u - t * v
    ensures p * p == Quadratic(u * u, u * v, v * v, u * w, v * w, w * w, s, t)
  {
  }

  lemma QuadraticSums(u: Point, v: Point, w: Point, s: real, t: real)
    ensures Quadratic(u.x * u.x, u.x * v.x, v.x * v.x, u.x * w.x, v.x * w.x, w.x * w.x, s, t) +
            Quadratic(u.y * u.y, u.y * v.y, v.y * v.y, u.y * w.y, v.y * w.y, w.y * w.y, s, t) +
            Quadratic(u.z * u.z, u.z * v.z, v.z * v.z, u.z * w.z, v.z * w.z, w.z * w.z, s, t) ==
            Quadratic(u.Dot(u), u.Dot(v), v.Dot(v), u.Dot(w), v.Dot(w), w.Dot(w), s, t)
  {
  }

  function Form(a: real, b: real, c: real, x: real, y: real): real {
    a * x * x - 2.0 * b * x * y + c * y * y
  }

  lemma CompleteSquare(a: real, b: real, c: real, x: real, y: real)
    ensures Product(a, Form(a, b, c, x, y)) == Square(a * x - b * y) + Product(a * c - b * b, Square(y))
  {
  }

  lemma ProductNonNegative(x: real, y: real)
    requires x >= 0.0 && y >= 0.0
    ensures Product(x, y) >= 0.0
  {
    if x > 0.0 { ProductSign(x, y); } else { assert Product(x, y) == 0.0 * y; }
  }

  /** The quadratic form of two vectors is never negative. */
  lemma FormNonNegative(a: real, b: real, c: real, x: real, y: real)
    requires a >= 0.0 && c >= 0.0 && a * c - b * b >= 0.0
    ensures Form(a, b, c, x, y) >= 0.0
  {
    SquareNonNegative(y);
    if a > 0.0 {
      SquareNonNegative(a * x - b * y);
      CompleteSquare(a, b, c, x, y);
      ProductNonNegative(a * c - b * b, Square(y));
      ProductSign(a, Form(a, b, c, x, y));
    } else {
      SquareNonNegative(b);
      assert a * c - b * b == 0.0 - Square(b);
      ProductNonNegative(c, Square(y));
      assert Form(0.0, 0.0, c, x, y) == Product(c, Square(y));
    }
  }
}
