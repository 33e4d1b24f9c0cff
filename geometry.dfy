/** Bounding boxes and points in pixel space, with coordinates as reals. */
module Geometry {

  /** A detector box `[x1, y1, x2, y2]`: corners top-left and bottom-right. */
  datatype Box = Box(x1: real, y1: real, x2: real, y2: real)

  datatype Point = Point(x: real, y: real)

  /** Boxes as a detector emits them: corners in order. */
  predicate WellFormed(b: Box) {
    b.x1 <= b.x2 && b.y1 <= b.y2
  }

  function Width(b: Box): real { b.x2 - b.x1 }

  function Height(b: Box): real { b.y2 - b.y1 }

  function Area(b: Box): real { Width(b) * Height(b) }

  /** Centre of a box, as `(x1 + x2) / 2, (y1 + y2) / 2`. */
  function Center(b: Box): (c: Point)
    ensures b.x1 <= b.x2 ==> b.x1 <= c.x <= b.x2
    ensures b.y1 <= b.y2 ==> b.y1 <= c.y <= b.y2
  {
    Point((b.x1 + b.x2) / 2.0, (b.y1 + b.y2) / 2.0)
  }

  /** Squared Euclidean distance between two points. */
  function SquaredDistance(p: Point, q: Point): real {
    (p.x - q.x) * (p.x - q.x) + (p.y - q.y) * (p.y - q.y)
  }

  function Abs(r: real): real { if r < 0.0 then -r else r }

  function Min(a: real, b: real): real { if a <= b then a else b }

  function Max(a: real, b: real): real { if a >= b then a else b }

  /** A product kept behind a function symbol: proofs then reason about
      products as opaque terms plus the facts below, which keeps the
      solver's non-linear arithmetic out of them. */
  function Mul(a: real, b: real): real { a * b }

  /** Signs of `Mul`. */
  lemma MulSigns(a: real, b: real)
    ensures a > 0.0 && b > 0.0 ==> Mul(a, b) > 0.0
    ensures a >= 0.0 && b >= 0.0 ==> Mul(a, b) >= 0.0
    ensures a <= 0.0 && b <= 0.0 ==> Mul(a, b) >= 0.0
    ensures Mul(-a, -b) == Mul(a, b)
    ensures Mul(a, -b) == -Mul(a, b)
  {
  }

  lemma MulDistributes(a: real, b: real, c: real)
    ensures Mul(a, b + c) == Mul(a, b) + Mul(a, c)
  {
  }

  /** Scaling by a non-negative factor keeps the order. */
  lemma MulMonotone(lo: real, v: real, hi: real, w: real)
    requires lo <= v <= hi && w >= 0.0
    ensures Mul(lo, w) <= Mul(v, w) <= Mul(hi, w)
  {
    MulSigns(v - lo, w);
    MulSigns(hi - v, w);
  }

  /** Python's `int(r)` on a float: truncation toward zero. */
  function Trunc(r: real): (n: int)
    ensures r >= 0.0 ==> n as real <= r < n as real + 1.0
    ensures r < 0.0 ==> n as real - 1.0 < r <= n as real
  {
    if r >= 0.0 then r.Floor else -((-r).Floor)
  }
}
