/** Distances and grid cells for worker/emi_worker/topology.py. math.dist is a parameter that
    is known only through its square. */
module Geometry {
  import opened Numbers

  type Point = (real, real)

  function Sq(p: Point, q: Point): (d: real) {
    (p.0 - q.0) * (p.0 - q.0) + (p.1 - q.1) * (p.1 - q.1)
  }

  type Metric = (Point, Point) -> real

  /** dist is the Euclidean distance. */
  ghost predicate IsEuclid(dist: Metric) {
    forall p, q :: dist(p, q) >= 0.0 && dist(p, q) * dist(p, q) == Sq(p, q)
  }

  lemma WithinIffSq(dist: Metric, p: Point, q: Point, tol: real)
    requires IsEuclid(dist) && tol >= 0.0
    ensures dist(p, q) <= tol <==> Sq(p, q) <= tol * tol
  {
    if dist(p, q) <= tol {
      SquareLeq(dist(p, q), tol);
    }
    if Sq(p, q) <= tol * tol {
      SquareOrder(dist(p, q), tol);
    }
  }

  lemma NonNegSquare(a: real)
    ensures a * a >= 0.0
  {
  }

  lemma DistSymmetric(dist: Metric, p: Point, q: Point)
    requires IsEuclid(dist)
    ensures dist(p, q) == dist(q, p)
  {
    var a, b := dist(p, q), dist(q, p);
    assert a * a == Sq(p, q) && b * b == Sq(q, p);
    SqSymmetric(p, q);
    SquareOrder(a, b);
    SquareOrder(b, a);
  }

  lemma SqSymmetric(p: Point, q: Point)
    ensures Sq(p, q) == Sq(q, p)
  {
  }

  lemma DistSelf(dist: Metric, p: Point)
    requires IsEuclid(dist)
    ensures dist(p, p) == 0.0
  {
    var a := dist(p, p);
    assert a * a == Sq(p, p) == 0.0;
    SquareOrder(a, 0.0);
  }

  /** Two points within the tolerance are within it on each axis. */
  lemma CloseOnAxes(p: Point, q: Point, tol: real)
    requires tol >= 0.0 && Sq(p, q) <= tol * tol
    ensures -tol <= p.0 - q.0 <= tol && -tol <= p.1 - q.1 <= tol
  {
    NonNegSquare(p.0 - q.0);
    NonNegSquare(p.1 - q.1);
    SquareOrder(p.0 - q.0, tol);
    SquareOrder(p.1 - q.1, tol);
  }

  lemma FarOnAxis(dist: Metric, p: Point, q: Point, tol: real)
    requires IsEuclid(dist) && tol >= 0.0
    requires p.0 - q.0 > tol || q.0 - p.0 > tol || p.1 - q.1 > tol || q.1 - p.1 > tol
    ensures dist(p, q) > tol
  {
    WithinIffSq(dist, p, q, tol);
    if Sq(p, q) <= tol * tol {
      CloseOnAxes(p, q, tol);
    }
  }

  /** Along an axis the distance is the difference. */
  lemma DistOnAxis(dist: Metric, p: Point, q: Point, d: real)
    requires IsEuclid(dist) && d >= 0.0
    requires (p.1 == q.1 && (p.0 - q.0 == d || q.0 - p.0 == d)) || (p.0 == q.0 && (p.1 - q.1 == d || q.1 - p.1 == d))
    ensures dist(p, q) == d
  {
    var a := dist(p, q);
    assert a * a == Sq(p, q) == d * d;
    SquareOrder(a, d);
    SquareOrder(d, a);
  }

  // ---------- grid cells ----------

  type Cell = (int, int)

  function CellAt(p: Point, tol: real): (c: Cell)
    requires tol > 0.0
  {
    (Trunc(p.0 / tol), Trunc(p.1 / tol))
  }

  ghost predicate OnAxis(x: real, tol: real, c: int) {
    if c > 0 then c as real * tol <= x < (c + 1) as real * tol
    else if c < 0 then (c - 1) as real * tol < x <= c as real * tol
    else -tol < x < tol
  }

  /** The cells are squares as wide as the tolerance, but for those on the axes, which are twice as wide. */
  lemma CellSquare(p: Point, tol: real)
    requires tol > 0.0
    ensures OnAxis(p.0, tol, CellAt(p, tol).0) && OnAxis(p.1, tol, CellAt(p, tol).1)
  {
    AxisCell(p.0, tol);
    AxisCell(p.1, tol);
  }

  lemma AxisCell(x: real, tol: real)
    requires tol > 0.0
    ensures OnAxis(x, tol, Trunc(x / tol))
  {
    var c := Trunc(x / tol);
    QuotientLeq(x, tol, c as real);
    QuotientLeq(x, tol, (c + 1) as real);
    QuotientLeq(x, tol, (c - 1) as real);
    QuotientLeq(x, tol, -1.0);
  }

  predicate Neighbours(c: Cell, d: Cell) {
    -1 <= d.0 - c.0 <= 1 && -1 <= d.1 - c.1 <= 1
  }

  lemma TruncNear(a: real, b: real)
    requires -1.0 <= a - b <= 1.0
    ensures -1 <= Trunc(a) - Trunc(b) <= 1
  {
  }

  lemma DivideDifference(a: real, b: real, tol: real)
    requires tol > 0.0 && -tol <= a - b <= tol
    ensures -1.0 <= a / tol - b / tol <= 1.0
  {
    QuotientMinus(a, b, tol);
    QuotientLeq(a - b, tol, 1.0);
    QuotientLeq(a - b, tol, -1.0);
  }

  /** Points within the tolerance on each axis fall in the same or adjacent cells, although the cell
      index truncates toward zero. */
  lemma CloseOnBoth(p: Point, q: Point, tol: real)
    requires tol > 0.0 && -tol <= p.0 - q.0 <= tol && -tol <= p.1 - q.1 <= tol
    ensures Neighbours(CellAt(p, tol), CellAt(q, tol))
  {
    DivideDifference(q.0, p.0, tol);
    DivideDifference(q.1, p.1, tol);
    TruncNear(q.0 / tol, p.0 / tol);
    TruncNear(q.1 / tol, p.1 / tol);
  }

  /** Points within the tolerance fall in the same or adjacent cells, although the cell index
      truncates toward zero. */
  lemma CloseCells(p: Point, q: Point, tol: real)
    requires tol > 0.0 && Sq(p, q) <= tol * tol
    ensures Neighbours(CellAt(p, tol), CellAt(q, tol))
  {
    CloseOnAxes(p, q, tol);
    CloseOnBoth(p, q, tol);
  }

  // ---------- a point and a segment ----------

  function Minus(p: Point, q: Point): (d: Point) {
    (p.0 - q.0, p.1 - q.1)
  }

  function Dot(a: Point, b: Point): (d: real) {
    a.0 * b.0 + a.1 * b.1
  }

  function Scale(a: Point, v: real): (b: Point) {
    (a.0 * v, a.1 * v)
  }

  function Plus(p: Point, q: Point): (d: Point) {
    (p.0 + q.0, p.1 + q.1)
  }

  lemma SqIsDot(p: Point, q: Point)
    ensures Sq(p, q) == Dot(Minus(p, q), Minus(p, q)) == Dot(Minus(q, p), Minus(q, p))
  {
  }

  /** Where along p0-p1 the point projects, 0 at p0 and 1 at p1. */
  function Along(p: Point, p0: Point, p1: Point, length: real): (u: real)
    requires length > 0.0
  {
    Dot(Minus(p, p0), Minus(p1, p0)) / (length * length)
  }

  function Lerp(p0: Point, p1: Point, t: real): (q: Point) {
    Plus(p0, Scale(Minus(p1, p0), t))
  }

  lemma Opposite(a: real, t: real)
    ensures a * -t == -(a * t)
  {
  }

  lemma FromLerp(p: Point, p0: Point, p1: Point, t: real)
    ensures Minus(p, Lerp(p0, p1, t)) == Plus(Minus(p, p0), Scale(Minus(p1, p0), -t))
  {
    var d := Minus(p1, p0);
    Opposite(d.0, t);
    Opposite(d.1, t);
    assert Scale(d, -t) == (-(d.0 * t), -(d.1 * t));
    assert Lerp(p0, p1, t) == (p0.0 + d.0 * t, p0.1 + d.1 * t);
  }

  lemma AlongTimes(p: Point, p0: Point, p1: Point, length: real)
    requires length > 0.0 && length * length == Sq(p0, p1)
    ensures Along(p, p0, p1, length) * Sq(p0, p1) == Dot(Minus(p, p0), Minus(p1, p0))
  {
  }

  // ---------- sampling a segment every tolerance ----------

  function Steps(length: real, tol: real): (n: nat)
    requires length > 0.0 && tol > 0.0
  {
    Max(1, Trunc(length / tol) + 1)
  }

  function SampleAt(k: nat, length: real, tol: real): (t: real)
    requires length > 0.0
  {
    var t := k as real * tol / length;
    if t <= 1.0 then t else 1.0
  }

  lemma Portion(u: real, length: real)
    requires 0.0 <= u <= 1.0 && length > 0.0
    ensures 0.0 <= u * length <= length
  {
  }
}
