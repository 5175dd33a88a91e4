/** How near to a segment a node must lie for the walk along it to look into the node's cell
    (worker/emi_worker/topology.py). */
module Sampling {
  import opened Numbers
  import opened Geometry
  import opened Graphs

  function Size(a: real): (s: real) {
    if a >= 0.0 then a else -a
  }

  predicate Within(a: real, tol: real) {
    -tol <= a <= tol
  }

  /** c and s are the cosine and sine of some direction. */
  predicate Unit(c: real, s: real) {
    c * c + s * s == 1.0
  }

  /** No further off than sqrt(2) - 1/2 tolerances. */
  predicate Reached(d: real, tol: real) {
    (2.0 * d + tol) * (2.0 * d + tol) <= 8.0 * (tol * tol)
  }

  // ---------- the two samples beside a place ----------

  /** Moving back along the direction by no more than tol cannot lead from beyond tol on one side to
      beyond it on the other, nor past a point within it. */
  lemma OneAxis(w: real, c: real, a: real, b: real, tol: real)
    requires Within(w, tol) && Within(c, 1.0) && a >= 0.0 >= b && a - b <= tol
    ensures Within(w + a * c, tol) || Within(w + b * c, tol)
  {
    if c >= 0.0 {
      OneSide(w, c, a, b, tol);
    } else {
      OneSide(-w, -c, a, b, tol);
      Opposite(a, c);
      Opposite(b, c);
    }
  }

  lemma OneSide(w: real, c: real, a: real, b: real, tol: real)
    requires Within(w, tol) && 0.0 <= c <= 1.0 && a >= 0.0 >= b && a - b <= tol
    ensures Within(w + a * c, tol) || Within(w + b * c, tol)
  {
    MulNonNeg(a, c);
    MulNonNeg(-b, c);
    Scaled(c, 1.0, a - b);
    Parted(a, b, c);
    Straddle(w, a * c, b * c, tol);
  }

  lemma Straddle(w: real, up: real, down: real, tol: real)
    requires Within(w, tol) && up >= 0.0 >= down && up - down <= tol
    ensures Within(w + up, tol) || Within(w + down, tol)
  {
  }

  lemma Parted(a: real, b: real, c: real)
    ensures c * (a - b) == a * c - b * c && (-b) * c == -(b * c)
  {
  }

  /** t is the sum of the sine and the cosine. */
  predicate Sum(c: real, s: real, t: real) {
    t == c + s && 2.0 * (c * s) == t * t - 1.0
  }

  predicate InSumRange(t: real) {
    1.0 <= t && t * t <= 2.0
  }

  lemma SumOfSides(c: real, s: real)
    requires c >= 0.0 && s >= 0.0 && Unit(c, s)
    ensures Sum(c, s, c + s) && InSumRange(c + s)
  {
    var t := c + s;
    MulNonNeg(c, s);
    assert t * t == 1.0 + 2.0 * (c * s);
    SquareOrder(1.0, t);
    NonNegSquare(c - s);
    assert (c - s) * (c - s) == 1.0 - 2.0 * (c * s);
  }

  function Eight(t: real): (e: real) {
    2.0 + 2.0 * t - t * t
  }

  lemma EightAtLeast(t: real)
    requires InSumRange(t)
    ensures Eight(t) > 0.0 && Eight(t) * Eight(t) >= 8.0
  {
    var v := t * t;
    MulNonNeg(2.0 - v, 4.0 * t - 2.0 - v);
    Expand(t);
  }

  lemma Expand(t: real)
    ensures Eight(t) * Eight(t) - 8.0 == (2.0 - t * t) * (4.0 * t - 2.0 - t * t)
  {
  }

  /** A place a along the line from the foot of a point d off it is missed by more than tol on the
      axis that makes up c of the line's direction and s of the point's. */
  predicate Misses(d: real, c: real, s: real, a: real, tol: real) {
    Excess(d, c, s, a, tol) > 0.0
  }

  function Excess(d: real, c: real, s: real, a: real, tol: real): (x: real) {
    d * s + a * c - tol
  }

  predicate Longer(d: real, tol: real, t: real) {
    2.0 * d + tol * (t * t - 1.0) > 2.0 * (tol * t)
  }

  /** Two places on a line at most tol apart, both missed by more than tol, one on each axis: the
      line is further away than the bound. */
  lemma SidesTooShort(d: real, c: real, s: real, a: real, b: real, tol: real)
    requires tol > 0.0 && d >= 0.0 && c >= 0.0 && s >= 0.0 && Unit(c, s) && a + b <= tol
    requires Misses(d, c, s, a, tol) && Misses(d, s, c, b, tol)
    ensures !Reached(d, tol)
  {
    hide Unit, Misses, Reached, Sum, InSumRange, Longer, Eight;
    SumOfSides(c, s);
    SidesAdd(d, c, s, a, b, tol, c + s);
    EightAtLeast(c + s);
    BeyondEight(d, tol, c + s);
  }

  lemma BeyondEight(d: real, tol: real, t: real)
    requires tol > 0.0 && Eight(t) > 0.0 && Eight(t) * Eight(t) >= 8.0 && Longer(d, tol, t)
    ensures !Reached(d, tol)
  {
    var e, x := Eight(t), 2.0 * d + tol;
    Factor(tol, t);
    MulPos(tol, e);
    hide Eight, Longer;
    SquareLess(tol * e, x);
    SquareOfProduct(tol, e);
    MulNonNeg(tol * tol, e * e - 8.0);
    Distribute(tol * tol, e * e);
  }

  lemma Factor(tol: real, t: real)
    ensures tol * Eight(t) == tol - tol * (t * t - 1.0) + 2.0 * (tol * t)
  {
  }

  lemma SquareOfProduct(a: real, b: real)
    ensures (a * b) * (a * b) == (a * a) * (b * b)
  {
  }

  lemma Distribute(a: real, b: real)
    ensures a * (b - 8.0) == a * b - 8.0 * a
  {
  }

  function Weighted(d: real, c: real, s: real, a: real, b: real, tol: real): (r: real) {
    Excess(d, c, s, a, tol) * s + Excess(d, s, c, b, tol) * c
  }

  lemma WeightedIs(d: real, c: real, s: real, a: real, b: real, tol: real)
    ensures Weighted(d, c, s, a, b, tol) == d * (c * c + s * s) + (a + b) * (c * s) - tol * (c + s)
  {
  }

  lemma Scaled(a: real, tol: real, r: real)
    requires a <= tol && r >= 0.0
    ensures a * r <= tol * r
  {
    MulNonNeg(tol - a, r);
  }

  lemma SidesAdd(d: real, c: real, s: real, a: real, b: real, tol: real, t: real)
    requires c >= 0.0 && s >= 0.0 && Unit(c, s) && a + b <= tol && Sum(c, s, t)
    requires Misses(d, c, s, a, tol) && Misses(d, s, c, b, tol)
    ensures Longer(d, tol, t)
  {
    hide Weighted, Misses, Longer, Excess;
    WeightedPositive(d, c, s, a, b, tol);
    WeightedIs(d, c, s, a, b, tol);
    MulNonNeg(c, s);
    Scaled(a + b, tol, c * s);
    Halves(d, tol, c * s, t, (a + b) * (c * s), c * c + s * s);
  }

  lemma Halves(d: real, tol: real, r: real, t: real, m: real, one: real)
    requires one == 1.0 && m <= tol * r && 2.0 * r == t * t - 1.0 && d * one + m - tol * t > 0.0
    ensures Longer(d, tol, t)
  {
    assert tol * (t * t - 1.0) == tol * (2.0 * r) == 2.0 * (tol * r);
  }

  lemma WeightedPositive(d: real, c: real, s: real, a: real, b: real, tol: real)
    requires s >= 0.0 && c >= 0.0 && Unit(c, s) && Misses(d, c, s, a, tol) && Misses(d, s, c, b, tol)
    ensures Weighted(d, c, s, a, b, tol) > 0.0
  {
    hide Excess, Unit;
    PositiveSum(Excess(d, c, s, a, tol), Excess(d, s, c, b, tol), s, c);
  }

  lemma PositiveSum(x: real, y: real, s: real, c: real)
    requires x > 0.0 && y > 0.0 && s >= 0.0 && c >= 0.0 && Unit(c, s)
    ensures x * s + y * c > 0.0
  {
    MulNonNeg(x, s);
    MulNonNeg(y, c);
    if s > 0.0 {
      MulPos(x, s);
    } else {
      MulPos(y, c);
    }
  }

  lemma SizeTimes(a: real, c: real)
    requires a >= 0.0
    ensures Within(a * c, a * Size(c))
  {
    MulNonNeg(a, Size(c));
  }

  lemma SizeUnit(c: real, s: real)
    requires Unit(c, s)
    ensures Size(c) >= 0.0 && Size(s) >= 0.0 && Unit(Size(c), Size(s)) && Unit(Size(s), Size(c))
    ensures Within(c, 1.0) && Within(s, 1.0) && Size(c) <= 1.0 && Size(s) <= 1.0
  {
    NonNegSquare(c);
    NonNegSquare(s);
    SquareOrder(c, 1.0);
    SquareOrder(s, 1.0);
  }

  /** The place a along the line from the foot is within tol on both axes of the point that lies w
      from the foot. */
  predicate Beside(w: Point, a: real, c: real, s: real, tol: real) {
    Within(w.0 + a * c, tol) && Within(w.1 + a * s, tol)
  }

  /** On each axis no further than a point d off the line can be from its foot. */
  predicate Parts(w: Point, c: real, s: real, d: real) {
    Within(w.0, d * Size(s)) && Within(w.1, d * Size(c))
  }

  /** Of two places along a line, one before and one after the foot of a point, at most tol apart,
      one is within tol of the point on both axes. */
  lemma OneBeside(w: Point, c: real, s: real, a: real, b: real, d: real, tol: real)
    requires tol > 0.0 && Unit(c, s) && a >= 0.0 >= b && a - b <= tol
    requires 0.0 <= d <= tol && Reached(d, tol) && Parts(w, c, s, d)
    ensures Beside(w, a, c, s, tol) || Beside(w, b, c, s, tol)
  {
    hide Unit, Reached, Size;
    SizeUnit(c, s);
    OnePair(w.0, w.1, c, s, a, b, d, tol);
    OnePair(w.1, w.0, s, c, a, b, d, tol);
    WithinTol(w.0, d, Size(s), tol);
    WithinTol(w.1, d, Size(c), tol);
    OneAxis(w.0, c, a, b, tol);
    OneAxis(w.1, s, a, b, tol);
    hide Within;
  }

  lemma WithinTol(x: real, d: real, s: real, tol: real)
    requires Within(x, d * s) && 0.0 <= d <= tol && s <= 1.0
    ensures Within(x, tol)
  {
    Scaled(s, 1.0, d);
  }

  lemma OnePair(x: real, y: real, c: real, s: real, a: real, b: real, d: real, tol: real)
    requires tol > 0.0 && (Unit(c, s) || Unit(s, c)) && a >= 0.0 >= b && a - b <= tol && d >= 0.0 && Reached(d, tol)
    requires Within(x, d * Size(s)) && Within(y, d * Size(c))
    ensures Within(x + a * c, tol) || Within(y + b * s, tol)
  {
    hide Reached, Misses;
    TurnUnit(c, s);
    SizeUnit(c, s);
    if Misses(d, Size(c), Size(s), a, tol) && Misses(d, Size(s), Size(c), -b, tol) {
      SidesTooShort(d, Size(c), Size(s), a, -b, tol);
    } else if !Misses(d, Size(c), Size(s), a, tol) {
      NotMissed(x, c, s, a, d, tol);
    } else {
      NotMissed(y, s, c, b, d, tol);
    }
  }

  lemma TurnUnit(c: real, s: real)
    ensures Unit(c, s) <==> Unit(s, c)
  {
  }

  lemma NotMissed(x: real, c: real, s: real, a: real, d: real, tol: real)
    requires Within(x, d * Size(s)) && !Misses(d, Size(c), Size(s), Size(a), tol)
    ensures Within(x + a * c, tol)
  {
    SizeTimes(Size(a), c);
    assert a * c == Size(a) * c || a * c == -(Size(a) * c);
  }

  // ---------- along a segment ----------

  /** The direction of the segment. */
  function Cos(p0: Point, p1: Point, length: real): (c: real)
    requires length > 0.0
  {
    (p1.0 - p0.0) / length
  }

  function Sin(p0: Point, p1: Point, length: real): (s: real)
    requires length > 0.0
  {
    (p1.1 - p0.1) / length
  }

  lemma DirectionIsUnit(p0: Point, p1: Point, length: real)
    requires length > 0.0 && length * length == Sq(p0, p1)
    ensures Unit(Cos(p0, p1, length), Sin(p0, p1, length))
  {
    DivMul(p1.0 - p0.0, length);
    DivMul(p1.1 - p0.1, length);
    SqSymmetric(p0, p1);
    OneOf(Cos(p0, p1, length), Sin(p0, p1, length), length, p1.0 - p0.0, p1.1 - p0.1);
  }

  function Square(a: real): (s: real) {
    a * a
  }

  lemma OneOf(c: real, s: real, length: real, x: real, y: real)
    requires length > 0.0 && c * length == x && s * length == y && Square(length) == Square(x) + Square(y)
    ensures Unit(c, s)
  {
    hide Square, Unit;
    SquareSame(c * length, x);
    SquareSame(s * length, y);
    SquareTimes(c, length);
    SquareTimes(s, length);
    UnitFactor(c, s, Square(length), Square(x), Square(y));
  }

  lemma SquareSame(a: real, b: real)
    requires a == b
    ensures Square(a) == Square(b)
  {
  }

  lemma SquareTimes(a: real, b: real)
    requires b > 0.0
    ensures Square(a * b) == Square(a) * Square(b) && Square(b) > 0.0
  {
    SquareOfProduct(a, b);
    SquareLess(0.0, b);
  }

  lemma UnitFactor(c: real, s: real, l: real, x: real, y: real)
    requires x == Square(c) * l && y == Square(s) * l && l == x + y && l > 0.0
    ensures Unit(c, s)
  {
    assert (c * c + s * s) * l == x + y;
    ZeroFactor(c * c + s * s - 1.0, l);
  }

  lemma ZeroFactor(a: real, b: real)
    requires a * b == 0.0 && b > 0.0
    ensures a == 0.0
  {
  }

  /** How far past the place at t the place at u lies, measured along the segment. */
  function Ahead(u: real, t: real, length: real): (a: real) {
    (u - t) * length
  }

  /** The foot of the point on the segment's line. */
  function Foot(p: Point, p0: Point, p1: Point, length: real): (q: Point)
    requires length > 0.0
  {
    Lerp(p0, p1, Along(p, p0, p1, length))
  }

  /** q lies a further along the direction than r. */
  predicate Further(q: Point, r: Point, a: real, c: real, s: real) {
    q.0 - r.0 == a * c && q.1 - r.1 == a * s
  }

  lemma FromPlace(p0: Point, p1: Point, length: real, u: real, t: real)
    requires length > 0.0
    ensures Further(Lerp(p0, p1, u), Lerp(p0, p1, t), Ahead(u, t, length), Cos(p0, p1, length), Sin(p0, p1, length))
  {
    Step(p0.0, p1.0, length, u, t);
    Step(p0.1, p1.1, length, u, t);
  }

  lemma Step(x0: real, x1: real, length: real, u: real, t: real)
    requires length > 0.0
    ensures (x0 + (x1 - x0) * u) - (x0 + (x1 - x0) * t) == ((u - t) * length) * ((x1 - x0) / length)
  {
    var c := (x1 - x0) / length;
    DivMul(x1 - x0, length);
    Regroup(u - t, length, c);
    assert (x1 - x0) * u - (x1 - x0) * t == (u - t) * (x1 - x0);
  }

  lemma Regroup(v: real, length: real, c: real)
    ensures (v * length) * c == v * (c * length)
  {
  }

  predicate Perpendicular(w: Point, c: real, s: real) {
    w.0 * c + w.1 * s == 0.0
  }

  /** What leads from the foot to the point is perpendicular to the segment. */
  lemma FootIsPerpendicular(p: Point, p0: Point, p1: Point, length: real)
    requires length > 0.0 && length * length == Sq(p0, p1)
    ensures Perpendicular(Minus(p, Foot(p, p0, p1, length)), Cos(p0, p1, length), Sin(p0, p1, length))
  {
    var u, a, e := Along(p, p0, p1, length), Minus(p, p0), Minus(p1, p0);
    var w := Minus(p, Foot(p, p0, p1, length));
    Across(w, e, length);
    hide Along, Dot, Plus, Scale, Sq, Lerp;
    AlongTimes(p, p0, p1, length);
    SqIsDot(p0, p1);
    FromLerp(p, p0, p1, u);
    DotPlusScale(a, e, -u);
  }

  lemma DotPlusScale(a: Point, e: Point, v: real)
    ensures Dot(Plus(a, Scale(e, v)), e) == Dot(a, e) + v * Dot(e, e)
  {
  }

  lemma Across(w: Point, e: Point, length: real)
    requires length > 0.0
    ensures Dot(w, e) == 0.0 ==> w.0 * (e.0 / length) + w.1 * (e.1 / length) == 0.0
  {
    var c, s := e.0 / length, e.1 / length;
    DivMul(e.0, length);
    DivMul(e.1, length);
    Regroup(w.0, length, c);
    Regroup(w.1, length, s);
    assert (w.0 * c + w.1 * s) * length == (w.0 * length) * c + (w.1 * length) * s == Dot(w, e);
    if Dot(w, e) == 0.0 {
      ZeroFactor(w.0 * c + w.1 * s, length);
    }
  }

  /** So its parts are its length times the sine and the cosine. */
  lemma PerpendicularParts(p: Point, q: Point, c: real, s: real, d: real)
    requires Unit(c, s) && Perpendicular(Minus(p, q), c, s) && d >= 0.0 && Sq(p, q) <= d * d
    ensures Parts(Minus(p, q), c, s, d)
  {
    var w := Minus(p, q);
    OnePart(w.0, w.1, c, s, d);
    OnePart(w.1, w.0, s, c, d);
  }

  lemma OnePart(x: real, y: real, c: real, s: real, d: real)
    requires Unit(c, s) && x * c + y * s == 0.0 && d >= 0.0 && x * x + y * y <= d * d
    ensures Within(x, d * Size(s))
  {
    var m := Size(s);
    SquareOfProduct(x, c);
    SquareOfProduct(y, s);
    SquareOfProduct(d, m);
    assert x * c == -(y * s);
    assert (x * c) * (x * c) == (y * s) * (y * s);
    assert x * x == (x * x) * (c * c + s * s) == (x * x) * (c * c) + (x * x) * (s * s);
    assert x * x == (x * x + y * y) * (s * s);
    NonNegSquare(s);
    Scaled(x * x + y * y, d * d, s * s);
    assert m * m == s * s;
    MulNonNeg(d, m);
    SquareOrder(x, d * m);
  }

  // ---------- the samples ----------

  lemma SampleTimes(k: nat, length: real, tol: real)
    requires length > 0.0 && tol > 0.0
    ensures SampleAt(k, length, tol) * length == if k as real * tol <= length then k as real * tol else length
  {
    var q := k as real * tol;
    QuotientLeq(q, length, 1.0);
    DivMul(q, length);
  }

  /** The place u lies between two samples, at most tol apart. */
  lemma BesidePlace(u: real, length: real, tol: real) returns (k: nat)
    requires 0.0 <= u <= 1.0 && length > 0.0 && tol > 0.0
    ensures k + 1 <= Steps(length, tol)
    ensures var a, b := Ahead(u, SampleAt(k, length, tol), length), Ahead(u, SampleAt(k + 1, length, tol), length);
      a >= 0.0 >= b && a - b <= tol
  {
    Portion(u, length);
    k := SampleBelow(u * length, length, tol);
    SampleAhead(u, k, length, tol);
    SampleAhead(u, k + 1, length, tol);
    NextSample(k, tol);
    hide SampleAt, Steps, Ahead;
  }

  lemma SampleAhead(u: real, k: nat, length: real, tol: real)
    requires length > 0.0 && tol > 0.0
    ensures Ahead(u, SampleAt(k, length, tol), length)
         == u * length - if k as real * tol <= length then k as real * tol else length
  {
    SampleTimes(k, length, tol);
    hide SampleAt;
    AheadIs(u, SampleAt(k, length, tol), length);
  }

  lemma NextSample(k: nat, tol: real)
    ensures (k + 1) as real * tol == k as real * tol + tol
  {
  }

  lemma AheadIs(u: real, t: real, length: real)
    ensures Ahead(u, t, length) == u * length - t * length
  {
  }

  lemma OneMoreTol(k: real, tol: real)
    ensures (k + 1.0) * tol == k * tol + tol
  {
  }

  lemma SampleBelow(x: real, length: real, tol: real) returns (k: nat)
    requires 0.0 <= x <= length && length > 0.0 && tol > 0.0
    ensures k as real * tol <= x <= k as real * tol + tol && k + 1 <= Steps(length, tol)
  {
    var q, l := x / tol, length / tol;
    DivMul(length, tol);
    QuotientLeq(x, tol, l);
    QuotientLeq(x, tol, 0.0);
    QuotientLeq(length, tol, 0.0);
    DivMul(x, tol);
    k := q.Floor;
    QuotientLeq(x, tol, k as real);
    QuotientLeq(x, tol, k as real + 1.0);
    OneMoreTol(k as real, tol);
  }

  /** A node that projects into the segment and is no further off it than the bound is seen from one
      of the two samples beside its foot. */
  lemma ReachedIsSampled(p: Point, p0: Point, p1: Point, dist: Metric, d: real, tol: real)
    requires IsEuclid(dist) && tol > 0.0 && 0.0 <= d && Reached(d, tol) && dist(p0, p1) > 0.0
    requires OnSegment(p, p0, p1, dist(p0, p1), dist, d)
    ensures Sampled(p, p0, p1, dist(p0, p1), tol)
  {
    var length := dist(p0, p1);
    var u, q := Along(p, p0, p1, length), Foot(p, p0, p1, length);
    var w, c, s := Minus(p, q), Cos(p0, p1, length), Sin(p0, p1, length);
    hide IsEuclid, Along, Foot, SampleAt, Steps, Ahead, Unit, Reached, Cos, Sin, Parts, Minus, SampledAt, Beside;
    FootParts(p, p0, p1, length, dist, d);
    ReachedIsClose(d, tol);
    var k := BesidePlace(u, length, tol);
    var a, b := Ahead(u, SampleAt(k, length, tol), length), Ahead(u, SampleAt(k + 1, length, tol), length);
    OneBeside(w, c, s, a, b, d, tol);
    if Beside(w, a, c, s, tol) {
      BesideIsSampled(p, p0, p1, length, tol, k);
    } else {
      BesideIsSampled(p, p0, p1, length, tol, k + 1);
    }
  }

  /** How far the point is from its foot, on each axis. */
  lemma FootParts(p: Point, p0: Point, p1: Point, length: real, dist: Metric, d: real)
    requires IsEuclid(dist) && length == dist(p0, p1) > 0.0 && 0.0 <= d && dist(p, Foot(p, p0, p1, length)) <= d
    ensures var w, c, s := Minus(p, Foot(p, p0, p1, length)), Cos(p0, p1, length), Sin(p0, p1, length);
      Unit(c, s) && Parts(w, c, s, d)
  {
    var q := Foot(p, p0, p1, length);
    hide Foot, Cos, Sin, Unit, Parts, Perpendicular, Minus, Sq;
    WithinIffSq(dist, p, q, d);
    DirectionIsUnit(p0, p1, length);
    FootIsPerpendicular(p, p0, p1, length);
    PerpendicularParts(p, q, Cos(p0, p1, length), Sin(p0, p1, length), d);
  }

  lemma ReachedIsClose(d: real, tol: real)
    requires tol > 0.0 && 0.0 <= d && Reached(d, tol)
    ensures d < tol
  {
    if d >= tol {
      SquareLeq(3.0 * tol, 2.0 * d + tol);
      assert (3.0 * tol) * (3.0 * tol) == 9.0 * (tol * tol);
      SquareLess(0.0, tol);
    }
  }

  lemma BesideIsSampled(p: Point, p0: Point, p1: Point, length: real, tol: real, k: nat)
    requires length > 0.0 && tol > 0.0
    requires Beside(Minus(p, Foot(p, p0, p1, length)), Ahead(Along(p, p0, p1, length), SampleAt(k, length, tol), length),
                    Cos(p0, p1, length), Sin(p0, p1, length), tol)
    ensures SampledAt(p, p0, p1, length, tol, k)
  {
    var u, t := Along(p, p0, p1, length), SampleAt(k, length, tol);
    hide Along, SampleAt, CellAt, Neighbours, Ahead, Cos, Sin, Lerp, Further, Beside;
    FromPlace(p0, p1, length, u, t);
    BesideIsClose(p, Foot(p, p0, p1, length), Lerp(p0, p1, t), Ahead(u, t, length), Cos(p0, p1, length), Sin(p0, p1, length), tol);
    CloseOnBoth(Lerp(p0, p1, t), p, tol);
  }

  lemma BesideIsClose(p: Point, q: Point, r: Point, a: real, c: real, s: real, tol: real)
    requires Beside(Minus(p, q), a, c, s, tol) && Further(q, r, a, c, s)
    ensures Within(r.0 - p.0, tol) && Within(r.1 - p.1, tol)
  {
  }

  // ---------- the bound is exact ----------

  /** Half the diagonal of the unit square. */
  ghost predicate HalfDiagonal(h: real) {
    h > 0.0 && 2.0 * (h * h) == 1.0
  }

  lemma SomeHalfDiagonal(dist: Metric) returns (h: real)
    requires IsEuclid(dist)
    ensures HalfDiagonal(h)
  {
    var r := dist((0.0, 0.0), (1.0, 1.0));
    assert r * r == Sq((0.0, 0.0), (1.0, 1.0)) == 2.0;
    h := r / 2.0;
    assert h * h == r * r / 4.0;
  }

  /** A tolerance-long segment at 45 degrees, at distance d from the point (2 tol, 2 tol), with its
      ends v short of it on one axis. */
  datatype Slant = Slant(p: Point, p0: Point, p1: Point)

  function SlantAt(h: real, d: real, tol: real): (z: Slant) {
    var v, e := Short(h, d, tol), h * d - h * tol / 2.0;
    Slant((2.0 * tol, 2.0 * tol), (2.0 * tol - v, 2.0 * tol - e), (2.0 * tol - e, 2.0 * tol - v))
  }

  lemma SlantSteps(h: real, d: real, tol: real)
    ensures var z := SlantAt(h, d, tol); Minus(z.p1, z.p0) == (h * tol, -(h * tol))
    ensures var z := SlantAt(h, d, tol); Minus(z.p, z.p0) == (h * d + h * tol / 2.0, h * d - h * tol / 2.0)
  {
  }

  lemma SlantLength(h: real, d: real, dist: Metric, tol: real)
    requires HalfDiagonal(h) && IsEuclid(dist) && tol > 0.0
    ensures var z := SlantAt(h, d, tol); dist(z.p0, z.p1) == tol
  {
    var z := SlantAt(h, d, tol);
    SlantSteps(h, d, tol);
    SqIsDot(z.p0, z.p1);
    var x := h * tol;
    assert Sq(z.p0, z.p1) == x * x + x * x;
    SquareOfProduct(h, tol);
    assert Sq(z.p0, z.p1) == (2.0 * (h * h)) * (tol * tol) == tol * tol;
    SquareOrder(dist(z.p0, z.p1), tol);
    SquareOrder(tol, dist(z.p0, z.p1));
  }

  lemma SlantMiddle(h: real, d: real, tol: real)
    requires HalfDiagonal(h) && tol > 0.0
    ensures var z := SlantAt(h, d, tol); Along(z.p, z.p0, z.p1, tol) == 0.5
  {
    var z := SlantAt(h, d, tol);
    SlantSteps(h, d, tol);
    var x := h * tol;
    assert Dot(Minus(z.p, z.p0), Minus(z.p1, z.p0)) == x * x;
    SquareOfProduct(h, tol);
    assert x * x == 0.5 * (tol * tol);
    MulPos(tol, tol);
    HalfOf(x * x, tol * tol);
  }

  lemma HalfOf(a: real, b: real)
    requires b > 0.0 && a == 0.5 * b
    ensures a / b == 0.5
  {
  }

  lemma SlantIsNear(h: real, d: real, dist: Metric, tol: real)
    requires HalfDiagonal(h) && IsEuclid(dist) && tol > 0.0 && d >= 0.0
    ensures var z := SlantAt(h, d, tol); dist(z.p, Lerp(z.p0, z.p1, 0.5)) <= d
  {
    var z := SlantAt(h, d, tol);
    SlantSteps(h, d, tol);
    var q, y := Lerp(z.p0, z.p1, 0.5), h * d;
    assert Minus(z.p, q) == (y, y);
    assert Sq(z.p, q) == y * y + y * y;
    SquareOfProduct(h, d);
    assert y * y + y * y == (2.0 * (h * h)) * (d * d);
    WithinIffSq(dist, z.p, q, d);
  }

  function Short(h: real, d: real, tol: real): (v: real) {
    h * d + h * tol / 2.0
  }

  lemma TwiceShort(h: real, d: real, tol: real)
    ensures h * (2.0 * d + tol) == 2.0 * Short(h, d, tol)
  {
  }

  lemma HalfSquare(h: real, x: real)
    requires HalfDiagonal(h)
    ensures 2.0 * ((h * x) * (h * x)) == x * x
  {
    SquareOfProduct(h, x);
    assert 2.0 * ((h * h) * (x * x)) == (2.0 * (h * h)) * (x * x);
  }

  /** Beyond the bound the ends are more than tol short of the point, but not as much as 2 tol. */
  lemma SlantIsShort(h: real, d: real, tol: real)
    requires HalfDiagonal(h) && 0.0 <= d <= tol && tol > 0.0 && !Reached(d, tol)
    ensures tol < Short(h, d, tol) < 2.0 * tol
  {
    var x := 2.0 * d + tol;
    TwiceShort(h, d, tol);
    HalfSquare(h, x);
    MulNonNeg(h, x);
    HalfIsLess(h, x);
    hide Short, HalfDiagonal;
    MoreThanTwice(h * x, x, tol);
    HalfOfTwice(h * x, x, Short(h, d, tol), tol);
  }

  lemma HalfOfTwice(v: real, x: real, short: real, tol: real)
    requires tol > 0.0 && v == 2.0 * short && 2.0 * tol < v <= x <= 3.0 * tol
    ensures tol < short < 2.0 * tol
  {
  }

  lemma HalfIsLess(h: real, x: real)
    requires HalfDiagonal(h) && x >= 0.0
    ensures h * x <= x
  {
    SquareOrder(h, 1.0);
    Scaled(h, 1.0, x);
  }

  lemma MoreThanTwice(v: real, x: real, tol: real)
    requires v >= 0.0 && tol > 0.0 && 2.0 * (v * v) == x * x && x * x > 8.0 * (tol * tol)
    ensures v > 2.0 * tol
  {
    assert (2.0 * tol) * (2.0 * tol) == 4.0 * (tol * tol);
    if v <= 2.0 * tol {
      SquareLeq(v, 2.0 * tol);
    }
  }

  lemma WholeSample(k: nat, tol: real)
    requires tol > 0.0
    ensures SampleAt(k, tol, tol) == if k == 0 then 0.0 else 1.0
  {
    WholeQuotient(k as real, tol);
  }

  lemma WholeQuotient(k: real, tol: real)
    requires tol > 0.0
    ensures k * tol / tol == k
  {
  }

  lemma CellOf(x: real, n: int, tol: real)
    requires tol > 0.0 && n >= 0 && n as real * tol <= x < n as real * tol + tol
    ensures Trunc(x / tol) == n
  {
    QuotientLeq(x, tol, n as real);
    QuotientLeq(x, tol, n as real + 1.0);
    OneMoreTol(n as real, tol);
  }

  lemma SlantIsMissed(h: real, d: real, tol: real)
    requires HalfDiagonal(h) && 0.0 <= d <= tol && tol > 0.0 && !Reached(d, tol)
    ensures var z := SlantAt(h, d, tol); !Sampled(z.p, z.p0, z.p1, tol, tol)
  {
    var z := SlantAt(h, d, tol);
    SlantIsShort(h, d, tol);
    var short := Short(h, d, tol);
    CellOf(2.0 * tol, 2, tol);
    CellOf(2.0 * tol - short, 0, tol);
    assert !Neighbours(CellAt(z.p0, tol), CellAt(z.p, tol)) && !Neighbours(CellAt(z.p1, tol), CellAt(z.p, tol));
    hide CellAt, Neighbours, SlantAt, HalfDiagonal;
    forall k: nat ensures !SampledAt(z.p, z.p0, z.p1, tol, tol, k) {
      WholeSample(k, tol);
      LerpEnds(z.p0, z.p1);
      hide Lerp, SampleAt;
    }
  }

  lemma LerpEnds(p0: Point, p1: Point)
    ensures Lerp(p0, p1, 0.0) == p0 && Lerp(p0, p1, 1.0) == p1
  {
  }

  /** No node that projects into a segment and lies at most d off it is missed by the walk. */
  ghost predicate NoneMissed(dist: Metric, tol: real, d: real)
    requires tol > 0.0
  {
    forall p, p0, p1 :: dist(p0, p1) > 0.0 && OnSegment(p, p0, p1, dist(p0, p1), dist, d) ==> Sampled(p, p0, p1, dist(p0, p1), tol)
  }

  /** That is so exactly up to d = (sqrt(2) - 1/2) tol, which is less than tol. */
  lemma NoneMissedExactly(dist: Metric, tol: real, d: real)
    requires IsEuclid(dist) && tol > 0.0 && d >= 0.0
    ensures NoneMissed(dist, tol, d) <==> Reached(d, tol)
    ensures Reached(d, tol) ==> d < tol
  {
    hide IsEuclid, OnSegment, Sampled, Reached;
    if Reached(d, tol) {
      forall p, p0, p1 | dist(p0, p1) > 0.0 && OnSegment(p, p0, p1, dist(p0, p1), dist, d)
        ensures Sampled(p, p0, p1, dist(p0, p1), tol)
      {
        ReachedIsSampled(p, p0, p1, dist, d, tol);
      }
      ReachedIsClose(d, tol);
    } else {
      var m := if d <= tol then d else tol;
      TolIsBeyond(tol);
      var p, p0, p1 := SomeMissed(dist, tol, m);
      NearerIsOn(p, p0, p1, dist(p0, p1), dist, m, d);
    }
  }

  lemma TolIsBeyond(tol: real)
    requires tol > 0.0
    ensures !Reached(tol, tol)
  {
    assert (2.0 * tol + tol) * (2.0 * tol + tol) == 9.0 * (tol * tol);
    SquareLess(0.0, tol);
  }

  lemma NearerIsOn(p: Point, p0: Point, p1: Point, length: real, dist: Metric, d: real, e: real)
    requires length > 0.0 && OnSegment(p, p0, p1, length, dist, d) && d <= e
    ensures OnSegment(p, p0, p1, length, dist, e)
  {
  }

  lemma SomeMissed(dist: Metric, tol: real, d: real) returns (p: Point, p0: Point, p1: Point)
    requires IsEuclid(dist) && 0.0 <= d <= tol && tol > 0.0 && !Reached(d, tol)
    ensures dist(p0, p1) == tol && OnSegment(p, p0, p1, tol, dist, d) && !Sampled(p, p0, p1, tol, tol)
  {
    hide IsEuclid, Sampled, Reached, Along, Lerp, SlantAt, HalfDiagonal;
    var h := SomeHalfDiagonal(dist);
    var z := SlantAt(h, d, tol);
    SlantLength(h, d, dist, tol);
    SlantMiddle(h, d, tol);
    SlantIsNear(h, d, dist, tol);
    SlantIsMissed(h, d, tol);
    p, p0, p1 := z.p, z.p0, z.p1;
  }
}
