/** What a label says of the board: a point of filled copper has one, and two such points share it
    exactly when copper joins their cells (worker/emi_worker/raster.py). */
module FilledLayers {
  import opened Numbers
  import opened Rasterize
  import opened EvenOdd
  import opened LayerRasters
  import Components

  // ---------- inside, for shapes whose inside can be written down ----------

  /** Twice the area that p, q and the point span: positive to the left of the way from p to q. */
  function Cross(p: Point, q: Point, x: real, y: real): (d: real) {
    (q.0 - p.0) * (y - p.1) - (q.1 - p.1) * (x - p.0)
  }

  lemma EdgeSide(p: Point, q: Point, x: real, y: real)
    requires p.1 != q.1
    ensures q.1 > p.1 ==> (x < EdgeX(p, q, y) <==> Cross(p, q, x, y) > 0.0)
    ensures q.1 < p.1 ==> (x < EdgeX(p, q, y) <==> Cross(p, q, x, y) < 0.0)
  {
    var h, run := q.1 - p.1, (y - p.1) * (q.0 - p.0);
    if h > 0.0 {
      QuotientLess(x - p.0, run, h);
    } else {
      NegateBoth(run, h);
      QuotientLess(x - p.0, -run, -h);
    }
  }

  lemma QuotientLess(a: real, run: real, h: real)
    requires h > 0.0
    ensures a < run / h <==> h * a < run
  {
    DivMul(run, h);
    if a < run / h {
      MulPos(h, run / h - a);
    } else {
      MulNonNeg(h, a - run / h);
    }
  }

  lemma InsideThree(p: Point, q: Point, s: Point, x: real, y: real)
    ensures Inside(x, y, [p, q, s]) <==>
      ((EdgeRight(x, y, p, q) != EdgeRight(x, y, q, s)) != EdgeRight(x, y, s, p))
  {
    var ring := [p, q, s];
    hide EdgeRight;
    assert InsideSoFar(x, y, ring, 0) == false;
    assert InsideSoFar(x, y, ring, 1) == EdgeRight(x, y, p, q);
    assert InsideSoFar(x, y, ring, 2) == (EdgeRight(x, y, p, q) != EdgeRight(x, y, q, s));
  }

  /** The heights of the corners, weighed by the areas across from them, balance at the point. */
  lemma Balance(p: Point, q: Point, s: Point, x: real, y: real)
    ensures Cross(q, s, x, y) * (p.1 - y) + Cross(s, p, x, y) * (q.1 - y) + Cross(p, q, x, y) * (s.1 - y) == 0.0
  {
  }

  ghost predicate HasSignOf(m: real, d: real, h: real) {
    && ((d > 0.0 && h > 0.0) || (d < 0.0 && h < 0.0) ==> m > 0.0)
    && ((d > 0.0 && h < 0.0) || (d < 0.0 && h > 0.0) ==> m < 0.0)
    && (d == 0.0 || h == 0.0 ==> m == 0.0)
  }

  lemma ProductSign(d: real, h: real)
    ensures HasSignOf(d * h, d, h)
  {
  }

  ghost predicate Toggles(d: real, u: real, v: real) {
    (u <= 0.0 < v && d > 0.0) || (v <= 0.0 < u && d < 0.0)
  }

  /** The even-odd rule on three edges, from the heights of the corners and the sides the point is on. */
  lemma ThreeSides(a: real, b: real, c: real, u: real, v: real, w: real, m: real, n: real, o: real)
    requires HasSignOf(m, b, u) && HasSignOf(n, c, v) && HasSignOf(o, a, w) && m + n + o == 0.0
    requires !(u == 0.0 && v == 0.0 && w == 0.0) || (a == 0.0 && b == 0.0 && c == 0.0)
    ensures (a > 0.0 && b > 0.0 && c > 0.0) || (a < 0.0 && b < 0.0 && c < 0.0) ==>
      ((Toggles(a, u, v) != Toggles(b, v, w)) != Toggles(c, w, u))
    ensures (a > 0.0 || b > 0.0 || c > 0.0) && (a < 0.0 || b < 0.0 || c < 0.0) ==>
      !((Toggles(a, u, v) != Toggles(b, v, w)) != Toggles(c, w, u))
  {
  }

  lemma OnTheLine(p: Point, q: Point, x: real, y: real)
    requires p.1 == y && q.1 == y
    ensures Cross(p, q, x, y) == 0.0
  {
  }

  lemma EdgeRightBySide(p: Point, q: Point, x: real, y: real)
    ensures EdgeRight(x, y, p, q) <==>
      (p.1 <= y < q.1 && Cross(p, q, x, y) > 0.0) || (q.1 <= y < p.1 && Cross(p, q, x, y) < 0.0)
  {
    if p.1 != q.1 {
      EdgeSide(p, q, x, y);
    }
  }

  /** A point on one side of all three edges of a triangle is inside it, and one on different sides of
      two edges is outside. */
  lemma TriangleInside(p: Point, q: Point, s: Point, x: real, y: real)
    ensures Cross(p, q, x, y) > 0.0 && Cross(q, s, x, y) > 0.0 && Cross(s, p, x, y) > 0.0 ==> Inside(x, y, [p, q, s])
    ensures Cross(p, q, x, y) < 0.0 && Cross(q, s, x, y) < 0.0 && Cross(s, p, x, y) < 0.0 ==> Inside(x, y, [p, q, s])
    ensures ((Cross(p, q, x, y) > 0.0 || Cross(q, s, x, y) > 0.0 || Cross(s, p, x, y) > 0.0)
      && (Cross(p, q, x, y) < 0.0 || Cross(q, s, x, y) < 0.0 || Cross(s, p, x, y) < 0.0)) ==> !Inside(x, y, [p, q, s])
  {
    hide Cross, Inside, EdgeRight, HasSignOf;
    InsideThree(p, q, s, x, y);
    EdgeRightBySide(p, q, x, y);
    EdgeRightBySide(q, s, x, y);
    EdgeRightBySide(s, p, x, y);
    Balance(p, q, s, x, y);
    var a, b, c := Cross(p, q, x, y), Cross(q, s, x, y), Cross(s, p, x, y);
    var u, v, w := p.1 - y, q.1 - y, s.1 - y;
    ProductSign(b, u);
    ProductSign(c, v);
    ProductSign(a, w);
    if p.1 == y && q.1 == y {
      OnTheLine(p, q, x, y);
    }
    if q.1 == y && s.1 == y {
      OnTheLine(q, s, x, y);
    }
    if s.1 == y && p.1 == y {
      OnTheLine(s, p, x, y);
    }
    ThreeSides(a, b, c, u, v, w, b * u, c * v, a * w);
  }

  // ---------- from the board to the mask ----------

  /** A point of a scanline that is inside one of the rings lies in a cell that is set. */
  lemma InsideIsSet(rings: seq<Ring>, i: nat, x: real, ox: real, oy: real, res: real, width: nat, row: nat, c: nat)
    requires res > 0.0 && c < width && i < |rings| && |rings[i]| >= 3
    requires Inside(x, oy + row as real * res, rings[i])
    requires ox + c as real * res <= x < ox + (c + 1) as real * res
    ensures SomeRingSets(rings, ox, oy, res, width, row, c)
  {
    hide SortedCrossings, Inside, Column;
    var y := oy + row as real * res;
    var xs := SortedCrossings(rings[i], y);
    InsideIsPaired(x, y, rings[i]);
    var k: nat :| InPair(xs, x, k);
    PlaceOf(x, ox, res, c);
    ColumnMonotone(xs[2 * k], x, ox, res);
    ColumnMonotone(x, xs[2 * k + 1], ox, res);
    assert PairSets(xs, |xs|, k, ox, res, width, c);
    assert RingSets(rings[i], ox, oy, res, width, row, c);
  }

  /** The point is on an edge that has one end at or below the point's line and one above it. */
  ghost predicate OnEdge(ring: Ring, x: real, y: real, i: nat)
    requires i < |ring|
  {
    var p, q := ring[i], ring[(i + 1) % |ring|];
    Cross(p, q, x, y) == 0.0 && (p.1 <= y < q.1 || q.1 <= y < p.1)
  }

  lemma {:induction false} CrossingIsOnEdge(ring: Ring, x: real, y: real, n: nat) returns (i: nat)
    requires n <= |ring| && x in Crossings(ring, y, n)
    ensures i < n && OnEdge(ring, x, y, i)
  {
    var p, q := ring[n - 1], Next(ring, n - 1);
    NextIndex(ring, n - 1);
    if Crosses(p.1, q.1, y) && x == CrossX(p, q, y) {
      i := n - 1;
      OnTheEdge(p, q, y);
    } else {
      i := CrossingIsOnEdge(ring, x, y, n - 1);
    }
  }

  lemma OnTheEdge(p: Point, q: Point, y: real)
    requires Crosses(p.1, q.1, y)
    ensures Cross(p, q, CrossX(p, q, y), y) == 0.0
  {
    var h := q.1 - p.1;
    var t := (y - p.1) / h;
    assert t * h == y - p.1;
    assert CrossX(p, q, y) - p.0 == t * (q.0 - p.0);
    Thrice(t, h, q.0 - p.0);
  }

  lemma Thrice(t: real, h: real, w: real)
    ensures w * (t * h) == h * (t * w)
  {
  }

  lemma ColumnStarts(x: real, ox: real, res: real, c: nat)
    requires res > 0.0 && Column(x, ox, res) == c
    ensures ox + (if c == 0 then -1 else c) as real * res <= x < ox + (c + 1) as real * res
  {
    QuotientLeq(x - ox, res, c as real);
    QuotientLeq(x - ox, res, (c + 1) as real);
    QuotientLeq(x - ox, res, -1.0);
  }

  /** A cell right of the first column that is set has, on its scanline, a point that is inside one of
      the rings or on its outline. The first column reaches one cell further left. */
  lemma SetIsOnRing(rings: seq<Ring>, ox: real, oy: real, res: real, width: nat, row: nat, c: nat) returns (i: nat, x: real, e: nat)
    requires res > 0.0 && c < width && SomeRingSets(rings, ox, oy, res, width, row, c)
    requires forall k :: 0 <= k < |rings| && |rings[k]| >= 3 ==> RowFits(rings[k], ScanY(oy, res, row), ox, res, width)
    ensures i < |rings| && |rings[i]| >= 3
    ensures ox + (if c == 0 then -1 else c) as real * res <= x < ox + (c + 1) as real * res
    ensures Inside(x, oy + row as real * res, rings[i]) || (e < |rings[i]| && OnEdge(rings[i], x, oy + row as real * res, e))
  {
    hide Inside, Column, SomeRingSets, RowFits;
    FilledIffOnSomeRing(rings, ox, oy, res, width, row, c);
    i, x :| 0 <= i < |rings| && |rings[i]| >= 3 && OnRingInColumn(rings[i], x, ScanY(oy, res, row), ox, res, c);
    var y := oy + row as real * res;
    ColumnStarts(x, ox, res, c);
    e := 0;
    if !Inside(x, y, rings[i]) {
      e := CrossingIsOnEdge(rings[i], x, y, |rings[i]|);
    }
  }

  /** Two points in cells of copper are given one label exactly when a path of copper joins the cells. */
  lemma SameLabel(layer: LayerRaster, search: int, x: real, y: real, id: nat, r: nat, c: nat,
                  x': real, y': real, id': nat, r': nat, c': nat)
    requires layer.Valid() && layer.ReadsInCell(x, y, search, id) && layer.ReadsInCell(x', y', search, id')
    requires r < layer.labels.Length0 && c < layer.labels.Length1 && layer.mask[r][c]
    requires r' < layer.labels.Length0 && c' < layer.labels.Length1 && layer.mask[r'][c']
    requires InCell(x, y, layer.ox, layer.oy, layer.res, r, c) && InCell(x', y', layer.ox, layer.oy, layer.res, r', c')
    ensures id == id' <==> Components.Connected(layer.mask, (r, c), (r', c'))
  {
    assert Components.Copper(layer.mask, (r, c)) && Components.Copper(layer.mask, (r', c'));
  }

  /** The point is inside the ring and in the column. */
  ghost predicate Covers(ring: Ring, x: real, y: real, ox: real, res: real, width: nat, c: nat) {
    |ring| >= 3 && c < width && ox + c as real * res <= x < ox + (c + 1) as real * res && Inside(x, y, ring)
  }

  /** A point of a scanline inside one of the rings that the mask was filled from has a label. */
  lemma InsideHasLabel(layer: LayerRaster, rings: seq<Ring>, i: nat, search: int, x: real, id: nat, r: nat, c: nat)
    requires layer.Valid() && r < layer.labels.Length0 && c < layer.labels.Length1
    requires layer.mask[r][c] <==> SomeRingSets(rings, layer.ox, layer.oy, layer.res, layer.labels.Length1, r, c)
    requires i < |rings| && Covers(rings[i], x, layer.oy + r as real * layer.res, layer.ox, layer.res, layer.labels.Length1, c)
    requires layer.ReadsInCell(x, layer.oy + r as real * layer.res, search, id)
    ensures id != 0 && id == layer.labels[r, c]
  {
    hide SomeRingSets, Inside, LayerRaster.ReadsInCell, Components.IsMask, Components.IsLabelling;
    InsideIsSet(rings, i, x, layer.ox, layer.oy, layer.res, layer.labels.Length1, r, c);
    NextStart(layer.oy, layer.res, r);
    ReadsCopper(layer, x, layer.oy + r as real * layer.res, search, id, r, c);
  }

  lemma ReadsCopper(layer: LayerRaster, x: real, y: real, search: int, id: nat, r: nat, c: nat)
    requires layer.Valid() && layer.ReadsInCell(x, y, search, id)
    requires r < layer.labels.Length0 && c < layer.labels.Length1 && layer.mask[r][c]
    requires InCell(x, y, layer.ox, layer.oy, layer.res, r, c)
    ensures id == layer.labels[r, c] != 0
  {
  }

  lemma NextStart(o: real, res: real, r: nat)
    requires res > 0.0
    ensures o + r as real * res < o + (r + 1) as real * res
  {
    assert (r + 1) as real * res == r as real * res + res;
  }
}
