/** Filling polygons into a mask (worker/emi_worker/raster.py), against the even-odd rule. */
module Rasterize {
  import opened Numbers
  import opened Sorting

  type Point = (real, real)
  type Ring = seq<Point>

  // ---------- crossings of a scanline ----------

  /** The half-open rule: an edge crosses when exactly one of its ends is at or below the line. */
  predicate Crosses(y0: real, y1: real, sy: real) {
    (y0 <= sy && y1 > sy) || (y1 <= sy && y0 > sy)
  }

  function CrossX(p: Point, q: Point, sy: real): (x: real)
    requires Crosses(p.1, q.1, sy)
  {
    var t := (sy - p.1) / (q.1 - p.1);
    p.0 + t * (q.0 - p.0)
  }

  function Next(ring: Ring, i: nat): (p: Point)
    requires i < |ring|
  {
    if i + 1 < |ring| then ring[i + 1] else ring[0]
  }

  /** Where the first n edges of the closed ring cross the scanline, in edge order. */
  function Crossings(ring: Ring, sy: real, n: nat): (xs: seq<real>)
    requires n <= |ring|
  {
    if n == 0 then []
    else
      var before := Crossings(ring, sy, n - 1);
      var p, q := ring[n - 1], Next(ring, n - 1);
      if Crosses(p.1, q.1, sy) then before + [CrossX(p, q, sy)] else before
  }

  lemma {:induction false} CrossingParity(ring: Ring, sy: real, n: nat)
    requires n < |ring|
    ensures |Crossings(ring, sy, n)| % 2 == 0 <==> (ring[0].1 <= sy <==> ring[n].1 <= sy)
  {
    if n > 0 {
      CrossingParity(ring, sy, n - 1);
    }
  }

  /** A closed ring crosses every scanline an even number of times, so pairing leaves none over. */
  lemma EvenCrossings(ring: Ring, sy: real)
    ensures |Crossings(ring, sy, |ring|)| % 2 == 0
  {
    if |ring| > 0 {
      CrossingParity(ring, sy, |ring| - 1);
    }
  }

  // ---------- where a crossing lies ----------

  function Partway(a: real, b: real, t: real): (r: real) {
    a + t * (b - a)
  }

  lemma Between(a: real, b: real, t: real)
    requires 0.0 <= t <= 1.0
    ensures a <= Partway(a, b, t) <= b || b <= Partway(a, b, t) <= a
  {
    if a <= b {
      MulNonNeg(t, b - a);
      MulNonNeg(1.0 - t, b - a);
      assert (1.0 - t) * (b - a) == b - a - t * (b - a);
    } else {
      MulNonNeg(t, a - b);
      MulNonNeg(1.0 - t, a - b);
      assert t * (b - a) == -(t * (a - b));
      assert (1.0 - t) * (a - b) == a - b - t * (a - b);
    }
  }

  lemma CrossIsPartway(p: Point, q: Point, y: real)
    requires Crosses(p.1, q.1, y)
    ensures CrossX(p, q, y) == Partway(p.0, q.0, (y - p.1) / (q.1 - p.1))
  {
  }

  lemma Fraction(a: real, b: real)
    requires (0.0 <= a <= b && b > 0.0) || (b <= a <= 0.0 && b < 0.0)
    ensures 0.0 <= a / b <= 1.0
  {
    if b > 0.0 {
      QuotientLeq(a, b, 1.0);
      QuotientLeq(a, b, 0.0);
    } else {
      NegateBoth(a, b);
      QuotientLeq(-a, -b, 1.0);
      QuotientLeq(-a, -b, 0.0);
    }
  }

  /** A crossing lies between the ends of its edge. */
  lemma CrossWithin(p: Point, q: Point, y: real, x0: real, x1: real)
    requires Crosses(p.1, q.1, y) && x0 <= p.0 <= x1 && x0 <= q.0 <= x1
    ensures x0 <= CrossX(p, q, y) <= x1
  {
    hide CrossX, Partway;
    Fraction(y - p.1, q.1 - p.1);
    CrossIsPartway(p, q, y);
    Between(p.0, q.0, (y - p.1) / (q.1 - p.1));
  }

  function RealLeq(): (leq: (real, real) -> bool)
    ensures TotalOrder(leq)
    ensures forall a, b :: leq(a, b) <==> a <= b
  {
    (a, b) => a <= b
  }

  function SortedCrossings(ring: Ring, sy: real): (xs: seq<real>)
    ensures |xs| % 2 == 0 && |xs| == |Crossings(ring, sy, |ring|)|
    ensures forall i, j :: 0 <= i < j < |xs| ==> xs[i] <= xs[j]
    ensures multiset(xs) == multiset(Crossings(ring, sy, |ring|))
  {
    EvenCrossings(ring, sy);
    Sort(Crossings(ring, sy, |ring|), RealLeq())
  }

  // ---------- rows the ring can reach ----------

  function MinY(ring: Ring): (y: real)
    requires |ring| > 0
    ensures forall i :: 0 <= i < |ring| ==> y <= ring[i].1
  {
    if |ring| == 1 then ring[0].1
    else var m := MinY(ring[1..]); if ring[0].1 <= m then ring[0].1 else m
  }

  function MaxY(ring: Ring): (y: real)
    requires |ring| > 0
    ensures forall i :: 0 <= i < |ring| ==> ring[i].1 <= y
  {
    if |ring| == 1 then ring[0].1
    else var m := MaxY(ring[1..]); if ring[0].1 >= m then ring[0].1 else m
  }

  function RowLo(ring: Ring, oy: real, res: real): (r: nat)
    requires |ring| > 0 && res > 0.0
  {
    Max(0, Trunc((MinY(ring) - oy) / res))
  }

  function RowHi(ring: Ring, oy: real, res: real, height: nat): (r: int)
    requires |ring| > 0 && res > 0.0
  {
    Min(height - 1, Trunc((MaxY(ring) - oy) / res) + 1)
  }

  function ScanY(oy: real, res: real, row: int): (y: real) {
    oy + row as real * res
  }

  lemma {:induction false} CrossingBetween(ring: Ring, sy: real, n: nat)
    requires n <= |ring| && |ring| > 0 && Crossings(ring, sy, n) != []
    ensures MinY(ring) <= sy < MaxY(ring)
  {
    var p, q := ring[n - 1], Next(ring, n - 1);
    if !Crosses(p.1, q.1, sy) {
      CrossingBetween(ring, sy, n - 1);
    }
  }

  /** Clipping to the ring's own rows loses no row that the ring crosses. */
  lemma RowsKept(ring: Ring, oy: real, res: real, height: nat, row: nat)
    requires |ring| > 0 && res > 0.0 && row < height
    requires Crossings(ring, ScanY(oy, res, row), |ring|) != []
    ensures RowLo(ring, oy, res) <= row <= RowHi(ring, oy, res, height)
  {
    CrossingBetween(ring, ScanY(oy, res, row), |ring|);
    RowBounds(MinY(ring), MaxY(ring), oy, res, row);
  }

  lemma RowBounds(lo: real, hi: real, oy: real, res: real, row: nat)
    requires res > 0.0 && lo <= ScanY(oy, res, row) < hi
    ensures Trunc((lo - oy) / res) <= row < Trunc((hi - oy) / res) + 1
  {
    QuotientLeq(lo - oy, res, row as real);
    QuotientLeq(hi - oy, res, row as real);
  }

  // ---------- one span of a row ----------

  function Column(x: real, ox: real, res: real): (c: int)
    requires res > 0.0
  {
    Trunc((x - ox) / res)
  }

  /** Where a slice ends: a negative stop counts from the right edge. */
  function SliceEnd(stop: int, width: nat): (e: int) {
    if stop < 0 then Max(0, stop + width) else stop
  }

  /** The columns that writing the span a..b sets. */
  predicate Writes(a: int, b: int, width: nat, c: int) {
    b >= a && Max(0, a) <= c < SliceEnd(Min(width, b + 1), width)
  }

  /** Writing a span sets exactly its columns inside the row, unless its end lies so far left
      of the origin that the slice's stop turns negative and still reaches into the row. */
  lemma SpanWritesItself(a: int, b: int, width: nat)
    requires a <= b
    ensures (forall c :: 0 <= c < width ==> (Writes(a, b, width, c) <==> a <= c <= b))
            <==> (b >= -1 || width + b + 1 <= 0)
  {
    if b < -1 && width + b + 1 > 0 {
      assert Writes(a, b, width, 0) && 0 < width;
    }
  }

  /** One of the pairs among the first n sorted crossings writes the column. */
  ghost predicate PairsSet(xs: seq<real>, n: nat, ox: real, res: real, width: nat, c: nat)
    requires n <= |xs| && res > 0.0
  {
    exists k: nat :: PairSets(xs, n, k, ox, res, width, c)
  }

  ghost predicate PairSets(xs: seq<real>, n: nat, k: nat, ox: real, res: real, width: nat, c: nat)
    requires n <= |xs| && res > 0.0
  {
    2 * k + 1 < n && Writes(Column(xs[2 * k], ox, res), Column(xs[2 * k + 1], ox, res), width, c)
  }

  lemma OneMorePair(xs: seq<real>, i: nat, ox: real, res: real, width: nat, c: nat)
    requires i % 2 == 0 && i + 1 < |xs| && res > 0.0
    ensures PairsSet(xs, i + 2, ox, res, width, c) <==>
      PairsSet(xs, i, ox, res, width, c) || Writes(Column(xs[i], ox, res), Column(xs[i + 1], ox, res), width, c)
  {
    var h := i / 2;
    assert 2 * h == i;
    if PairsSet(xs, i + 2, ox, res, width, c) {
      var k: nat :| PairSets(xs, i + 2, k, ox, res, width, c);
      assert k == h || PairSets(xs, i, k, ox, res, width, c);
    }
    if PairsSet(xs, i, ox, res, width, c) {
      var k: nat :| PairSets(xs, i, k, ox, res, width, c);
      assert PairSets(xs, i + 2, k, ox, res, width, c);
    }
    if Writes(Column(xs[i], ox, res), Column(xs[i + 1], ox, res), width, c) {
      assert PairSets(xs, i + 2, h, ox, res, width, c);
    }
  }

  /** The ring sets this cell of the row. */
  ghost predicate RingSets(ring: Ring, ox: real, oy: real, res: real, width: nat, row: nat, c: nat)
    requires res > 0.0
  {
    var xs := SortedCrossings(ring, ScanY(oy, res, row));
    |ring| >= 3 && PairsSet(xs, |xs|, ox, res, width, c)
  }

  /** Some ring of the list sets the cell. */
  ghost predicate SomeRingSets(rings: seq<Ring>, ox: real, oy: real, res: real, width: nat, row: nat, c: nat)
    requires res > 0.0
  {
    exists i :: 0 <= i < |rings| && RingSets(rings[i], ox, oy, res, width, row, c)
  }

  /** Pairs of crossings of one scanline, written left to right. */
  method FillRow(mask: array2<bool>, row: nat, xs: seq<real>, ox: real, res: real)
    requires row < mask.Length0 && res > 0.0 && |xs| % 2 == 0
    modifies mask
    ensures forall r: nat, c: nat :: r < mask.Length0 && c < mask.Length1 ==>
      (mask[r, c] <==> old(mask[r, c]) || (r == row && PairsSet(xs, |xs|, ox, res, mask.Length1, c)))
  {
    var width := mask.Length1;
    var i: nat := 0;
    while i < |xs| - 1
      invariant i % 2 == 0 && i <= |xs|
      invariant forall r: nat, c: nat :: r < mask.Length0 && c < width ==>
        (mask[r, c] <==> old(mask[r, c]) || (r == row && PairsSet(xs, i, ox, res, width, c)))
    {
      hide PairsSet;
      var a := Column(xs[i], ox, res);
      var b := Column(xs[i + 1], ox, res);
      forall c: nat { OneMorePair(xs, i, ox, res, width, c); }
      if b >= a {
        forall c | Max(0, a) <= c < SliceEnd(Min(width, b + 1), width) {
          mask[row, c] := true;
        }
      }
      i := i + 2;
    }
  }

  /** The cells of row r that the first n rings set. */
  ghost predicate SetSoFar(rings: seq<Ring>, n: nat, ox: real, oy: real, res: real, width: nat, r: nat, c: nat)
    requires n <= |rings| && res > 0.0
  {
    SomeRingSets(rings[..n], ox, oy, res, width, r, c)
  }

  lemma OneMoreRing(rings: seq<Ring>, n: nat, ox: real, oy: real, res: real, width: nat, r: nat, c: nat)
    requires n < |rings| && res > 0.0
    ensures SetSoFar(rings, n + 1, ox, oy, res, width, r, c) <==>
      SetSoFar(rings, n, ox, oy, res, width, r, c) || RingSets(rings[n], ox, oy, res, width, r, c)
  {
    hide RingSets;
    if SetSoFar(rings, n + 1, ox, oy, res, width, r, c) {
      var i :| 0 <= i < |rings[..n + 1]| && RingSets(rings[..n + 1][i], ox, oy, res, width, r, c);
      assert i == n || rings[..n][i] == rings[..n + 1][i];
    }
    if SetSoFar(rings, n, ox, oy, res, width, r, c) {
      var i :| 0 <= i < |rings[..n]| && RingSets(rings[..n][i], ox, oy, res, width, r, c);
      assert rings[..n + 1][i] == rings[..n][i];
    }
    assert rings[..n + 1][n] == rings[n];
  }

  /** One ring: only its own rows are visited, and rows without a crossing are skipped. */
  method FillRing(mask: array2<bool>, ring: Ring, ox: real, oy: real, res: real)
    requires res > 0.0 && |ring| >= 3
    modifies mask
    ensures forall r: nat, c: nat :: r < mask.Length0 && c < mask.Length1 ==>
      (mask[r, c] <==> old(mask[r, c]) || RingSets(ring, ox, oy, res, mask.Length1, r, c))
  {
    hide Writes, Column, RowLo, RowHi, PairsSet;
    var height, width := mask.Length0, mask.Length1;
    var lo := RowLo(ring, oy, res);
    var hi := RowHi(ring, oy, res, height);
    RowHiBelow(ring, oy, res, height);
    var row := lo;
    while row < hi + 1
      invariant lo <= row
      invariant forall r: nat, c: nat :: r < height && c < width ==>
        (mask[r, c] <==> old(mask[r, c]) || (lo <= r < row && RingSets(ring, ox, oy, res, width, r, c)))
    {
      var sy := ScanY(oy, res, row);
      if |Crossings(ring, sy, |ring|)| != 0 {
        FillRow(mask, row, SortedCrossings(ring, sy), ox, res);
      } else {
        forall c: nat ensures !RingSets(ring, ox, oy, res, width, row, c) {
          NoCrossingNoFill(ring, ox, oy, res, width, row, c);
        }
      }
      row := row + 1;
    }
    forall r: nat, c: nat | r < height && RingSets(ring, ox, oy, res, width, r, c) ensures lo <= r < row {
      if Crossings(ring, ScanY(oy, res, r), |ring|) == [] {
        NoCrossingNoFill(ring, ox, oy, res, width, r, c);
      } else {
        RowsKept(ring, oy, res, height, r);
      }
    }
  }

  lemma RowHiBelow(ring: Ring, oy: real, res: real, height: nat)
    requires |ring| > 0 && res > 0.0
    ensures RowHi(ring, oy, res, height) < height
  {
  }

  lemma NoCrossingNoFill(ring: Ring, ox: real, oy: real, res: real, width: nat, row: nat, c: nat)
    requires res > 0.0 && |Crossings(ring, ScanY(oy, res, row), |ring|)| == 0
    ensures !RingSets(ring, ox, oy, res, width, row, c)
  {
  }

  /** rasterize_rings: a cell is set exactly when some ring sets it, whatever their order. */
  method RasterizeRings(rings: seq<Ring>, ox: real, oy: real, height: nat, width: nat, res: real) returns (mask: array2<bool>)
    requires res > 0.0
    ensures mask.Length0 == height && mask.Length1 == width
    ensures forall r: nat, c: nat :: r < height && c < width ==>
      (mask[r, c] <==> SomeRingSets(rings, ox, oy, res, width, r, c))
  {
    hide RingSets, SomeRingSets;
    mask := new bool[height, width]((_, _) => false);
    var n := 0;
    forall r: nat, c: nat { NoRingsNoFill(rings, ox, oy, res, width, r, c); }
    while n < |rings|
      invariant 0 <= n <= |rings| && fresh(mask) && mask.Length0 == height && mask.Length1 == width
      invariant forall r: nat, c: nat :: r < height && c < width ==>
        (mask[r, c] <==> SetSoFar(rings, n, ox, oy, res, width, r, c))
    {
      forall r: nat, c: nat { OneMoreRing(rings, n, ox, oy, res, width, r, c); }
      if |rings[n]| >= 3 {
        FillRing(mask, rings[n], ox, oy, res);
      } else {
        forall r: nat, c: nat { ShortRing(rings[n], ox, oy, res, width, r, c); }
      }
      n := n + 1;
    }
    assert rings[..n] == rings;
  }

  lemma NoRingsNoFill(rings: seq<Ring>, ox: real, oy: real, res: real, width: nat, r: nat, c: nat)
    requires res > 0.0
    ensures !SetSoFar(rings, 0, ox, oy, res, width, r, c)
  {
  }

  lemma ShortRing(ring: Ring, ox: real, oy: real, res: real, width: nat, r: nat, c: nat)
    requires res > 0.0 && |ring| < 3
    ensures !RingSets(ring, ox, oy, res, width, r, c)
  {
  }
}
