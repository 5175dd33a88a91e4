/** The even-odd rule for one point (worker/emi_worker/kicad/geometry.py), and what filling by
    sorted pairs of crossings has to do with it. */
module EvenOdd {
  import opened Numbers
  import opened Rasterize
  import Sorting

  /** The edge crosses the point's own line, to its right. */
  predicate EdgeRight(x: real, y: real, p: Point, q: Point) {
    (p.1 > y) != (q.1 > y) && x < EdgeX(p, q, y)
  }

  function EdgeX(p: Point, q: Point, y: real): (x: real)
    requires p.1 != q.1
  {
    p.0 + (y - p.1) * (q.0 - p.0) / (q.1 - p.1)
  }

  /** Whether the first n edges leave the point inside: each edge to its right toggles. */
  function InsideSoFar(x: real, y: real, ring: Ring, n: nat): (inside: bool)
    requires n <= |ring|
  {
    if n == 0 then false
    else InsideSoFar(x, y, ring, n - 1) != EdgeRight(x, y, ring[n - 1], Next(ring, n - 1))
  }

  function Inside(x: real, y: real, ring: Ring): (inside: bool) {
    InsideSoFar(x, y, ring, |ring|)
  }

  lemma NextIndex(ring: Ring, i: nat)
    requires i < |ring|
    ensures ring[(i + 1) % |ring|] == Next(ring, i)
  {
  }

  /** point_in_ring. */
  method PointInRing(x: real, y: real, ring: Ring) returns (inside: bool)
    ensures inside == Inside(x, y, ring)
  {
    inside := false;
    var n := |ring|;
    var i := 0;
    while i < n
      invariant 0 <= i <= n && inside == InsideSoFar(x, y, ring, i)
    {
      NextIndex(ring, i);
      var p, q := ring[i], ring[(i + 1) % n];
      hide Next, EdgeX;
      ghost var was := inside;
      if (p.1 > y) != (q.1 > y) {
        var xi := EdgeX(p, q, y);
        if x < xi {
          inside := !inside;
        }
      }
      assert inside == (was != EdgeRight(x, y, p, q));
      hide EdgeRight;
      i := i + 1;
    }
  }

  /** How many crossings lie strictly right of x. */
  function CountRight(xs: seq<real>, x: real): (n: nat)
    ensures n <= |xs|
  {
    if xs == [] then 0 else CountRight(xs[..|xs| - 1], x) + if xs[|xs| - 1] > x then 1 else 0
  }

  lemma EdgeRightCrosses(x: real, y: real, p: Point, q: Point)
    ensures EdgeRight(x, y, p, q) <==> Crosses(p.1, q.1, y) && CrossX(p, q, y) > x
  {
  }

  lemma CountRightLast(before: seq<real>, last: real, x: real)
    ensures CountRight(before + [last], x) == CountRight(before, x) + if last > x then 1 else 0
  {
  }

  lemma CrossingsStep(ring: Ring, y: real, n: nat, x: real)
    requires 0 < n <= |ring|
    ensures CountRight(Crossings(ring, y, n), x) == CountRight(Crossings(ring, y, n - 1), x)
              + if EdgeRight(x, y, ring[n - 1], Next(ring, n - 1)) then 1 else 0
  {
    var p, q := ring[n - 1], Next(ring, n - 1);
    EdgeRightCrosses(x, y, p, q);
    hide CrossX, EdgeRight, CountRight;
    if Crosses(p.1, q.1, y) {
      CountRightLast(Crossings(ring, y, n - 1), CrossX(p, q, y), x);
    }
  }

  lemma Toggle(count: nat, right: bool)
    ensures (count + if right then 1 else 0) % 2 == 1 <==> (count % 2 == 1) != right
  {
  }

  lemma {:induction false} InsideIsOdd(x: real, y: real, ring: Ring, n: nat)
    requires n <= |ring|
    ensures InsideSoFar(x, y, ring, n) <==> CountRight(Crossings(ring, y, n), x) % 2 == 1
  {
    if n > 0 {
      hide EdgeRight, Next, Crossings, CountRight;
      InsideIsOdd(x, y, ring, n - 1);
      CrossingsStep(ring, y, n, x);
      Toggle(CountRight(Crossings(ring, y, n - 1), x), EdgeRight(x, y, ring[n - 1], Next(ring, n - 1)));
    }
  }

  lemma {:induction false} CountRightConcat(a: seq<real>, b: seq<real>, x: real)
    ensures CountRight(a + b, x) == CountRight(a, x) + CountRight(b, x)
  {
    if b == [] {
      assert a + b == a;
    } else {
      CountRightConcat(a, b[..|b| - 1], x);
      assert (a + b)[..|a + b| - 1] == a + b[..|b| - 1];
    }
  }

  lemma {:induction false} CountRightPermuted(a: seq<real>, b: seq<real>, x: real)
    requires multiset(a) == multiset(b)
    ensures CountRight(a, x) == CountRight(b, x)
  {
    if a == [] {
      assert |b| == |multiset(b)| == |multiset(a)| == 0;
    } else {
      var k := Sorting.TakeOut(a, b);
      var l, r := b[..k], b[k + 1..];
      CountRightPermuted(a[..|a| - 1], l + r, x);
      CountRightConcat(l, r, x);
      CountRightConcat(l + [b[k]], r, x);
      CountRightConcat(l, [b[k]], x);
      assert [b[k]][..0] == [];
    }
  }

  ghost predicate Rising(xs: seq<real>) {
    forall i, j :: 0 <= i < j < |xs| ==> xs[i] <= xs[j]
  }

  lemma {:induction false} CountAll(xs: seq<real>, x: real)
    requires forall i :: 0 <= i < |xs| ==> xs[i] > x
    ensures CountRight(xs, x) == |xs|
  {
    if xs != [] {
      CountAll(xs[..|xs| - 1], x);
    }
  }

  ghost predicate InPair(xs: seq<real>, x: real, k: nat) {
    2 * k + 1 < |xs| && xs[2 * k] <= x < xs[2 * k + 1]
  }

  /** Between the two crossings of a pair the count to the right is odd, elsewhere even. */
  lemma {:induction false} PairsAreOdd(xs: seq<real>, x: real)
    requires Rising(xs) && |xs| % 2 == 0
    ensures CountRight(xs, x) % 2 == 1 <==> exists k: nat :: InPair(xs, x, k)
  {
    hide InPair, CountRight;
    if xs == [] {
      CountAll(xs, x);
      NoPairLeft(xs, x);
    } else if x < xs[0] {
      CountAll(xs, x);
      NoPairLeft(xs, x);
    } else {
      var tail := xs[2..];
      assert xs == [xs[0], xs[1]] + tail;
      CountRightConcat([xs[0], xs[1]], tail, x);
      CountTwo(xs[0], xs[1], x);
      if x < xs[1] {
        CountAll(tail, x);
        FirstPair(xs, x);
      } else {
        PairsAreOdd(tail, x);
        ShiftPairs(xs, x);
      }
    }
  }

  lemma NoPairLeft(xs: seq<real>, x: real)
    requires Rising(xs) && (xs != [] ==> x < xs[0])
    ensures !exists k: nat :: InPair(xs, x, k)
  {
  }

  lemma FirstPair(xs: seq<real>, x: real)
    requires |xs| >= 2 && xs[0] <= x < xs[1]
    ensures exists k: nat :: InPair(xs, x, k)
  {
    assert InPair(xs, x, 0);
  }

  lemma CountTwo(a: real, b: real, x: real)
    ensures CountRight([a, b], x) == (if a > x then 1 else 0) + (if b > x then 1 else 0)
  {
  }

  lemma ShiftPairs(xs: seq<real>, x: real)
    requires |xs| >= 2 && x >= xs[1]
    ensures (exists k: nat :: InPair(xs, x, k)) <==> exists k: nat :: InPair(xs[2..], x, k)
  {
    if k: nat :| InPair(xs, x, k) {
      assert InPair(xs[2..], x, k - 1);
    }
    if k: nat :| InPair(xs[2..], x, k) {
      assert InPair(xs, x, k + 1);
    }
  }

  /** A point is inside by the even-odd rule exactly when it lies in a pair of sorted crossings. */
  lemma InsideIsPaired(x: real, y: real, ring: Ring)
    ensures Inside(x, y, ring) <==> exists k: nat :: InPair(SortedCrossings(ring, y), x, k)
  {
    InsideIsOdd(x, y, ring, |ring|);
    CountRightPermuted(SortedCrossings(ring, y), Crossings(ring, y, |ring|), x);
    PairsAreOdd(SortedCrossings(ring, y), x);
  }

  // ---------- cells ----------

  /** The point is copper by the even-odd rule, or on the outline. */
  ghost predicate OnRing(ring: Ring, x: real, y: real) {
    Inside(x, y, ring) || x in Crossings(ring, y, |ring|)
  }

  ghost predicate OnRingInColumn(ring: Ring, x: real, y: real, ox: real, res: real, c: int)
    requires res > 0.0
  {
    Column(x, ox, res) == c && OnRing(ring, x, y)
  }

  lemma ColumnMonotone(x: real, y: real, ox: real, res: real)
    requires res > 0.0 && x <= y
    ensures Column(x, ox, res) <= Column(y, ox, res)
  {
    DivMul(y - ox, res);
    QuotientLeq(x - ox, res, (y - ox) / res);
  }

  /** Some point of column c lies between l and r if c lies between their columns. */
  lemma ColumnReached(l: real, r: real, ox: real, res: real, c: nat) returns (x: real)
    requires res > 0.0 && l <= r && Column(l, ox, res) <= c <= Column(r, ox, res)
    ensures l <= x <= r && Column(x, ox, res) == c
  {
    hide Column;
    if Column(l, ox, res) == c {
      x := l;
    } else if Column(r, ox, res) == c {
      x := r;
    } else {
      x := ox + c as real * res;
      InsideColumn(l, ox, res, c);
      InsideColumn(r, ox, res, c);
      StartOfColumn(ox, res, c);
    }
  }

  lemma StartOfColumn(ox: real, res: real, c: nat)
    requires res > 0.0
    ensures Column(ox + c as real * res, ox, res) == c
  {
    DivideExact(c as real, res);
    assert ox + c as real * res - ox == c as real * res;
  }

  /** Points of earlier columns lie left of where column c starts, points of later ones right of it. */
  lemma InsideColumn(x: real, ox: real, res: real, c: nat)
    requires res > 0.0
    ensures Column(x, ox, res) < c ==> x <= ox + c as real * res
    ensures Column(x, ox, res) > c ==> x >= ox + c as real * res
  {
    QuotientLeq(x - ox, res, c as real);
  }

  lemma DivideExact(k: real, res: real)
    requires res > 0.0
    ensures (k * res) / res == k
  {
  }

  ghost predicate InClosedPair(xs: seq<real>, x: real, k: nat) {
    2 * k + 1 < |xs| && xs[2 * k] <= x <= xs[2 * k + 1]
  }

  lemma ClosedPairOf(xs: seq<real>, x: real)
    requires Rising(xs) && |xs| % 2 == 0
    ensures (exists k: nat :: InClosedPair(xs, x, k)) <==> (exists k: nat :: InPair(xs, x, k)) || x in xs
  {
    if k: nat :| InPair(xs, x, k) {
      assert InClosedPair(xs, x, k);
    }
    if m :| 0 <= m < |xs| && xs[m] == x {
      var k := m / 2;
      assert m == 2 * k || m == 2 * k + 1;
      assert InClosedPair(xs, x, k);
    }
    if k: nat :| InClosedPair(xs, x, k) {
      assert InPair(xs, x, k) || xs[2 * k + 1] == x;
    }
  }

  lemma ClosedPairs(ring: Ring, x: real, y: real)
    ensures OnRing(ring, x, y) <==> exists k: nat :: InClosedPair(SortedCrossings(ring, y), x, k)
  {
    hide InPair, InClosedPair, Inside, Crossings;
    var xs := SortedCrossings(ring, y);
    InsideIsPaired(x, y, ring);
    ClosedPairOf(xs, x);
    assert x in xs <==> x in multiset(xs);
    assert x in Crossings(ring, y, |ring|) <==> x in multiset(Crossings(ring, y, |ring|));
  }

  // ---------- which rows come out right ----------

  /** The right end of the k-th pair of crossings. */
  ghost function PairEnd(ring: Ring, y: real, k: nat, ox: real, res: real): (b: int)
    requires res > 0.0 && 2 * k + 1 < |SortedCrossings(ring, y)|
  {
    Column(SortedCrossings(ring, y)[2 * k + 1], ox, res)
  }

  /** Every pair of the row ends right of two columns left of the raster, or so far left that the
      slice's stop stays left of the row. */
  ghost predicate RowFits(ring: Ring, y: real, ox: real, res: real, width: nat)
    requires res > 0.0
  {
    forall k: nat :: 2 * k + 1 < |SortedCrossings(ring, y)| ==>
      PairEnd(ring, y, k, ox, res) >= -1 || width + PairEnd(ring, y, k, ox, res) + 1 <= 0
  }

  /** A cell is set exactly when some point of its column on the scanline is inside the ring by the
      even-odd rule or on its outline. */
  lemma FilledIffOnRing(ring: Ring, ox: real, oy: real, res: real, width: nat, row: nat, c: nat)
    requires res > 0.0 && |ring| >= 3 && c < width && RowFits(ring, ScanY(oy, res, row), ox, res, width)
    ensures RingSets(ring, ox, oy, res, width, row, c) <==>
      exists x :: OnRingInColumn(ring, x, ScanY(oy, res, row), ox, res, c)
  {
    var y := ScanY(oy, res, row);
    var xs := SortedCrossings(ring, y);
    if RingSets(ring, ox, oy, res, width, row, c) {
      var k: nat :| PairSets(xs, |xs|, k, ox, res, width, c);
      ColumnMonotone(xs[2 * k], xs[2 * k + 1], ox, res);
      assert PairEnd(ring, y, k, ox, res) == Column(xs[2 * k + 1], ox, res);
      SpanWritesItself(Column(xs[2 * k], ox, res), Column(xs[2 * k + 1], ox, res), width);
      var x := ColumnReached(xs[2 * k], xs[2 * k + 1], ox, res, c);
      assert InClosedPair(xs, x, k);
      ClosedPairs(ring, x, y);
      assert OnRingInColumn(ring, x, y, ox, res, c);
    }
    if x :| OnRingInColumn(ring, x, y, ox, res, c) {
      ClosedPairs(ring, x, y);
      var k: nat :| InClosedPair(xs, x, k);
      ColumnMonotone(xs[2 * k], x, ox, res);
      ColumnMonotone(x, xs[2 * k + 1], ox, res);
      assert PairEnd(ring, y, k, ox, res) == Column(xs[2 * k + 1], ox, res);
      SpanWritesItself(Column(xs[2 * k], ox, res), Column(xs[2 * k + 1], ox, res), width);
      assert PairSets(xs, |xs|, k, ox, res, width, c);
    }
  }

  /** The ring fills the row as the even-odd rule says. */
  ghost predicate RowRight(ring: Ring, ox: real, oy: real, res: real, width: nat, row: nat)
    requires res > 0.0
  {
    forall c: nat :: c < width ==> (RingSets(ring, ox, oy, res, width, row, c) <==>
      exists x :: OnRingInColumn(ring, x, ScanY(oy, res, row), ox, res, c))
  }

  /** No column reached by the ring lies right of its last crossing. */
  lemma LastColumn(ring: Ring, x: real, y: real, ox: real, res: real, c: int)
    requires res > 0.0 && OnRingInColumn(ring, x, y, ox, res, c)
    ensures var xs := SortedCrossings(ring, y); xs != [] && c <= Column(xs[|xs| - 1], ox, res)
  {
    hide OnRing, Column, SortedCrossings;
    var xs := SortedCrossings(ring, y);
    ClosedPairs(ring, x, y);
    var k: nat :| InClosedPair(xs, x, k);
    ColumnMonotone(x, xs[|xs| - 1], ox, res);
  }

  /** A pair that ends two columns or more left of the raster wraps around in a wide enough one. */
  lemma LeftPairWraps(ring: Ring, ox: real, oy: real, res: real, row: nat, k: nat) returns (width: nat)
    requires res > 0.0 && |ring| >= 3 && 2 * k + 1 < |SortedCrossings(ring, ScanY(oy, res, row))|
    requires PairEnd(ring, ScanY(oy, res, row), k, ox, res) < -1
    ensures !RowRight(ring, ox, oy, res, width, row)
  {
    var y := ScanY(oy, res, row);
    var xs := SortedCrossings(ring, y);
    var a, b := Column(xs[2 * k], ox, res), Column(xs[2 * k + 1], ox, res);
    ColumnMonotone(xs[2 * k], xs[2 * k + 1], ox, res);
    var c: nat := Max(0, Column(xs[|xs| - 1], ox, res)) + 1;
    width := c - b;
    assert Writes(a, b, width, c);
    assert PairSets(xs, |xs|, k, ox, res, width, c);
    assert RingSets(ring, ox, oy, res, width, row, c);
    forall x ensures !OnRingInColumn(ring, x, y, ox, res, c) {
      if OnRingInColumn(ring, x, y, ox, res, c) {
        LastColumn(ring, x, y, ox, res, c);
      }
    }
  }

  /** A row comes out right in rasters of every width exactly when no pair of its crossings ends more
      than one column left of the raster. */
  lemma RowRightExactly(ring: Ring, ox: real, oy: real, res: real, row: nat)
    requires res > 0.0 && |ring| >= 3
    ensures (forall width: nat :: RowRight(ring, ox, oy, res, width, row)) <==>
      forall k: nat :: 2 * k + 1 < |SortedCrossings(ring, ScanY(oy, res, row))| ==> PairEnd(ring, ScanY(oy, res, row), k, ox, res) >= -1
  {
    hide RingSets, OnRingInColumn, SortedCrossings, PairEnd;
    var y := ScanY(oy, res, row);
    if k: nat :| 2 * k + 1 < |SortedCrossings(ring, y)| && PairEnd(ring, y, k, ox, res) < -1 {
      var width := LeftPairWraps(ring, ox, oy, res, row, k);
    } else {
      forall width: nat, c: nat | c < width
        ensures RingSets(ring, ox, oy, res, width, row, c) <==> exists x :: OnRingInColumn(ring, x, y, ox, res, c)
      {
        FilledIffOnRing(ring, ox, oy, res, width, row, c);
      }
    }
  }

  /** A square of copper left of the raster. */
  function LeftSquare(): (ring: Ring) {
    [(-5.0, -1.0), (-3.0, -1.0), (-3.0, 1.0), (-5.0, 1.0)]
  }

  lemma NextCrossing(ring: Ring, y: real, n: nat)
    requires n < |ring|
    ensures var p, q := ring[n], Next(ring, n);
      Crossings(ring, y, n + 1) == Crossings(ring, y, n) + if Crosses(p.1, q.1, y) then [CrossX(p, q, y)] else []
  {
  }

  lemma NoEdges(ring: Ring, y: real)
    ensures Crossings(ring, y, 0) == []
  {
  }

  /** Which edges of the square cross the row through its middle, and where. */
  lemma LeftEdge(n: nat)
    requires n < 4
    ensures |LeftSquare()| == 4
    ensures var p, q := LeftSquare()[n], Next(LeftSquare(), n);
      && (Crosses(p.1, q.1, 0.0) <==> n == 1 || n == 3)
      && (n == 1 ==> CrossX(p, q, 0.0) == -3.0) && (n == 3 ==> CrossX(p, q, 0.0) == -5.0)
  {
  }

  lemma LeftStep(n: nat)
    requires n < 4
    ensures |LeftSquare()| == 4
    ensures Crossings(LeftSquare(), 0.0, n + 1) ==
      Crossings(LeftSquare(), 0.0, n) + if n == 1 then [-3.0] else if n == 3 then [-5.0] else []
  {
    hide Crossings, LeftSquare, Next, CrossX, Crosses;
    LeftEdge(n);
    NextCrossing(LeftSquare(), 0.0, n);
  }

  lemma LeftCrossings()
    ensures SortedCrossings(LeftSquare(), 0.0) == [-5.0, -3.0]
  {
    hide SortedCrossings, Crossings, LeftSquare;
    LeftStep(0);
    LeftStep(1);
    LeftStep(2);
    LeftStep(3);
    NoEdges(LeftSquare(), 0.0);
    assert Crossings(LeftSquare(), 0.0, 4) == [-3.0, -5.0];
    TwoSorted(SortedCrossings(LeftSquare(), 0.0), -3.0, -5.0);
  }

  lemma TwoSorted(xs: seq<real>, a: real, b: real)
    requires b < a && |xs| == 2 && xs[0] <= xs[1] && multiset(xs) == multiset([a, b])
    ensures xs == [b, a]
  {
    assert xs[0] in multiset(xs) && xs[1] in multiset(xs);
    assert [a, b][0] == a && [a, b][1] == b;
    assert a in multiset([a, b]) && b in multiset([a, b]);
    assert a in xs && b in xs;
  }

  /** In a raster of ten columns the square sets cell 7 of the row through its middle, although none of
      it is in that column. */
  lemma LeftSquareWraps()
    ensures RingSets(LeftSquare(), 0.0, 0.0, 1.0, 10, 0, 7)
    ensures !exists x :: OnRingInColumn(LeftSquare(), x, ScanY(0.0, 1.0, 0), 0.0, 1.0, 7)
  {
    LeftCrossings();
    assert ScanY(0.0, 1.0, 0) == 0.0;
    assert Column(-5.0, 0.0, 1.0) == -5 && Column(-3.0, 0.0, 1.0) == -3;
    hide SortedCrossings;
    assert PairSets([-5.0, -3.0], 2, 0, 0.0, 1.0, 10, 7);
    forall x ensures !OnRingInColumn(LeftSquare(), x, 0.0, 0.0, 1.0, 7) {
      if OnRingInColumn(LeftSquare(), x, 0.0, 0.0, 1.0, 7) {
        LastColumn(LeftSquare(), x, 0.0, 0.0, 1.0, 7);
      }
    }
  }

  /** Copper is added up ring by ring: a cell is set exactly when some ring of three points or more
      reaches its column on the scanline, by the even-odd rule within that ring. */
  lemma FilledIffOnSomeRing(rings: seq<Ring>, ox: real, oy: real, res: real, width: nat, row: nat, c: nat)
    requires res > 0.0 && c < width
    requires forall k :: 0 <= k < |rings| && |rings[k]| >= 3 ==> RowFits(rings[k], ScanY(oy, res, row), ox, res, width)
    ensures SomeRingSets(rings, ox, oy, res, width, row, c) <==>
      exists k, x :: 0 <= k < |rings| && |rings[k]| >= 3 && OnRingInColumn(rings[k], x, ScanY(oy, res, row), ox, res, c)
  {
    hide RingSets, OnRingInColumn, RowFits;
    forall k | 0 <= k < |rings|
      ensures RingSets(rings[k], ox, oy, res, width, row, c) <==>
        |rings[k]| >= 3 && exists x :: OnRingInColumn(rings[k], x, ScanY(oy, res, row), ox, res, c)
    {
      if |rings[k]| >= 3 {
        FilledIffOnRing(rings[k], ox, oy, res, width, row, c);
      } else {
        ShortRing(rings[k], ox, oy, res, width, row, c);
      }
    }
  }

  /** The rings may come in any order, and any number of times. */
  lemma RingOrderIsIrrelevant(rings: seq<Ring>, other: seq<Ring>, ox: real, oy: real, res: real, width: nat, row: nat, c: nat)
    requires res > 0.0 && forall ring :: ring in rings <==> ring in other
    ensures SomeRingSets(rings, ox, oy, res, width, row, c) <==> SomeRingSets(other, ox, oy, res, width, row, c)
  {
    hide RingSets;
    if i :| 0 <= i < |rings| && RingSets(rings[i], ox, oy, res, width, row, c) {
      assert rings[i] in other;
    }
    if i :| 0 <= i < |other| && RingSets(other[i], ox, oy, res, width, row, c) {
      assert other[i] in rings;
    }
  }
}
