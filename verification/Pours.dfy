/** Which pads a pour reaches (worker/emi_worker/topology.py): the bounding box tried before the
    even-odd test never rejects a point the test would accept. */
module Pours {
  import opened Geometry
  import Rasterize
  import EvenOdd

  type Ring = Rasterize.Ring

  function Xs(ring: Ring): (xs: seq<real>) {
    seq(|ring|, i requires 0 <= i < |ring| => ring[i].0)
  }

  function Ys(ring: Ring): (ys: seq<real>) {
    seq(|ring|, i requires 0 <= i < |ring| => ring[i].1)
  }

  function Lowest(xs: seq<real>): (m: real)
    requires xs != []
    ensures m in xs && forall x :: x in xs ==> m <= x
  {
    if |xs| == 1 then xs[0]
    else
      var m := Lowest(xs[1..]);
      assert forall x :: x in xs ==> x == xs[0] || x in xs[1..];
      if xs[0] <= m then xs[0] else m
  }

  function Highest(xs: seq<real>): (m: real)
    requires xs != []
    ensures m in xs && forall x :: x in xs ==> x <= m
  {
    if |xs| == 1 then xs[0]
    else
      var m := Highest(xs[1..]);
      assert forall x :: x in xs ==> x == xs[0] || x in xs[1..];
      if xs[0] >= m then xs[0] else m
  }

  /** The ring's bounding box: least and greatest x and y. */
  datatype Box = Box(x0: real, y0: real, x1: real, y1: real)

  function BoxOf(ring: Ring): (b: Box)
    requires ring != []
  {
    Box(Lowest(Xs(ring)), Lowest(Ys(ring)), Highest(Xs(ring)), Highest(Ys(ring)))
  }

  predicate InBox(b: Box, p: Point) {
    b.x0 <= p.0 <= b.x1 && b.y0 <= p.1 <= b.y1
  }

  lemma {:induction false} CrossingsInBox(ring: Ring, y: real, n: nat, x0: real, x1: real)
    requires n <= |ring| && forall i :: 0 <= i < |ring| ==> x0 <= ring[i].0 <= x1
    ensures forall i :: 0 <= i < |Rasterize.Crossings(ring, y, n)| ==> x0 <= Rasterize.Crossings(ring, y, n)[i] <= x1
  {
    if n > 0 {
      CrossingsInBox(ring, y, n - 1, x0, x1);
      var p, q := ring[n - 1], Rasterize.Next(ring, n - 1);
      hide Rasterize.CrossX;
      if Rasterize.Crosses(p.1, q.1, y) {
        Rasterize.CrossWithin(p, q, y, x0, x1);
      }
    }
  }

  lemma {:induction false} NoneRight(xs: seq<real>, x: real)
    ensures (forall i :: 0 <= i < |xs| ==> xs[i] <= x) ==> EvenOdd.CountRight(xs, x) == 0
    ensures (forall i :: 0 <= i < |xs| ==> xs[i] > x) ==> EvenOdd.CountRight(xs, x) == |xs|
  {
    if xs != [] {
      NoneRight(xs[..|xs| - 1], x);
    }
  }

  /** A point the even-odd rule puts inside the ring is inside its bounding box. */
  lemma InsideInBox(ring: Ring, p: Point)
    requires EvenOdd.Inside(p.0, p.1, ring)
    ensures ring != [] && InBox(BoxOf(ring), p)
  {
    var b := BoxOf(ring);
    var xs := Rasterize.Crossings(ring, p.1, |ring|);
    forall i | 0 <= i < |ring| ensures b.x0 <= ring[i].0 <= b.x1 && b.y0 <= ring[i].1 <= b.y1 {
      assert ring[i].0 == Xs(ring)[i] && ring[i].1 == Ys(ring)[i];
      assert Xs(ring)[i] in Xs(ring) && Ys(ring)[i] in Ys(ring);
    }
    EvenOdd.InsideIsOdd(p.0, p.1, ring, |ring|);
    Rasterize.EvenCrossings(ring, p.1);
    hide EvenOdd.CountRight, Rasterize.Crossings;
    NoneRight(xs, p.0);
    CrossingsInBox(ring, p.1, |ring|, b.x0, b.x1);
    CrossedBetween(ring, p.1, |ring|, b);
  }

  lemma {:induction false} CrossedBetween(ring: Ring, y: real, n: nat, b: Box)
    requires n <= |ring| && forall i :: 0 <= i < |ring| ==> b.y0 <= ring[i].1 <= b.y1
    ensures Rasterize.Crossings(ring, y, n) != [] ==> b.y0 <= y <= b.y1
  {
    if n > 0 {
      CrossedBetween(ring, y, n - 1, b);
    }
  }
}
