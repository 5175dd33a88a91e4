/** Attaching the pads of a net to its copper (worker/emi_worker/topology.py). */
module Attach {
  import opened Geometry
  import opened Dijkstra
  import opened Graphs
  import opened Routes
  import Traces
  import Build

  /** What the searches need of a graph. */
  ghost predicate Searchable(g: Edges, n: nat) {
    GoodEdges(g, n) && Traces.Consistent(g) && TwoWay(g)
  }

  lemma EdgeIsGood(g: Edges, points: seq<Node>, dist: Metric, a: nat, e: Edge)
    requires IsEuclid(dist) && EdgesFit(g, points, dist) && e in Out(g, a)
    ensures a < |points| && e.to < |points| && e.weight == LengthBetween(points, dist, a, e.to) >= 0.0
    ensures (e.via ==> e.weight == 0.0) && GoodEdge(e, a, |points|)
  {
  }

  lemma EdgesAreGood(g: Edges, points: seq<Node>, dist: Metric)
    requires IsEuclid(dist) && EdgesFit(g, points, dist)
    ensures GoodEdges(g, |points|)
  {
    hide IsEuclid, EdgesFit, GoodEdge;
    forall a: nat, i: nat | i < |Out(g, a)| ensures GoodEdge(Out(g, a)[i], a, |points|) {
      EdgeIsGood(g, points, dist, a, Out(g, a)[i]);
    }
  }

  lemma EdgesAreConsistent(g: Edges, points: seq<Node>, dist: Metric)
    requires IsEuclid(dist) && EdgesFit(g, points, dist)
    ensures Traces.Consistent(g)
  {
  }

  /** Every graph that can be built is fit to be searched and traced: an edge's length is a
      function of its two nodes. */
  lemma GraphIsSearchable(cells: Cells, points: seq<Node>, g: Edges, dist: Metric, tol: real)
    requires GraphOk(cells, points, g, dist, tol)
    ensures Searchable(g, |points|)
  {
    hide IsEuclid, EdgesFit, TwoWay, Indexed, Apart, GoodEdges, Traces.Consistent;
    EdgesAreGood(g, points, dist);
    EdgesAreConsistent(g, points, dist);
  }

  /** The node is within the tolerance of the pad on one of its layers. */
  ghost predicate Beside(points: seq<Node>, dist: Metric, tol: real, pad: Build.PadPlace, i: nat) {
    exists k :: 0 <= k < |pad.layers| && Near(points, dist, tol, pad.at, pad.layers[k], i)
  }

  /** The nodes of one bucket within the tolerance. */
  method NearIn(bucket: seq<nat>, points: seq<Node>, dist: Metric, tol: real, p: Point, found0: set<nat>)
    returns (found: set<nat>)
    requires forall j :: 0 <= j < |bucket| ==> bucket[j] < |points|
    ensures forall i :: i in found <==> i in found0 || (i in bucket && dist(points[i].at, p) <= tol)
  {
    found := found0;
    var k := 0;
    while k < |bucket|
      invariant 0 <= k <= |bucket|
      invariant forall i :: i in found <==> i in found0 || (i in bucket[..k] && dist(points[i].at, p) <= tol)
    {
      var i := bucket[k];
      assert bucket[..k + 1] == bucket[..k] + [i];
      if dist(points[i].at, p) <= tol {
        found := found + {i};
      }
      k := k + 1;
    }
    assert bucket[..k] == bucket;
  }

  /** Near the place and in one of the columns left of dx, or in column dx above dy. */
  ghost predicate InPart(cells: Cells, c: Cell, layer: string, dx: int, dy: int, i: nat) {
    exists ex, ey :: -1 <= ex <= 1 && -1 <= ey <= 1 && (ex < dx || (ex == dx && ey < dy))
      && i in Bucket(cells, KeyAt(c, layer, ex, ey))
  }

  ghost predicate Swept(cells: Cells, points: seq<Node>, dist: Metric, tol: real, p: Point, layer: string, c: Cell,
                        dx: int, dy: int, found0: set<nat>, found: set<nat>) {
    forall i :: i in found <==> i in found0 || (Near(points, dist, tol, p, layer, i) && InPart(cells, c, layer, dx, dy, i))
  }

  lemma SweepBucket(cells: Cells, points: seq<Node>, dist: Metric, tol: real, p: Point, layer: string, c: Cell,
                    dx: int, dy: int, found0: set<nat>, was: set<nat>, found: set<nat>)
    requires tol > 0.0 && -1 <= dx <= 1 && -1 <= dy <= 1
    requires Swept(cells, points, dist, tol, p, layer, c, dx, dy, found0, was)
    requires var bucket := Bucket(cells, KeyAt(c, layer, dx, dy));
      && (forall j :: 0 <= j < |bucket| ==> bucket[j] < |points| && points[bucket[j]].layer == layer)
      && (forall i :: i in found <==> i in was || (i in bucket && dist(points[i].at, p) <= tol))
    ensures Swept(cells, points, dist, tol, p, layer, c, dx, dy + 1, found0, found)
  {
  }

  lemma NextColumn(cells: Cells, points: seq<Node>, dist: Metric, tol: real, p: Point, layer: string, c: Cell,
                   dx: int, found0: set<nat>, found: set<nat>)
    requires Swept(cells, points, dist, tol, p, layer, c, dx, 2, found0, found)
    ensures Swept(cells, points, dist, tol, p, layer, c, dx + 1, -1, found0, found)
  {
  }

  /** All nine buckets around the pad hold every node within the tolerance. */
  lemma SweptIsNear(cells: Cells, points: seq<Node>, dist: Metric, tol: real, p: Point, layer: string,
                    found0: set<nat>, found: set<nat>)
    requires tol > 0.0 && IsEuclid(dist) && Indexed(cells, points, tol)
    requires Swept(cells, points, dist, tol, p, layer, CellAt(p, tol), 2, -1, found0, found)
    ensures forall i :: i in found <==> i in found0 || Near(points, dist, tol, p, layer, i)
  {
    hide IsEuclid, CellAt, Near, Indexed, Bucket, KeyAt;
    var c := CellAt(p, tol);
    forall i | Near(points, dist, tol, p, layer, i) ensures InPart(cells, c, layer, 2, -1, i) {
      NineCellsSuffice(cells, points, dist, tol, p, layer, i);
    }
  }

  /** Every node of the layer within the tolerance, by the grid. */
  method NearOn(cells: Cells, points: seq<Node>, dist: Metric, tol: real, p: Point, layer: string, found0: set<nat>)
    returns (found: set<nat>)
    requires tol > 0.0 && IsEuclid(dist) && Indexed(cells, points, tol)
    ensures forall i :: i in found <==> i in found0 || Near(points, dist, tol, p, layer, i)
  {
    hide IsEuclid, CellAt, Indexed, Bucket, KeyAt;
    found := found0;
    var c := CellAt(p, tol);
    var dx := -1;
    while dx <= 1
      invariant -1 <= dx <= 2 && Swept(cells, points, dist, tol, p, layer, c, dx, -1, found0, found)
    {
      var dy := -1;
      while dy <= 1
        invariant -1 <= dy <= 2 && Swept(cells, points, dist, tol, p, layer, c, dx, dy, found0, found)
      {
        hide Swept;
        var key := KeyAt(c, layer, dx, dy);
        BucketInRange(cells, points, tol, key);
        KeyAtLayer(c, layer, dx, dy);
        ghost var was := found;
        found := NearIn(Bucket(cells, key), points, dist, tol, p, found);
        SweepBucket(cells, points, dist, tol, p, layer, c, dx, dy, found0, was, found);
        dy := dy + 1;
      }
      NextColumn(cells, points, dist, tol, p, layer, c, dx, found0, found);
      dx := dx + 1;
    }
    SweptIsNear(cells, points, dist, tol, p, layer, found0, found);
  }

  lemma KeyAtLayer(c: Cell, layer: string, dx: int, dy: int)
    ensures KeyAt(c, layer, dx, dy).2 == layer
  {
  }

  // ---------- sorted() of a set ----------

  ghost predicate Ascending(s: seq<nat>) {
    forall i, j :: 0 <= i < j < |s| ==> s[i] < s[j]
  }

  /** The members of s below n, in ascending order. */
  function Listed(s: set<nat>, n: nat): (r: seq<nat>)
    ensures Ascending(r) && forall i :: i in r <==> i in s && i < n
  {
    if n == 0 then []
    else
      var r := Listed(s, n - 1);
      assert forall i :: 0 <= i < |r| ==> r[i] in r;
      if n - 1 in s then r + [n - 1] else r
  }

  /** The nodes a pad attaches to: those beside it that have an edge, in ascending order. */
  ghost function AnchorNodes(points: seq<Node>, g: Edges, dist: Metric, tol: real, pad: Build.PadPlace): (nodes: seq<nat>)
    ensures Ascending(nodes) && forall i: nat :: i in nodes <==> Beside(points, dist, tol, pad, i) && Out(g, i) != []
  {
    Listed(set i: nat | i < |points| && Beside(points, dist, tol, pad, i) && Out(g, i) != [], |points|)
  }

  method AnchorsOf(g: Graph, pad: Build.PadPlace) returns (nodes: seq<nat>)
    requires g.Valid()
    ensures nodes == AnchorNodes(g.points, g.edges, g.dist, g.tol, pad)
  {
    hide IsEuclid, Indexed, Apart, EdgesFit, TwoWay;
    var found: set<nat> := {};
    var k := 0;
    while k < |pad.layers|
      invariant 0 <= k <= |pad.layers|
      invariant forall i :: i in found <==> exists j :: 0 <= j < k && Near(g.points, g.dist, g.tol, pad.at, pad.layers[j], i)
    {
      hide Near;
      found := NearOn(g.cells, g.points, g.dist, g.tol, pad.at, pad.layers[k], found);
      k := k + 1;
    }
    var attached := set i | i in found && Out(g.edges, i) != [];
    assert attached == set i: nat | i < |g.points| && Beside(g.points, g.dist, g.tol, pad, i) && Out(g.edges, i) != [];
    nodes := Listed(attached, |g.points|);
  }

  // ---------- all the pads ----------

  /** The keys of the pads that copper reaches, and of those it does not, in order. */
  ghost function KeysReached(points: seq<Node>, g: Edges, dist: Metric, tol: real, places: seq<Build.PadPlace>, yes: bool): (keys: seq<string>) {
    if places == [] then []
    else
      var n := |places| - 1;
      KeysReached(points, g, dist, tol, places[..n], yes)
        + if (AnchorNodes(points, g, dist, tol, places[n]) != []) == yes then [places[n].key] else []
  }

  /** The anchors of each pad; a later pad of the same key replaces an earlier one's. */
  ghost function AnchorsOfAll(points: seq<Node>, g: Edges, dist: Metric, tol: real, places: seq<Build.PadPlace>): (anchors: AnchorMap) {
    if places == [] then map[]
    else
      var n := |places| - 1;
      var before := AnchorsOfAll(points, g, dist, tol, places[..n]);
      var nodes := AnchorNodes(points, g, dist, tol, places[n]);
      if nodes != [] then before[places[n].key := nodes] else before
  }

  /** Anchored are exactly the reached pads. */
  lemma {:induction false} AnchoredIffReached(points: seq<Node>, g: Edges, dist: Metric, tol: real, places: seq<Build.PadPlace>, key: string)
    ensures key in AnchorsOfAll(points, g, dist, tol, places) <==> key in KeysReached(points, g, dist, tol, places, true)
  {
    if places != [] {
      AnchoredIffReached(points, g, dist, tol, places[..|places| - 1], key);
    }
  }

  /** The k-th pad is the last of its key that copper reaches. */
  ghost predicate LastReached(points: seq<Node>, g: Edges, dist: Metric, tol: real, places: seq<Build.PadPlace>, k: nat) {
    && k < |places| && AnchorNodes(points, g, dist, tol, places[k]) != []
    && forall j :: k < j < |places| && places[j].key == places[k].key ==> AnchorNodes(points, g, dist, tol, places[j]) == []
  }

  /** A key's anchors are those of its last pad that copper reaches. */
  lemma {:induction false} AnchoredByLast(points: seq<Node>, g: Edges, dist: Metric, tol: real, places: seq<Build.PadPlace>, k: nat)
    requires LastReached(points, g, dist, tol, places, k)
    ensures var anchors := AnchorsOfAll(points, g, dist, tol, places);
      places[k].key in anchors && anchors[places[k].key] == AnchorNodes(points, g, dist, tol, places[k])
  {
    hide AnchorNodes;
    var n := |places| - 1;
    if k < n {
      AnchoredByLast(points, g, dist, tol, places[..n], k);
    }
  }

  method AttachAll(g: Graph, places: seq<Build.PadPlace>) returns (pads: seq<string>, unreachable: seq<string>, anchors: AnchorMap)
    requires g.Valid()
    ensures pads == KeysReached(g.points, g.edges, g.dist, g.tol, places, true)
    ensures unreachable == KeysReached(g.points, g.edges, g.dist, g.tol, places, false)
    ensures anchors == AnchorsOfAll(g.points, g.edges, g.dist, g.tol, places)
  {
    hide GraphOk, AnchorNodes;
    pads, unreachable, anchors := [], [], map[];
    var k := 0;
    while k < |places|
      invariant 0 <= k <= |places|
      invariant pads == KeysReached(g.points, g.edges, g.dist, g.tol, places[..k], true)
      invariant unreachable == KeysReached(g.points, g.edges, g.dist, g.tol, places[..k], false)
      invariant anchors == AnchorsOfAll(g.points, g.edges, g.dist, g.tol, places[..k])
    {
      assert places[..k + 1][..k] == places[..k];
      var nodes := AnchorsOf(g, places[k]);
      if nodes != [] {
        anchors := anchors[places[k].key := nodes];
        pads := pads + [places[k].key];
      } else {
        unreachable := unreachable + [places[k].key];
      }
      k := k + 1;
    }
    assert places[..k] == places;
  }
}
