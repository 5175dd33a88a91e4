/** The grid-indexed copper graph of one net (worker/emi_worker/topology.py). */
module Graphs {
  import opened Geometry
  import opened Dijkstra
  import Sorting

  datatype Node = Node(at: Point, layer: string)

  type Key = (int, int, string)

  type Cells = map<Key, seq<nat>>

  function Bucket(cells: Cells, key: Key): (b: seq<nat>) {
    if key in cells then cells[key] else []
  }

  function KeyOf(p: Node, tol: real): (k: Key)
    requires tol > 0.0
  {
    (CellAt(p.at, tol).0, CellAt(p.at, tol).1, p.layer)
  }

  /** Each bucket lists exactly the nodes of its cell and layer. */
  ghost predicate Indexed(cells: Cells, points: seq<Node>, tol: real)
    requires tol > 0.0
  {
    && (forall key, i: nat {:trigger i in Bucket(cells, key)} :: i in Bucket(cells, key) ==> i < |points| && KeyOf(points[i], tol) == key)
    && (forall i: nat :: i < |points| ==> i in Bucket(cells, KeyOf(points[i], tol)))
  }

  /** Two nodes of one layer are never within the tolerance of each other. */
  ghost predicate Apart(points: seq<Node>, dist: Metric, tol: real) {
    forall i, j :: 0 <= i < j < |points| && points[i].layer == points[j].layer ==> dist(points[i].at, points[j].at) > tol
  }

  // ---------- edges ----------

  /** What an edge between two nodes weighs: their distance on one layer, nothing across layers. */
  ghost function LengthBetween(points: seq<Node>, dist: Metric, a: nat, b: nat): (w: real)
    requires a < |points| && b < |points|
  {
    if points[a].layer == points[b].layer then dist(points[a].at, points[b].at) else 0.0
  }

  ghost predicate EdgeFits(points: seq<Node>, dist: Metric, a: nat, e: Edge) {
    && a < |points| && e.to < |points| && a != e.to
    && e.weight == LengthBetween(points, dist, a, e.to)
    && (e.via ==> points[a].layer != points[e.to].layer)
    && (!e.via && points[a].layer == points[e.to].layer ==> e.layer == points[a].layer)
  }

  ghost predicate EdgesFit(g: Edges, points: seq<Node>, dist: Metric) {
    forall a: nat, e :: e in Out(g, a) ==> EdgeFits(points, dist, a, e)
  }

  function Back(a: nat, e: Edge): (f: Edge) {
    Edge(a, e.weight, e.layer, e.via)
  }

  ghost predicate TwoWay(g: Edges) {
    forall a: nat, e :: e in Out(g, a) ==> Back(a, e) in Out(g, e.to)
  }

  // ---------- points on a segment ----------

  /** The node projects into the segment and is within the tolerance of it. */
  ghost predicate OnSegment(p: Point, p0: Point, p1: Point, length: real, dist: Metric, tol: real)
    requires length > 0.0
  {
    var u := Along(p, p0, p1, length);
    0.0 <= u <= 1.0 && dist(p, Lerp(p0, p1, u)) <= tol
  }

  /** The walk along the segment looks into the node's cell. */
  ghost predicate Sampled(p: Point, p0: Point, p1: Point, length: real, tol: real)
    requires length > 0.0 && tol > 0.0
  {
    exists k: nat :: k <= Steps(length, tol) && SampledAt(p, p0, p1, length, tol, k)
  }

  ghost predicate SampledAt(p: Point, p0: Point, p1: Point, length: real, tol: real, k: nat)
    requires length > 0.0 && tol > 0.0
  {
    Neighbours(CellAt(Lerp(p0, p1, SampleAt(k, length, tol)), tol), CellAt(p, tol))
  }

  // ---------- looking up a node ----------

  ghost predicate Near(points: seq<Node>, dist: Metric, tol: real, p: Point, layer: string, i: nat) {
    i < |points| && points[i].layer == layer && dist(points[i].at, p) <= tol
  }

  function KeyAt(c: Cell, layer: string, dx: int, dy: int): (k: Key) {
    (c.0 + dx, c.1 + dy, layer)
  }

  ghost predicate InNine(cells: Cells, c: Cell, layer: string, i: nat) {
    exists dx, dy :: -1 <= dx <= 1 && -1 <= dy <= 1 && i in Bucket(cells, KeyAt(c, layer, dx, dy))
  }

  /** The nine cells around a point are all that can hold a node within the tolerance. */
  lemma NineCellsSuffice(cells: Cells, points: seq<Node>, dist: Metric, tol: real, p: Point, layer: string, i: nat)
    requires tol > 0.0 && IsEuclid(dist) && Indexed(cells, points, tol)
    requires Near(points, dist, tol, p, layer, i)
    ensures InNine(cells, CellAt(p, tol), layer, i)
  {
    hide IsEuclid, CellAt, Sq;
    var q := points[i].at;
    WithinIffSq(dist, q, p, tol);
    SqSymmetric(q, p);
    CloseCells(p, q, tol);
    var c, d := CellAt(p, tol), CellAt(q, tol);
    var dx, dy := d.0 - c.0, d.1 - c.1;
    assert KeyOf(points[i], tol) == KeyAt(c, layer, dx, dy);
    assert i in Bucket(cells, KeyOf(points[i], tol));
    hide Bucket, KeyOf, Indexed;
    assert i in Bucket(cells, KeyAt(CellAt(p, tol), layer, dx, dy));
  }

  /** The first node of a bucket within the tolerance, or -1. */
  function LookIn(bucket: seq<nat>, points: seq<Node>, dist: Metric, tol: real, p: Point): (i: int)
    ensures i >= 0 ==> i in bucket && i < |points| && dist(points[i].at, p) <= tol
    ensures i < 0 ==> forall j :: j in bucket && j < |points| ==> dist(points[j].at, p) > tol
  {
    if bucket == [] then -1
    else if bucket[0] < |points| && dist(points[bucket[0]].at, p) <= tol then bucket[0]
    else
      assert forall j :: j in bucket ==> j == bucket[0] || j in bucket[1..];
      LookIn(bucket[1..], points, dist, tol, p)
  }

  /** The node the nine cells give, from column dx and row dy on, or -1. */
  function LookFrom(cells: Cells, points: seq<Node>, dist: Metric, tol: real, p: Point, layer: string, c: Cell, dx: int, dy: int): (i: int)
    decreases 2 - dx, 2 - dy
  {
    if dx > 1 then -1
    else if dy > 1 then LookFrom(cells, points, dist, tol, p, layer, c, dx + 1, -1)
    else
      var i := LookIn(Bucket(cells, KeyAt(c, layer, dx, dy)), points, dist, tol, p);
      if i >= 0 then i else LookFrom(cells, points, dist, tol, p, layer, c, dx, dy + 1)
  }

  function Look(cells: Cells, points: seq<Node>, dist: Metric, tol: real, p: Point, layer: string): (i: int)
    requires tol > 0.0
  {
    LookFrom(cells, points, dist, tol, p, layer, CellAt(p, tol), -1, -1)
  }

  lemma NearInBucket(cells: Cells, points: seq<Node>, dist: Metric, tol: real, p: Point, key: Key, i: nat)
    requires tol > 0.0 && Indexed(cells, points, tol) && i in Bucket(cells, key) && i < |points|
    requires dist(points[i].at, p) <= tol
    ensures Near(points, dist, tol, p, key.2, i)
  {
  }

  lemma {:induction false} LookFromIsNear(cells: Cells, points: seq<Node>, dist: Metric, tol: real, p: Point, layer: string,
                                          c: Cell, dx: int, dy: int)
    requires tol > 0.0 && Indexed(cells, points, tol)
    ensures var i := LookFrom(cells, points, dist, tol, p, layer, c, dx, dy); i >= 0 ==> Near(points, dist, tol, p, layer, i)
    decreases 2 - dx, 2 - dy
  {
    hide Indexed, Near;
    if dx <= 1 {
      if dy > 1 {
        LookFromIsNear(cells, points, dist, tol, p, layer, c, dx + 1, -1);
      } else {
        var key := KeyAt(c, layer, dx, dy);
        var i := LookIn(Bucket(cells, key), points, dist, tol, p);
        if i >= 0 {
          NearInBucket(cells, points, dist, tol, p, key, i);
        } else {
          LookFromIsNear(cells, points, dist, tol, p, layer, c, dx, dy + 1);
        }
      }
    }
  }

  lemma {:induction false} LookFinds(cells: Cells, points: seq<Node>, dist: Metric, tol: real, p: Point, layer: string,
                                     c: Cell, dx: int, dy: int, ex: int, ey: int, i: nat)
    requires -1 <= dx <= ex <= 1 && -1 <= ey <= 1 && -1 <= dy <= 2 && (dx == ex ==> dy <= ey)
    requires i in Bucket(cells, KeyAt(c, layer, ex, ey)) && Near(points, dist, tol, p, layer, i)
    ensures LookFrom(cells, points, dist, tol, p, layer, c, dx, dy) >= 0
    decreases 2 - dx, 2 - dy
  {
    if dy > 1 {
      LookFinds(cells, points, dist, tol, p, layer, c, dx + 1, -1, ex, ey, i);
    } else if LookIn(Bucket(cells, KeyAt(c, layer, dx, dy)), points, dist, tol, p) < 0 && !(dx == ex && dy == ey) {
      LookFinds(cells, points, dist, tol, p, layer, c, dx, dy + 1, ex, ey, i);
    }
  }

  /** The grid agrees with a scan of every node: looking a place up finds some node of the layer
      within the tolerance exactly when there is one. */
  lemma LookIsScan(cells: Cells, points: seq<Node>, dist: Metric, tol: real, p: Point, layer: string)
    requires tol > 0.0 && IsEuclid(dist) && Indexed(cells, points, tol)
    ensures var i := Look(cells, points, dist, tol, p, layer);
      if i >= 0 then Near(points, dist, tol, p, layer, i) else forall j: nat :: !Near(points, dist, tol, p, layer, j)
  {
    hide IsEuclid, CellAt, Near, Indexed, LookFrom, Bucket;
    var c := CellAt(p, tol);
    LookFromIsNear(cells, points, dist, tol, p, layer, c, -1, -1);
    if j: nat :| Near(points, dist, tol, p, layer, j) {
      NineCellsSuffice(cells, points, dist, tol, p, layer, j);
      var dx, dy :| -1 <= dx <= 1 && -1 <= dy <= 1 && j in Bucket(cells, KeyAt(c, layer, dx, dy));
      LookFinds(cells, points, dist, tol, p, layer, c, -1, -1, dx, dy, j);
    }
  }

  /** Three buckets of one column, top to bottom. */
  method ScanNearColumn(cells: Cells, points: seq<Node>, dist: Metric, tol: real, p: Point, layer: string, c: Cell, dx: int)
    returns (found: bool, i: nat)
    requires tol > 0.0 && Indexed(cells, points, tol) && -1 <= dx <= 1
    ensures found ==> i == LookFrom(cells, points, dist, tol, p, layer, c, dx, -1)
    ensures !found ==> LookFrom(cells, points, dist, tol, p, layer, c, dx, -1) == LookFrom(cells, points, dist, tol, p, layer, c, dx + 1, -1)
  {
    hide Indexed, KeyAt;
    var dy := -1;
    while dy <= 1
      invariant -1 <= dy <= 2
      invariant LookFrom(cells, points, dist, tol, p, layer, c, dx, -1) == LookFrom(cells, points, dist, tol, p, layer, c, dx, dy)
    {
      var key := KeyAt(c, layer, dx, dy);
      BucketInRange(cells, points, tol, key);
      found, i := ScanBucket(Bucket(cells, key), points, dist, tol, p);
      if found {
        return;
      }
      dy := dy + 1;
    }
    return false, 0;
  }

  method FindNear(cells: Cells, points: seq<Node>, dist: Metric, tol: real, p: Point, layer: string) returns (found: bool, i: nat)
    requires tol > 0.0 && Indexed(cells, points, tol)
    ensures found <==> Look(cells, points, dist, tol, p, layer) >= 0
    ensures found ==> i == Look(cells, points, dist, tol, p, layer)
  {
    hide CellAt, Indexed;
    var c := CellAt(p, tol);
    var dx := -1;
    while dx <= 1
      invariant -1 <= dx <= 2
      invariant Look(cells, points, dist, tol, p, layer) == LookFrom(cells, points, dist, tol, p, layer, c, dx, -1)
    {
      found, i := ScanNearColumn(cells, points, dist, tol, p, layer, c, dx);
      if found {
        return;
      }
      dx := dx + 1;
    }
    return false, 0;
  }

  method ScanBucket(bucket: seq<nat>, points: seq<Node>, dist: Metric, tol: real, p: Point) returns (found: bool, i: nat)
    requires forall j :: 0 <= j < |bucket| ==> bucket[j] < |points|
    ensures found <==> LookIn(bucket, points, dist, tol, p) >= 0
    ensures found ==> i == LookIn(bucket, points, dist, tol, p)
  {
    var k := 0;
    while k < |bucket|
      invariant 0 <= k <= |bucket|
      invariant LookIn(bucket, points, dist, tol, p) == LookIn(bucket[k..], points, dist, tol, p)
    {
      if dist(points[bucket[k]].at, p) <= tol {
        return true, bucket[k];
      }
      assert bucket[k..][1..] == bucket[k + 1..];
      k := k + 1;
    }
    return false, 0;
  }

  lemma KeyLayer(p: Node, tol: real)
    requires tol > 0.0
    ensures KeyOf(p, tol).2 == p.layer
  {
  }

  lemma BucketInRange(cells: Cells, points: seq<Node>, tol: real, key: Key)
    requires tol > 0.0 && Indexed(cells, points, tol)
    ensures forall j: nat :: j < |Bucket(cells, key)| ==>
      Bucket(cells, key)[j] < |points| && points[Bucket(cells, key)[j]].layer == key.2
  {
    hide KeyOf;
    var bucket := Bucket(cells, key);
    forall j: nat | j < |bucket|
      ensures bucket[j] < |points| && points[bucket[j]].layer == key.2
    {
      var i := bucket[j];
      assert i in Bucket(cells, key);
      assert i < |points| && KeyOf(points[i], tol) == key;
      KeyLayer(points[i], tol);
    }
  }

  // ---------- the graph grows ----------

  function AddTo(cells: Cells, key: Key, i: nat): (r: Cells) {
    cells[key := Bucket(cells, key) + [i]]
  }

  lemma AddIndexed(cells: Cells, points: seq<Node>, tol: real, p: Node)
    requires tol > 0.0 && Indexed(cells, points, tol)
    ensures Indexed(AddTo(cells, KeyOf(p, tol), |points|), points + [p], tol)
  {
    hide KeyOf;
    var key := KeyOf(p, tol);
    var cells', points' := AddTo(cells, key, |points|), points + [p];
    assert Bucket(cells', key) == Bucket(cells, key) + [|points|];
    assert forall k :: k != key ==> Bucket(cells', k) == Bucket(cells, k);
    forall i: nat | i < |points'| ensures i in Bucket(cells', KeyOf(points'[i], tol)) {
      if i < |points| {
        assert i in Bucket(cells, KeyOf(points[i], tol));
      }
    }
  }

  /** Each bucket lists its nodes in the order they were added in. */
  ghost predicate InTurn(cells: Cells) {
    forall key {:trigger Bucket(cells, key)} :: Rising(Bucket(cells, key))
  }

  ghost predicate Rising(b: seq<nat>) {
    forall i, j :: 0 <= i < j < |b| ==> b[i] < b[j]
  }

  lemma AddInTurn(cells: Cells, points: seq<Node>, tol: real, p: Node)
    requires tol > 0.0 && Indexed(cells, points, tol) && InTurn(cells)
    ensures InTurn(AddTo(cells, KeyOf(p, tol), |points|))
  {
    hide KeyOf;
    var key := KeyOf(p, tol);
    var cells' := AddTo(cells, key, |points|);
    forall k ensures Rising(Bucket(cells', k)) {
      if k == key {
        var b := Bucket(cells, k);
        assert forall i :: 0 <= i < |b| ==> b[i] in b;
        assert Rising(b);
      } else {
        assert Bucket(cells', k) == Bucket(cells, k);
      }
    }
  }

  /** Any nodes can be indexed. */
  lemma {:induction false} CellsFor(points: seq<Node>, tol: real) returns (cells: Cells)
    requires tol > 0.0
    ensures Indexed(cells, points, tol) && InTurn(cells)
  {
    if points == [] {
      cells := map[];
    } else {
      var front, last := points[..|points| - 1], points[|points| - 1];
      var early := CellsFor(front, tol);
      AddIndexed(early, front, tol, last);
      AddInTurn(early, front, tol, last);
      assert points == front + [last];
      cells := AddTo(early, KeyOf(last, tol), |front|);
    }
  }

  lemma AddApart(points: seq<Node>, dist: Metric, tol: real, p: Node)
    requires Apart(points, dist, tol) && forall i: nat :: !Near(points, dist, tol, p.at, p.layer, i)
    ensures Apart(points + [p], dist, tol)
  {
    var points' := points + [p];
    forall i, j | 0 <= i < j < |points'| && points'[i].layer == points'[j].layer
      ensures dist(points'[i].at, points'[j].at) > tol
    {
      if j == |points| {
        assert !Near(points, dist, tol, p.at, p.layer, i);
      }
    }
  }

  lemma AddEdgesFit(g: Edges, points: seq<Node>, dist: Metric, points': seq<Node>)
    requires EdgesFit(g, points, dist) && points <= points'
    ensures EdgesFit(g, points', dist)
  {
  }

  function AddEdge(g: Edges, a: nat, e: Edge): (r: Edges) {
    g[a := Out(g, a) + [e]]
  }

  lemma AddEdgeOut(g: Edges, a: nat, e: Edge)
    ensures forall b: nat :: Out(AddEdge(g, a, e), b) == if b == a then Out(g, a) + [e] else Out(g, b)
  {
  }

  function Joined(g: Edges, a: nat, e: Edge): (r: Edges) {
    AddEdge(AddEdge(g, a, e), e.to, Back(a, e))
  }

  lemma JoinKeeps(g: Edges, points: seq<Node>, dist: Metric, a: nat, e: Edge)
    requires EdgesFit(g, points, dist) && TwoWay(g)
    requires EdgeFits(points, dist, a, e) && EdgeFits(points, dist, e.to, Back(a, e))
    ensures EdgesFit(Joined(g, a, e), points, dist) && TwoWay(Joined(g, a, e))
    ensures e in Out(Joined(g, a, e), a)
    ensures forall b: nat, f :: f in Out(g, b) ==> f in Out(Joined(g, a, e), b)
  {
    hide EdgeFits;
    var h := AddEdge(g, a, e);
    AddEdgeOut(g, a, e);
    AddEdgeOut(h, e.to, Back(a, e));
    var r := Joined(g, a, e);
    forall b: nat, f
      ensures f in Out(r, b) <==> f in Out(g, b) || (b == a && f == e) || (b == e.to && f == Back(a, e))
    {
    }
    assert Back(e.to, Back(a, e)) == e;
  }

  lemma BackFits(points: seq<Node>, dist: Metric, a: nat, e: Edge)
    requires IsEuclid(dist) && EdgeFits(points, dist, a, e)
    ensures EdgeFits(points, dist, e.to, Back(a, e))
  {
    DistSymmetric(dist, points[a].at, points[e.to].at);
  }

  // ---------- points_on ----------

  /** The segment being searched and the layer it lies on. */
  datatype Segment = Segment(p0: Point, p1: Point, length: real, layer: string)

  ghost predicate Eligible(points: seq<Node>, dist: Metric, tol: real, s: Segment, i: nat)
    requires s.length > 0.0
  {
    i < |points| && points[i].layer == s.layer && OnSegment(points[i].at, s.p0, s.p1, s.length, dist, tol)
  }

  type Hit = (real, nat)

  ghost predicate IsHit(points: seq<Node>, dist: Metric, tol: real, s: Segment, h: Hit)
    requires s.length > 0.0
  {
    Eligible(points, dist, tol, s, h.1) && h.0 == Along(points[h.1].at, s.p0, s.p1, s.length)
  }

  /** Every hit is an eligible node with its place along the segment, and each node is hit once. */
  ghost predicate HitsOk(points: seq<Node>, dist: Metric, tol: real, s: Segment, found: seq<Hit>, seen: set<nat>)
    requires s.length > 0.0
  {
    && (forall j :: 0 <= j < |found| ==> found[j].1 in seen && IsHit(points, dist, tol, s, found[j]))
    && (forall i :: i in seen ==> exists j :: 0 <= j < |found| && found[j].1 == i)
    && (forall j, k :: 0 <= j < k < |found| ==> found[j].1 != found[k].1)
  }

  lemma OneMoreHit(points: seq<Node>, dist: Metric, tol: real, s: Segment, found: seq<Hit>, seen: set<nat>, i: nat)
    requires s.length > 0.0 && HitsOk(points, dist, tol, s, found, seen)
    requires i !in seen && Eligible(points, dist, tol, s, i)
    ensures HitsOk(points, dist, tol, s, found + [(Along(points[i].at, s.p0, s.p1, s.length), i)], seen + {i})
  {
    hide Along, OnSegment;
    var found' := found + [(Along(points[i].at, s.p0, s.p1, s.length), i)];
    forall k | k in seen + {i} ensures exists j :: 0 <= j < |found'| && found'[j].1 == k {
      if k in seen {
        var j :| 0 <= j < |found| && found[j].1 == k;
        assert found'[j].1 == k;
      } else {
        assert found'[|found|].1 == k;
      }
    }
  }

  /** One bucket along the segment: its eligible nodes are all seen afterwards. */
  method ScanForHits(bucket: seq<nat>, points: seq<Node>, dist: Metric, tol: real, s: Segment, found0: seq<Hit>, seen0: set<nat>)
    returns (found: seq<Hit>, seen: set<nat>)
    requires s.length > 0.0 && HitsOk(points, dist, tol, s, found0, seen0)
    requires forall j :: 0 <= j < |bucket| ==> bucket[j] < |points| && points[bucket[j]].layer == s.layer
    ensures HitsOk(points, dist, tol, s, found, seen) && seen0 <= seen
    ensures forall j :: 0 <= j < |bucket| && Eligible(points, dist, tol, s, bucket[j]) ==> bucket[j] in seen
    ensures forall i :: i in seen ==> i in seen0 || i in bucket
  {
    hide HitsOk;
    found, seen := found0, seen0;
    var k := 0;
    while k < |bucket|
      invariant 0 <= k <= |bucket|
      invariant HitsOk(points, dist, tol, s, found, seen) && seen0 <= seen
      invariant forall j :: 0 <= j < k && Eligible(points, dist, tol, s, bucket[j]) ==> bucket[j] in seen
      invariant forall i :: i in seen ==> i in seen0 || i in bucket
    {
      var i := bucket[k];
      if i !in seen {
        var u := Along(points[i].at, s.p0, s.p1, s.length);
        if 0.0 <= u <= 1.0 && dist(points[i].at, Lerp(s.p0, s.p1, u)) <= tol {
          OneMoreHit(points, dist, tol, s, found, seen, i);
          found, seen := found + [(u, i)], seen + {i};
        }
      }
      k := k + 1;
    }
  }

  /** Seen so far are exactly the eligible nodes near the first n samples. */
  ghost predicate SeenAll(points: seq<Node>, dist: Metric, tol: real, s: Segment, seen: set<nat>, n: nat)
    requires s.length > 0.0 && tol > 0.0
  {
    && (forall i :: i in seen ==> i < |points| && exists k: nat :: k < n && SampledAt(points[i].at, s.p0, s.p1, s.length, tol, k))
    && (forall i: nat, k: nat :: k < n && Eligible(points, dist, tol, s, i) && SampledAt(points[i].at, s.p0, s.p1, s.length, tol, k) ==> i in seen)
  }

  /** Every column of buckets from the left neighbour up to, not including, c.0 + dx is seen. */
  ghost predicate ColumnsSeen(cells: Cells, points: seq<Node>, dist: Metric, tol: real, s: Segment, c: Cell, dx: int, seen: set<nat>)
    requires s.length > 0.0
  {
    forall ex, ey :: -1 <= ex < dx && -1 <= ey <= 1 ==> BucketSeen(cells, points, dist, tol, s, KeyAt(c, s.layer, ex, ey), seen)
  }

  ghost predicate OnlyNine(cells: Cells, c: Cell, layer: string, seen0: set<nat>, seen: set<nat>) {
    forall i :: i in seen ==> i in seen0 || InNine(cells, c, layer, i)
  }

  /** The three buckets of one column beside the sample. */
  method ScanColumn(cells: Cells, points: seq<Node>, dist: Metric, tol: real, s: Segment, c: Cell, dx: int,
                    found0: seq<Hit>, seen0: set<nat>, ghost first: set<nat>)
    returns (found: seq<Hit>, seen: set<nat>)
    requires tol > 0.0 && Indexed(cells, points, tol) && s.length > 0.0 && -1 <= dx <= 1
    requires HitsOk(points, dist, tol, s, found0, seen0)
    requires ColumnsSeen(cells, points, dist, tol, s, c, dx, seen0) && OnlyNine(cells, c, s.layer, first, seen0)
    ensures HitsOk(points, dist, tol, s, found, seen) && seen0 <= seen
    ensures ColumnsSeen(cells, points, dist, tol, s, c, dx + 1, seen) && OnlyNine(cells, c, s.layer, first, seen)
  {
    hide HitsOk, Eligible;
    found, seen := found0, seen0;
    var dy := -1;
    while dy <= 1
      invariant -1 <= dy <= 2 && seen0 <= seen
      invariant HitsOk(points, dist, tol, s, found, seen)
      invariant forall ey :: -1 <= ey < dy ==> BucketSeen(cells, points, dist, tol, s, KeyAt(c, s.layer, dx, ey), seen)
      invariant OnlyNine(cells, c, s.layer, first, seen)
    {
      var key := KeyAt(c, s.layer, dx, dy);
      BucketInRange(cells, points, tol, key);
      ghost var was := seen;
      found, seen := ScanForHits(Bucket(cells, key), points, dist, tol, s, found, seen);
      hide Bucket, Indexed;
      assert BucketSeen(cells, points, dist, tol, s, key, seen);
      forall i | i in seen && i !in first ensures InNine(cells, c, s.layer, i) {
        if i !in was {
          assert i in Bucket(cells, KeyAt(c, s.layer, dx, dy));
        }
      }
      dy := dy + 1;
    }
    ColumnsGrow(cells, points, dist, tol, s, c, dx, seen0, seen);
  }

  lemma ColumnsGrow(cells: Cells, points: seq<Node>, dist: Metric, tol: real, s: Segment, c: Cell, dx: int, seen0: set<nat>, seen: set<nat>)
    requires s.length > 0.0 && ColumnsSeen(cells, points, dist, tol, s, c, dx, seen0) && seen0 <= seen
    requires forall ey :: -1 <= ey < 2 ==> BucketSeen(cells, points, dist, tol, s, KeyAt(c, s.layer, dx, ey), seen)
    ensures ColumnsSeen(cells, points, dist, tol, s, c, dx + 1, seen)
  {
  }

  /** The nine buckets around the k-th sample. */
  method ScanAround(cells: Cells, points: seq<Node>, dist: Metric, tol: real, s: Segment, k: nat, found0: seq<Hit>, seen0: set<nat>)
    returns (found: seq<Hit>, seen: set<nat>)
    requires tol > 0.0 && Indexed(cells, points, tol) && s.length > 0.0
    requires HitsOk(points, dist, tol, s, found0, seen0) && SeenAll(points, dist, tol, s, seen0, k)
    ensures HitsOk(points, dist, tol, s, found, seen) && SeenAll(points, dist, tol, s, seen, k + 1)
  {
    hide CellAt, HitsOk, Eligible, SeenAll, Lerp, SampleAt, BucketSeen, Indexed;
    found, seen := found0, seen0;
    var c := CellAt(Lerp(s.p0, s.p1, SampleAt(k, s.length, tol)), tol);
    var dx := -1;
    while dx <= 1
      invariant -1 <= dx <= 2 && seen0 <= seen
      invariant HitsOk(points, dist, tol, s, found, seen)
      invariant ColumnsSeen(cells, points, dist, tol, s, c, dx, seen) && OnlyNine(cells, c, s.layer, seen0, seen)
    {
      found, seen := ScanColumn(cells, points, dist, tol, s, c, dx, found, seen, seen0);
      dx := dx + 1;
    }
    SampleSeen(cells, points, dist, tol, s, k, seen0, seen);
  }

  ghost predicate BucketSeen(cells: Cells, points: seq<Node>, dist: Metric, tol: real, s: Segment, key: Key, seen: set<nat>)
    requires s.length > 0.0
  {
    forall i :: i in Bucket(cells, key) && Eligible(points, dist, tol, s, i) ==> i in seen
  }

  /** The nine buckets hold exactly the layer's nodes in neighbouring cells. */
  lemma InNineIsSampled(cells: Cells, points: seq<Node>, tol: real, s: Segment, k: nat, i: nat)
    requires tol > 0.0 && Indexed(cells, points, tol) && s.length > 0.0
    requires i < |points| && points[i].layer == s.layer
    ensures InNine(cells, CellAt(Lerp(s.p0, s.p1, SampleAt(k, s.length, tol)), tol), s.layer, i)
       <==> SampledAt(points[i].at, s.p0, s.p1, s.length, tol, k)
  {
    hide CellAt, Lerp, SampleAt;
    var c := CellAt(Lerp(s.p0, s.p1, SampleAt(k, s.length, tol)), tol);
    var d := CellAt(points[i].at, tol);
    if SampledAt(points[i].at, s.p0, s.p1, s.length, tol, k) {
      var dx, dy := d.0 - c.0, d.1 - c.1;
      assert i in Bucket(cells, KeyOf(points[i], tol));
      assert KeyOf(points[i], tol) == KeyAt(c, s.layer, dx, dy);
    }
  }

  lemma InNineInRange(cells: Cells, points: seq<Node>, tol: real, c: Cell, layer: string, i: nat)
    requires tol > 0.0 && Indexed(cells, points, tol) && InNine(cells, c, layer, i)
    ensures i < |points| && points[i].layer == layer
  {
  }

  lemma SampleSeen(cells: Cells, points: seq<Node>, dist: Metric, tol: real, s: Segment, k: nat, seen0: set<nat>, seen: set<nat>)
    requires tol > 0.0 && Indexed(cells, points, tol) && s.length > 0.0
    requires SeenAll(points, dist, tol, s, seen0, k) && seen0 <= seen
    requires var c := CellAt(Lerp(s.p0, s.p1, SampleAt(k, s.length, tol)), tol);
      ColumnsSeen(cells, points, dist, tol, s, c, 2, seen) && OnlyNine(cells, c, s.layer, seen0, seen)
    ensures SeenAll(points, dist, tol, s, seen, k + 1)
  {
    hide CellAt, Lerp, SampleAt, SampledAt, OnSegment;
    var c := CellAt(Lerp(s.p0, s.p1, SampleAt(k, s.length, tol)), tol);
    forall i | i in seen
      ensures i < |points| && exists j: nat :: j < k + 1 && SampledAt(points[i].at, s.p0, s.p1, s.length, tol, j)
    {
      if i !in seen0 {
        InNineInRange(cells, points, tol, c, s.layer, i);
        InNineIsSampled(cells, points, tol, s, k, i);
      }
    }
    forall i: nat, j: nat | j < k + 1 && Eligible(points, dist, tol, s, i) && SampledAt(points[i].at, s.p0, s.p1, s.length, tol, j)
      ensures i in seen
    {
      if j == k {
        InNineIsSampled(cells, points, tol, s, k, i);
        var dx, dy :| -1 <= dx <= 1 && -1 <= dy <= 1 && i in Bucket(cells, KeyAt(c, s.layer, dx, dy));
        assert BucketSeen(cells, points, dist, tol, s, KeyAt(c, s.layer, dx, dy), seen);
      }
    }
  }

  function HitLeq(): (leq: (Hit, Hit) -> bool)
    ensures Sorting.TotalOrder(leq)
    ensures forall a: Hit, b: Hit :: leq(a, b) <==> a.0 < b.0 || (a.0 == b.0 && a.1 <= b.1)
  {
    (a: Hit, b: Hit) => a.0 < b.0 || (a.0 == b.0 && a.1 <= b.1)
  }

  ghost predicate Precedes(points: seq<Node>, s: Segment, i: nat, j: nat)
    requires s.length > 0.0
  {
    i < |points| && j < |points| &&
    var u, v := Along(points[i].at, s.p0, s.p1, s.length), Along(points[j].at, s.p0, s.p1, s.length);
    u < v || (u == v && i < j)
  }

  /** Strictly ascending by place along the segment, then by index. */
  ghost predicate InOrder(points: seq<Node>, s: Segment, nodes: seq<nat>)
    requires s.length > 0.0
  {
    forall j, k :: 0 <= j < k < |nodes| ==> Precedes(points, s, nodes[j], nodes[k])
  }

  function Nodes(hits: seq<Hit>): (nodes: seq<nat>)
    ensures |nodes| == |hits| && forall j :: 0 <= j < |hits| ==> nodes[j] == hits[j].1
  {
    seq(|hits|, j requires 0 <= j < |hits| => hits[j].1)
  }

  lemma SameNodes(found: seq<Hit>, hits: seq<Hit>)
    requires forall h :: h in hits <==> h in found
    ensures forall i: nat :: i in Nodes(hits) <==> exists j :: 0 <= j < |found| && found[j].1 == i
  {
    var nodes := Nodes(hits);
    forall i: nat
      ensures i in nodes <==> exists j :: 0 <= j < |found| && found[j].1 == i
    {
      if i in nodes {
        var k :| 0 <= k < |nodes| && nodes[k] == i;
        assert hits[k] in hits;
        var j :| 0 <= j < |found| && found[j] == hits[k];
      }
      if j :| 0 <= j < |found| && found[j].1 == i {
        assert found[j] in found;
        var k :| 0 <= k < |hits| && hits[k] == found[j];
        assert nodes[k] == i;
      }
    }
  }

  lemma SortedInOrder(points: seq<Node>, s: Segment, hits: seq<Hit>)
    requires s.length > 0.0 && Sorting.SortedBy(hits, HitLeq()) && Sorting.NoDup(hits)
    requires forall h :: h in hits ==> h.1 < |points| && h.0 == Along(points[h.1].at, s.p0, s.p1, s.length)
    ensures forall i :: i in Nodes(hits) ==> i < |points|
    ensures InOrder(points, s, Nodes(hits))
  {
  }

  /** Sorting the hits gives each seen node once, in order along the segment. */
  lemma SortedHits(points: seq<Node>, dist: Metric, tol: real, s: Segment, found: seq<Hit>, seen: set<nat>, hits: seq<Hit>)
    requires s.length > 0.0 && HitsOk(points, dist, tol, s, found, seen)
    requires Sorting.SortedBy(hits, HitLeq()) && multiset(hits) == multiset(found)
    ensures forall i: nat :: i in Nodes(hits) <==> i in seen
    ensures forall i :: i in Nodes(hits) ==> i < |points|
    ensures InOrder(points, s, Nodes(hits))
  {
    Sorting.NoDupPermuted(found, hits);
    Sorting.SameMembers(found, hits);
    SameNodes(found, hits);
    hide Along, OnSegment, InOrder;
    forall h | h in hits ensures h.1 < |points| && h.0 == Along(points[h.1].at, s.p0, s.p1, s.length) {
      var j :| 0 <= j < |found| && found[j] == h;
    }
    SortedInOrder(points, s, hits);
  }

  /** points_on. */
  method PointsOn(cells: Cells, points: seq<Node>, dist: Metric, tol: real, p0: Point, p1: Point, layer: string) returns (nodes: seq<nat>)
    requires tol > 0.0 && IsEuclid(dist) && Indexed(cells, points, tol)
    ensures dist(p0, p1) <= 0.0 ==> nodes == []
    ensures dist(p0, p1) > 0.0 ==> var s := Segment(p0, p1, dist(p0, p1), layer);
      && (forall i: nat :: i in nodes <==> Eligible(points, dist, tol, s, i) && Sampled(points[i].at, p0, p1, s.length, tol))
      && (forall i :: i in nodes ==> i < |points|) && InOrder(points, s, nodes)
  {
    var length := dist(p0, p1);
    if length <= 0.0 {
      return [];
    }
    hide IsEuclid, Steps, InOrder, SampledAt, OnSegment;
    var s := Segment(p0, p1, length, layer);
    var found: seq<Hit>, seen: set<nat> := [], {};
    var steps := Steps(length, tol);
    var k := 0;
    while k < steps + 1
      invariant 0 <= k <= steps + 1
      invariant HitsOk(points, dist, tol, s, found, seen) && SeenAll(points, dist, tol, s, seen, k)
    {
      found, seen := ScanAround(cells, points, dist, tol, s, k, found, seen);
      k := k + 1;
    }
    var hits := Sorting.Sort(found, HitLeq());
    SortedHits(points, dist, tol, s, found, seen, hits);
    nodes := Nodes(hits);
    AllSampled(points, dist, tol, s, found, seen, steps);
  }

  lemma AllSampled(points: seq<Node>, dist: Metric, tol: real, s: Segment, found: seq<Hit>, seen: set<nat>, steps: nat)
    requires s.length > 0.0 && tol > 0.0 && steps == Steps(s.length, tol)
    requires HitsOk(points, dist, tol, s, found, seen) && SeenAll(points, dist, tol, s, seen, steps + 1)
    ensures forall i: nat :: i in seen <==> Eligible(points, dist, tol, s, i) && Sampled(points[i].at, s.p0, s.p1, s.length, tol)
  {
  }

  /** The graph as a whole. */
  ghost predicate GraphOk(cells: Cells, points: seq<Node>, g: Edges, dist: Metric, tol: real): (ok: bool)
    ensures ok ==> tol > 0.0
  {
    && tol > 0.0 && IsEuclid(dist)
    && Indexed(cells, points, tol) && InTurn(cells) && Apart(points, dist, tol)
    && EdgesFit(g, points, dist) && TwoWay(g)
  }

  /** Looking up the place of a node that is already there can only find that node. */
  lemma OwnPlace(points: seq<Node>, dist: Metric, tol: real, k: nat, i: nat)
    requires IsEuclid(dist) && Apart(points, dist, tol) && k < |points|
    requires Near(points, dist, tol, points[k].at, points[k].layer, i)
    ensures i == k
  {
    DistSymmetric(dist, points[i].at, points[k].at);
  }

  // ---------- placing a node ----------

  /** The node a place is given: the one found, or a new one at the end. */
  function Place(cells: Cells, points: seq<Node>, dist: Metric, tol: real, p: Point, layer: string): (i: nat)
    requires tol > 0.0
  {
    var i := Look(cells, points, dist, tol, p, layer);
    if i >= 0 then i else |points|
  }

  function PlacedPoints(cells: Cells, points: seq<Node>, dist: Metric, tol: real, p: Point, layer: string): (r: seq<Node>)
    requires tol > 0.0
  {
    if Look(cells, points, dist, tol, p, layer) >= 0 then points else points + [Node(p, layer)]
  }

  function PlacedCells(cells: Cells, points: seq<Node>, dist: Metric, tol: real, p: Point, layer: string): (r: Cells)
    requires tol > 0.0
  {
    if Look(cells, points, dist, tol, p, layer) >= 0 then cells
    else AddTo(cells, KeyOf(Node(p, layer), tol), |points|)
  }

  /** One place comes before another: its cell is further left, or further up in the same column. */
  ghost predicate CellBefore(c: Cell, d: Cell) {
    c.0 < d.0 || (c.0 == d.0 && c.1 < d.1)
  }

  lemma FirstInBucket(bucket: seq<nat>, points: seq<Node>, dist: Metric, tol: real, p: Point, j: nat)
    requires Rising(bucket) && j in bucket && j < |points| && dist(points[j].at, p) <= tol
    ensures 0 <= LookIn(bucket, points, dist, tol, p) <= j
  {
    if bucket[0] != j && !(bucket[0] < |points| && dist(points[bucket[0]].at, p) <= tol) {
      FirstInBucket(bucket[1..], points, dist, tol, p, j);
    }
  }

  lemma {:induction false} LookFromFirst(cells: Cells, points: seq<Node>, dist: Metric, tol: real, p: Point, layer: string,
                                         c: Cell, dx: int, dy: int, ex: int, ey: int, j: nat) returns (fx: int, fy: int)
    requires InTurn(cells) && -1 <= dx <= ex <= 1 && -1 <= ey <= 1 && -1 <= dy <= 2 && (dx == ex ==> dy <= ey)
    requires j in Bucket(cells, KeyAt(c, layer, ex, ey)) && j < |points| && dist(points[j].at, p) <= tol
    ensures var i := LookFrom(cells, points, dist, tol, p, layer, c, dx, dy);
      i >= 0 && i in Bucket(cells, KeyAt(c, layer, fx, fy)) && (CellBefore((fx, fy), (ex, ey)) || (fx == ex && fy == ey && i <= j))
    decreases 2 - dx, 2 - dy
  {
    hide KeyAt, Bucket;
    if dy > 1 {
      fx, fy := LookFromFirst(cells, points, dist, tol, p, layer, c, dx + 1, -1, ex, ey, j);
    } else {
      var key := KeyAt(c, layer, dx, dy);
      assert Rising(Bucket(cells, key));
      fx, fy := dx, dy;
      if dx == ex && dy == ey {
        FirstInBucket(Bucket(cells, key), points, dist, tol, p, j);
      } else if LookIn(Bucket(cells, key), points, dist, tol, p) < 0 {
        fx, fy := LookFromFirst(cells, points, dist, tol, p, layer, c, dx, dy + 1, ex, ey, j);
      }
    }
  }

  lemma CellOfKey(cells: Cells, points: seq<Node>, tol: real, c: Cell, layer: string, dx: int, dy: int, i: nat)
    requires tol > 0.0 && Indexed(cells, points, tol) && i in Bucket(cells, KeyAt(c, layer, dx, dy))
    ensures i < |points| && CellAt(points[i].at, tol) == (c.0 + dx, c.1 + dy)
  {
    hide CellAt;
    assert KeyOf(points[i], tol) == KeyAt(c, layer, dx, dy);
  }

  /** Of several nodes within the tolerance the one found is that of the first cell, column by column;
      in one cell, the one placed first. */
  lemma LooksInTurn(cells: Cells, points: seq<Node>, g: Edges, dist: Metric, tol: real, p: Point, layer: string, j: nat)
    requires GraphOk(cells, points, g, dist, tol) && Near(points, dist, tol, p, layer, j)
    ensures var i := Look(cells, points, dist, tol, p, layer);
      0 <= i < |points| && var (c, d) := (CellAt(points[i].at, tol), CellAt(points[j].at, tol)); CellBefore(c, d) || (c == d && i <= j)
  {
    hide IsEuclid, CellAt, Indexed, Bucket, KeyAt, InTurn, LookFrom, Apart, EdgesFit, TwoWay;
    NineCellsSuffice(cells, points, dist, tol, p, layer, j);
    var c := CellAt(p, tol);
    var ex, ey :| -1 <= ex <= 1 && -1 <= ey <= 1 && j in Bucket(cells, KeyAt(c, layer, ex, ey));
    var fx, fy := LookFromFirst(cells, points, dist, tol, p, layer, c, -1, -1, ex, ey, j);
    CellOfKey(cells, points, tol, c, layer, ex, ey, j);
    CellOfKey(cells, points, tol, c, layer, fx, fy, Look(cells, points, dist, tol, p, layer));
  }

  /** A node is reused exactly when one on the layer lies within the tolerance. */
  lemma PlaceReuses(cells: Cells, points: seq<Node>, g: Edges, dist: Metric, tol: real, p: Point, layer: string)
    requires GraphOk(cells, points, g, dist, tol)
    ensures var points' := PlacedPoints(cells, points, dist, tol, p, layer);
      && points <= points' && Near(points', dist, tol, p, layer, Place(cells, points, dist, tol, p, layer))
      && (points' == points <==> exists j: nat :: Near(points, dist, tol, p, layer, j))
  {
    LookIsScan(cells, points, dist, tol, p, layer);
    DistSelf(dist, p);
  }

  lemma PlaceKeepsGraph(cells: Cells, points: seq<Node>, g: Edges, dist: Metric, tol: real, p: Point, layer: string)
    requires GraphOk(cells, points, g, dist, tol)
    ensures GraphOk(PlacedCells(cells, points, dist, tol, p, layer), PlacedPoints(cells, points, dist, tol, p, layer), g, dist, tol)
  {
    LookIsScan(cells, points, dist, tol, p, layer);
    if Look(cells, points, dist, tol, p, layer) < 0 {
      AddIndexed(cells, points, tol, Node(p, layer));
      AddInTurn(cells, points, tol, Node(p, layer));
      AddApart(points, dist, tol, Node(p, layer));
      AddEdgesFit(g, points, dist, points + [Node(p, layer)]);
    }
  }

  /** Placing again gives the same node and adds none. */
  lemma PlaceAgain(cells: Cells, points: seq<Node>, g: Edges, dist: Metric, tol: real, p: Point, layer: string)
    requires GraphOk(cells, points, g, dist, tol)
    ensures Look(PlacedCells(cells, points, dist, tol, p, layer), PlacedPoints(cells, points, dist, tol, p, layer), dist, tol, p, layer)
         == Place(cells, points, dist, tol, p, layer)
  {
    hide InTurn;
    LookIsScan(cells, points, dist, tol, p, layer);
    PlaceKeepsGraph(cells, points, g, dist, tol, p, layer);
    if Look(cells, points, dist, tol, p, layer) < 0 {
      var cells' := PlacedCells(cells, points, dist, tol, p, layer);
      var points' := PlacedPoints(cells, points, dist, tol, p, layer);
      PlaceReuses(cells, points, g, dist, tol, p, layer);
      LookIsScan(cells', points', dist, tol, p, layer);
      hide IsEuclid, Look, Indexed, InTurn, Apart, EdgesFit, TwoWay;
      forall j: nat | j < |points| ensures !Near(points', dist, tol, p, layer, j) {
        assert !Near(points, dist, tol, p, layer, j);
      }
    }
  }

  /** Looking up the place of a node that is already there finds that node. */
  lemma PlaceOfNode(cells: Cells, points: seq<Node>, g: Edges, dist: Metric, tol: real, k: nat)
    requires GraphOk(cells, points, g, dist, tol) && k < |points|
    ensures Place(cells, points, dist, tol, points[k].at, points[k].layer) == k
  {
    LookIsScan(cells, points, dist, tol, points[k].at, points[k].layer);
    DistSelf(dist, points[k].at);
    assert Near(points, dist, tol, points[k].at, points[k].layer, k);
    OwnPlace(points, dist, tol, k, Place(cells, points, dist, tol, points[k].at, points[k].layer));
  }

  // ---------- copper and the nodes it joins ----------

  /** A piece of copper that joins nodes: a track segment, a via through its layers, or a pour of
      one layer around a pad. */
  datatype Copper =
    | Line(p0: Point, p1: Point, layer: string)
    | Barrel(at: Point, layers: seq<string>)
    | Pour(at: Point, layer: string, centre: Point)

  function PourLayer(layer: string): (l: string) {
    "zone:" + layer
  }

  lemma NearStays(points: seq<Node>, points': seq<Node>, dist: Metric, tol: real, p: Point, layer: string, i: nat)
    requires points <= points' && Near(points, dist, tol, p, layer, i)
    ensures Near(points', dist, tol, p, layer, i)
  {
  }

  ghost predicate Occupied(points: seq<Node>, dist: Metric, tol: real, spot: Node) {
    exists i :: Near(points, dist, tol, spot.at, spot.layer, i)
  }

  /** The node lies on the segment, and the sampling sees it. */
  ghost predicate OnChain(points: seq<Node>, dist: Metric, tol: real, p0: Point, p1: Point, layer: string, i: nat)
    requires tol > 0.0 && dist(p0, p1) > 0.0
  {
    var s := Segment(p0, p1, dist(p0, p1), layer);
    Eligible(points, dist, tol, s, i) && Sampled(points[i].at, p0, p1, s.length, tol)
  }

  /** In order along the segment, exactly those of the first m nodes on it that are not its ends. */
  ghost predicate InnerOnSegment(points: seq<Node>, dist: Metric, tol: real, c: Copper, m: nat, a: nat, b: nat, inner: seq<nat>)
    requires tol > 0.0 && c.Line? && dist(c.p0, c.p1) > 0.0
  {
    && InOrder(points, Segment(c.p0, c.p1, dist(c.p0, c.p1), c.layer), inner)
    && forall i: nat :: i in inner <==> i < m && OnChain(points, dist, tol, c.p0, c.p1, c.layer, i) && i != a && i != b
  }

  ghost predicate Inner(points: seq<Node>, dist: Metric, tol: real, c: Copper, m: nat, chain: seq<nat>)
    requires tol > 0.0 && c.Line? && |chain| >= 2
  {
    var inner := chain[1..|chain| - 1];
    if dist(c.p0, c.p1) > 0.0 then InnerOnSegment(points, dist, tol, c, m, chain[0], chain[|chain| - 1], inner) else inner == []
  }

  ghost predicate InRange(points: seq<Node>, chain: seq<nat>) {
    forall k :: 0 <= k < |chain| ==> chain[k] < |points|
  }

  /** The nodes the piece joins, in a row. For a segment: one at each end, and between them, in order
      along it, the first m nodes that lie on it. For a via: one on each of its layers. For a pour:
      the pad's and the pour's. */
  ghost predicate ChainFits(points: seq<Node>, dist: Metric, tol: real, c: Copper, m: nat, chain: seq<nat>): (ok: bool)
    requires tol > 0.0
    ensures ok ==> Threaded(points, c, chain)
  {
    && InRange(points, chain)
    && match c
       case Line(p0, p1, layer) =>
         && |chain| >= 2
         && Near(points, dist, tol, p0, layer, chain[0]) && Near(points, dist, tol, p1, layer, chain[|chain| - 1])
         && Inner(points, dist, tol, c, m, chain)
       case Barrel(at, layers) =>
         && |chain| == |layers|
         && (forall k :: 0 <= k < |chain| ==> Near(points, dist, tol, at, layers[k], chain[k]))
         && (forall k :: 0 < k < |chain| && layers[k - 1] == layers[k] ==> chain[k - 1] == chain[k])
       case Pour(at, layer, centre) =>
         && |chain| == 2
         && Near(points, dist, tol, at, layer, chain[0]) && Near(points, dist, tol, centre, PourLayer(layer), chain[1])
  }

  ghost predicate Threaded(points: seq<Node>, c: Copper, chain: seq<nat>) {
    InRange(points, chain) && (c.Barrel? ==> |c.layers| == |chain|)
  }

  /** The edge to the k-th node of the chain from the one before it. */
  ghost function Link(points: seq<Node>, dist: Metric, c: Copper, chain: seq<nat>, k: nat): (e: Edge)
    requires Threaded(points, c, chain) && 0 < k < |chain|
    ensures e.to == chain[k]
  {
    match c
    case Line(_, _, layer) => Edge(chain[k], dist(points[chain[k - 1]].at, points[chain[k]].at), layer, false)
    case Barrel(_, layers) => Edge(chain[k], 0.0, layers[k - 1], true)
    case Pour(_, layer, _) => Edge(chain[k], 0.0, layer, false)
  }

  /** The edges after the first k nodes of the chain are each joined to the next, both ways; a node
      that repeats is not joined to itself. */
  ghost function ChainJoined(g: Edges, points: seq<Node>, dist: Metric, c: Copper, chain: seq<nat>, k: nat): (h: Edges)
    requires Threaded(points, c, chain) && k <= |chain|
  {
    if k <= 1 then g
    else
      var h := ChainJoined(g, points, dist, c, chain, k - 1);
      if chain[k - 2] == chain[k - 1] then h else Joined(h, chain[k - 2], Link(points, dist, c, chain, k - 1))
  }

  /** The edge out of a is one between the k-th node of the chain and the one before it. */
  ghost predicate LinkAt(points: seq<Node>, dist: Metric, c: Copper, chain: seq<nat>, k: nat, a: nat, e: Edge)
    requires Threaded(points, c, chain)
  {
    && 0 < k < |chain| && chain[k - 1] != chain[k]
    && var f := Link(points, dist, c, chain, k);
       (a == chain[k - 1] && e == f) || (a == chain[k] && e == Back(chain[k - 1], f))
  }

  lemma JoinOnly(g: Edges, a: nat, e: Edge, b: nat, f: Edge)
    ensures f in Out(Joined(g, a, e), b) <==> f in Out(g, b) || (b == a && f == e) || (b == e.to && f == Back(a, e))
  {
  }

  lemma LastAdds(g: Edges, points: seq<Node>, dist: Metric, c: Copper, chain: seq<nat>, n: nat, a: nat, e: Edge)
    requires Threaded(points, c, chain) && 1 < n <= |chain|
    ensures e in Out(ChainJoined(g, points, dist, c, chain, n), a)
       <==> e in Out(ChainJoined(g, points, dist, c, chain, n - 1), a) || LinkAt(points, dist, c, chain, n - 1, a, e)
  {
    hide Joined, Out;
    if chain[n - 2] != chain[n - 1] {
      JoinOnly(ChainJoined(g, points, dist, c, chain, n - 1), chain[n - 2], Link(points, dist, c, chain, n - 1), a, e);
    }
  }

  /** Joining a chain adds exactly the edges between its neighbours. */
  lemma {:induction false} ChainAdds(g: Edges, points: seq<Node>, dist: Metric, c: Copper, chain: seq<nat>, n: nat, a: nat, e: Edge)
    requires Threaded(points, c, chain) && n <= |chain|
    ensures e in Out(ChainJoined(g, points, dist, c, chain, n), a)
       <==> e in Out(g, a) || exists k :: 0 < k < n && LinkAt(points, dist, c, chain, k, a, e)
  {
    if n > 1 {
      hide LinkAt, ChainJoined, Out;
      LastAdds(g, points, dist, c, chain, n, a, e);
      ChainAdds(g, points, dist, c, chain, n - 1, a, e);
    }
  }

  // ---------- copper while the graph grows ----------

  lemma {:induction false} ChainJoinedStays(g: Edges, points: seq<Node>, points': seq<Node>, dist: Metric, c: Copper, chain: seq<nat>, k: nat)
    requires Threaded(points, c, chain) && k <= |chain| && points <= points'
    ensures Threaded(points', c, chain)
    ensures ChainJoined(g, points, dist, c, chain, k) == ChainJoined(g, points', dist, c, chain, k)
  {
    if k > 1 {
      ChainJoinedStays(g, points, points', dist, c, chain, k - 1);
      hide Joined;
    }
  }

  lemma OnChainStays(points: seq<Node>, points': seq<Node>, dist: Metric, tol: real, p0: Point, p1: Point, layer: string, i: nat)
    requires tol > 0.0 && dist(p0, p1) > 0.0 && points <= points' && i < |points|
    ensures OnChain(points, dist, tol, p0, p1, layer, i) <==> OnChain(points', dist, tol, p0, p1, layer, i)
  {
    hide OnSegment, Sampled;
  }

  lemma InOrderStays(points: seq<Node>, points': seq<Node>, s: Segment, nodes: seq<nat>)
    requires s.length > 0.0 && points <= points' && InOrder(points, s, nodes)
    ensures InOrder(points', s, nodes)
  {
    hide Along;
    forall j, k | 0 <= j < k < |nodes| ensures Precedes(points', s, nodes[j], nodes[k]) {
      assert Precedes(points, s, nodes[j], nodes[k]);
    }
  }

  lemma InnerStays(points: seq<Node>, points': seq<Node>, dist: Metric, tol: real, c: Copper, m: nat, chain: seq<nat>)
    requires tol > 0.0 && c.Line? && |chain| >= 2 && Inner(points, dist, tol, c, m, chain)
    requires points <= points' && m <= |points|
    ensures Inner(points', dist, tol, c, m, chain)
  {
    hide OnChain, InOrder;
    if dist(c.p0, c.p1) > 0.0 {
      var inner, a, b := chain[1..|chain| - 1], chain[0], chain[|chain| - 1];
      InOrderStays(points, points', Segment(c.p0, c.p1, dist(c.p0, c.p1), c.layer), inner);
      forall i: nat
        ensures i in inner <==> i < m && OnChain(points', dist, tol, c.p0, c.p1, c.layer, i) && i != a && i != b
      {
        if i < m {
          OnChainStays(points, points', dist, tol, c.p0, c.p1, c.layer, i);
        }
      }
    }
  }

  lemma ChainFitsStays(points: seq<Node>, points': seq<Node>, dist: Metric, tol: real, c: Copper, m: nat, chain: seq<nat>)
    requires tol > 0.0 && ChainFits(points, dist, tol, c, m, chain) && points <= points' && m <= |points|
    ensures ChainFits(points', dist, tol, c, m, chain)
  {
    if c.Line? {
      InnerStays(points, points', dist, tol, c, m, chain);
    }
    hide Inner;
  }

  /** The nodes found on the segment other than its ends. */
  function Interior(nodes: seq<nat>, a: nat, b: nat): (r: seq<nat>)
    ensures forall i: nat :: i in r <==> i in nodes && i != a && i != b
  {
    if nodes == [] then []
    else if nodes[0] == a || nodes[0] == b then Interior(nodes[1..], a, b)
    else [nodes[0]] + Interior(nodes[1..], a, b)
  }

  lemma {:induction false} InteriorInOrder(points: seq<Node>, s: Segment, nodes: seq<nat>, a: nat, b: nat)
    requires s.length > 0.0 && InOrder(points, s, nodes)
    ensures InOrder(points, s, Interior(nodes, a, b))
  {
    hide Precedes;
    if nodes != [] {
      InteriorInOrder(points, s, nodes[1..], a, b);
      var rest := Interior(nodes[1..], a, b);
      forall k | 0 <= k < |rest| ensures Precedes(points, s, nodes[0], rest[k]) {
        assert rest[k] in rest;
        var j :| 0 <= j < |nodes[1..]| && nodes[1..][j] == rest[k];
        assert nodes[j + 1] == rest[k];
      }
    }
  }

  lemma FirstIsLeast(points: seq<Node>, s: Segment, xs: seq<nat>, i: nat)
    requires s.length > 0.0 && InOrder(points, s, xs) && i in xs
    ensures i == xs[0] || (Precedes(points, s, xs[0], i) && !Precedes(points, s, i, xs[0]))
  {
    hide Along;
    var k :| 0 <= k < |xs| && xs[k] == i;
    assert k > 0 ==> Precedes(points, s, xs[0], xs[k]);
  }

  lemma OnceOnly(points: seq<Node>, s: Segment, xs: seq<nat>)
    requires s.length > 0.0 && InOrder(points, s, xs) && xs != []
    ensures forall i: nat :: i in xs[1..] <==> i in xs && i != xs[0]
  {
    hide Along;
    forall k | 0 < k < |xs| ensures xs[k] != xs[0] {
      assert Precedes(points, s, xs[0], xs[k]);
    }
    assert xs == [xs[0]] + xs[1..];
  }

  lemma {:induction false} SameInOrder(points: seq<Node>, s: Segment, xs: seq<nat>, ys: seq<nat>)
    requires s.length > 0.0 && InOrder(points, s, xs) && InOrder(points, s, ys)
    requires forall i: nat :: i in xs <==> i in ys
    ensures xs == ys
  {
    hide Precedes;
    assert (xs == [] || xs[0] in xs) && (ys == [] || ys[0] in ys);
    if xs != [] && ys != [] {
      FirstIsLeast(points, s, xs, ys[0]);
      FirstIsLeast(points, s, ys, xs[0]);
      OnceOnly(points, s, xs);
      OnceOnly(points, s, ys);
      SameInOrder(points, s, xs[1..], ys[1..]);
    }
  }

  /** A segment's chain is determined by the nodes at its ends. */
  lemma ChainIsUnique(points: seq<Node>, dist: Metric, tol: real, c: Copper, m: nat, chain: seq<nat>, other: seq<nat>)
    requires tol > 0.0 && c.Line? && ChainFits(points, dist, tol, c, m, chain) && ChainFits(points, dist, tol, c, m, other)
    requires chain[0] == other[0] && chain[|chain| - 1] == other[|other| - 1]
    ensures chain == other
  {
    var xs, ys := chain[1..|chain| - 1], other[1..|other| - 1];
    hide OnChain, InOrder;
    if dist(c.p0, c.p1) > 0.0 {
      SameInOrder(points, Segment(c.p0, c.p1, dist(c.p0, c.p1), c.layer), xs, ys);
    }
    assert chain == [chain[0]] + xs + [chain[|chain| - 1]];
    assert other == [other[0]] + ys + [other[|other| - 1]];
  }

  /** Every edge a piece adds fits the nodes. */
  lemma LinkFits(points: seq<Node>, dist: Metric, tol: real, c: Copper, m: nat, chain: seq<nat>, k: nat)
    requires tol > 0.0 && ChainFits(points, dist, tol, c, m, chain) && 0 < k < |chain| && chain[k - 1] != chain[k]
    ensures EdgeFits(points, dist, chain[k - 1], Link(points, dist, c, chain, k))
  {
    if c.Line? {
      OnLayer(points, dist, tol, c, m, chain, k - 1);
      OnLayer(points, dist, tol, c, m, chain, k);
    }
    hide Inner;
  }

  lemma OnLayer(points: seq<Node>, dist: Metric, tol: real, c: Copper, m: nat, chain: seq<nat>, k: nat)
    requires tol > 0.0 && c.Line? && ChainFits(points, dist, tol, c, m, chain) && k < |chain|
    ensures points[chain[k]].layer == c.layer
  {
    if 0 < k < |chain| - 1 {
      var inner := chain[1..|chain| - 1];
      assert chain[k] == inner[k - 1];
      assert chain[k] in inner;
    }
  }

  class Graph {
    const tol: real
    const dist: Metric
    var points: seq<Node>
    var cells: Cells
    var edges: Edges

    ghost predicate Valid()
      reads this
    {
      GraphOk(cells, points, edges, dist, tol)
    }

    constructor (tol: real, dist: Metric)
      requires tol > 0.0 && IsEuclid(dist)
      ensures Valid() && points == [] && edges == map[] && this.tol == tol && this.dist == dist
    {
      this.tol, this.dist := tol, dist;
      points, cells, edges := [], map[], map[];
    }

    /** node(): the existing node within the tolerance, or a new one. */
    method AddNode(p: Point, layer: string) returns (i: nat)
      requires Valid()
      modifies this`points, this`cells
      ensures Valid() && i == Place(old(cells), old(points), dist, tol, p, layer)
      ensures points == PlacedPoints(old(cells), old(points), dist, tol, p, layer)
      ensures cells == PlacedCells(old(cells), old(points), dist, tol, p, layer)
    {
      hide InTurn, Apart, EdgesFit, TwoWay;
      PlaceKeepsGraph(cells, points, edges, dist, tol, p, layer);
      var found;
      found, i := FindNear(cells, points, dist, tol, p, layer);
      hide GraphOk, Look;
      if !found {
        i := |points|;
        points := points + [Node(p, layer)];
        cells := AddTo(cells, KeyOf(Node(p, layer), tol), i);
      }
    }

    /** connect(): nothing for a node and itself, otherwise an edge each way. */
    method Connect(a: nat, b: nat, weight: real, layer: string, via: bool)
      requires Valid()
      requires a != b ==> EdgeFits(points, dist, a, Edge(b, weight, layer, via))
      modifies this`edges
      ensures Valid()
      ensures edges == if a == b then old(edges) else Joined(old(edges), a, Edge(b, weight, layer, via))
    {
      if a == b {
        return;
      }
      BackFits(points, dist, a, Edge(b, weight, layer, via));
      JoinKeeps(edges, points, dist, a, Edge(b, weight, layer, via));
      hide IsEuclid, Indexed, Apart, EdgesFit, TwoWay, EdgeFits;
      edges := AddEdge(edges, a, Edge(b, weight, layer, via));
      edges := AddEdge(edges, b, Edge(a, weight, layer, via));
    }

    /** The nodes of a segment's two ends. */
    method EndNodes(p0: Point, p1: Point, layer: string) returns (a: nat, b: nat)
      requires Valid()
      modifies this`points, this`cells
      ensures Valid() && old(points) <= points
      ensures Near(points, dist, tol, p0, layer, a) && Near(points, dist, tol, p1, layer, b)
      ensures Occupied(old(points), dist, tol, Node(p0, layer)) && Occupied(old(points), dist, tol, Node(p1, layer)) ==>
        points == old(points)
    {
      hide GraphOk, Near, PlacedPoints, PlacedCells, Place;
      PlaceReuses(cells, points, edges, dist, tol, p0, layer);
      a := AddNode(p0, layer);
      PlaceReuses(cells, points, edges, dist, tol, p1, layer);
      ghost var between := points;
      b := AddNode(p1, layer);
      NearStays(between, points, dist, tol, p0, layer, a);
    }

    /** One track segment, split at every node that lies on it. */
    method LaySegment(p0: Point, p1: Point, layer: string) returns (ghost chain: seq<nat>)
      requires Valid()
      modifies this`points, this`cells, this`edges
      ensures Valid() && old(points) <= points
      ensures Occupied(old(points), dist, tol, Node(p0, layer)) && Occupied(old(points), dist, tol, Node(p1, layer)) ==>
        points == old(points)
      ensures ChainFits(points, dist, tol, Line(p0, p1, layer), |points|, chain)
      ensures edges == ChainJoined(old(edges), points, dist, Line(p0, p1, layer), chain, |chain|)
    {
      hide GraphOk, Near, Inner, Occupied, ChainFits, ChainJoined;
      var a, b := EndNodes(p0, p1, layer);
      var row := SegmentChain(p0, p1, layer, a, b);
      JoinChain(p0, p1, layer, row);
      chain := row;
    }

    /** An edge between each node of a segment and the next. */
    method JoinChain(ghost p0: Point, ghost p1: Point, layer: string, chain: seq<nat>)
      requires Valid() && |chain| >= 2 && ChainFits(points, dist, tol, Line(p0, p1, layer), |points|, chain)
      modifies this`edges
      ensures Valid() && edges == ChainJoined(old(edges), points, dist, Line(p0, p1, layer), chain, |chain|)
    {
      ghost var line := Line(p0, p1, layer);
      hide GraphOk, EdgeFits, ChainFits, Joined;
      var k := 1;
      while k < |chain|
        invariant 1 <= k <= |chain| && Valid()
        invariant edges == ChainJoined(old(edges), points, dist, line, chain, k)
      {
        var u, v := chain[k - 1], chain[k];
        if u != v {
          LinkFits(points, dist, tol, line, |points|, chain, k);
        }
        Connect(u, v, dist(points[u].at, points[v].at), layer, false);
        k := k + 1;
      }
    }

    method SegmentChain(p0: Point, p1: Point, layer: string, a: nat, b: nat) returns (chain: seq<nat>)
      requires Valid()
      requires Near(points, dist, tol, p0, layer, a) && Near(points, dist, tol, p1, layer, b)
      ensures |chain| >= 2 && ChainFits(points, dist, tol, Line(p0, p1, layer), |points|, chain)
    {
      hide IsEuclid, Indexed, Apart, EdgesFit, TwoWay, OnSegment, Sampled, InOrder;
      var nodes := PointsOn(cells, points, dist, tol, p0, p1, layer);
      ghost var inner := Interior(nodes, a, b);
      chain := [a] + Interior(nodes, a, b) + [b];
      assert chain[1..|chain| - 1] == inner;
      forall k | 0 <= k < |chain| ensures chain[k] < |points| {
        if 0 < k < |chain| - 1 {
          assert chain[k] == inner[k - 1];
          assert chain[k] in inner;
        }
      }
      if dist(p0, p1) > 0.0 {
        InteriorInOrder(points, Segment(p0, p1, dist(p0, p1), layer), nodes, a, b);
      }
    }
  }
}
