/** Walking the predecessor chain back into a path with per-layer lengths
    (worker/emi_worker/topology.py). */
module Traces {
  import opened Dijkstra

  datatype PathRun = PathRun(layer: string, length: real)

  datatype Path = Path(from: string, to: string, runs: seq<PathRun>, vias: nat) {
    function Length(): (d: real) {
      Total(runs)
    }
  }

  function Total(runs: seq<PathRun>): (d: real) {
    if runs == [] then 0.0 else Total(runs[..|runs| - 1]) + runs[|runs| - 1].length
  }

  /** Parallel edges agree: the length of an edge depends only on the two nodes it joins. A via
      adds no length. */
  ghost predicate Consistent(g: Edges) {
    && (forall a: nat, e, f :: e in Out(g, a) && f in Out(g, a) && e.to == f.to ==> e.weight == f.weight)
    && (forall a: nat, e :: e in Out(g, a) && e.via ==> e.weight == 0.0)
  }

  // ---------- what a path reports about a walk ----------

  function Vias(w: Walk): (k: nat) {
    match w
    case At(_) => 0
    case Then(u, e) => Vias(u) + if e.via then 1 else 0
  }

  function OnLayer(w: Walk, layer: string): (d: real) {
    match w
    case At(_) => 0.0
    case Then(u, e) => OnLayer(u, layer) + if !e.via && e.layer == layer then e.weight else 0.0
  }

  ghost predicate Visits(w: Walk, layer: string) {
    match w
    case At(_) => false
    case Then(u, e) => Visits(u, layer) || (!e.via && e.layer == layer)
  }

  /** Which hop of the walk is its last on the layer. */
  ghost function LastHop(w: Walk, layer: string): (k: nat)
    ensures k <= Hops(w)
  {
    match w
    case At(_) => 0
    case Then(u, e) => if !e.via && e.layer == layer then Hops(w) else LastHop(u, layer)
  }

  /** One run per layer the walk has a non-via hop on, with the length walked on it; the layers as they
      are met from the end back. */
  ghost predicate Reports(p: Path, w: Walk) {
    && p.vias == Vias(w) && p.Length() == Weight(w)
    && (forall i :: 0 <= i < |p.runs| ==> p.runs[i].length == OnLayer(w, p.runs[i].layer) && Visits(w, p.runs[i].layer))
    && (forall i, j :: 0 <= i < j < |p.runs| ==> LastHop(w, p.runs[i].layer) > LastHop(w, p.runs[j].layer))
    && (forall layer :: Visits(w, layer) ==> exists i :: 0 <= i < |p.runs| && p.runs[i].layer == layer)
  }

  // ---------- the walk the code takes ----------

  /** The first edge from p to v, as the inner loop finds it. */
  function FirstEdge(es: seq<Edge>, v: nat): (i: nat)
    ensures i <= |es| && (i < |es| ==> es[i].to == v)
    ensures forall j :: 0 <= j < i ==> es[j].to != v
  {
    if es == [] || es[0].to == v then 0
    else
      var i := FirstEdge(es[1..], v);
      assert forall j :: 1 <= j < i + 1 ==> es[j] == es[1..][j - 1];
      i + 1
  }

  ghost predicate Chained(g: Edges, prev: Prev, rank: Rank) {
    forall v :: v in prev ==>
      && prev[v] in rank && v in rank && rank[prev[v]] < rank[v]
      && FirstEdge(Out(g, prev[v]), v) < |Out(g, prev[v])|
  }

  ghost function BackWalk(g: Edges, prev: Prev, rank: Rank, v: nat): (w: Walk)
    requires Chained(g, prev, rank)
    ensures End(w) == v && Start(w) !in prev
    decreases if v in rank then rank[v] else 0
  {
    if v in prev then
      Then(BackWalk(g, prev, rank, prev[v]), Out(g, prev[v])[FirstEdge(Out(g, prev[v]), v)])
    else At(v)
  }

  lemma TreeIsChained(g: Edges, n: nat, sources: seq<nat>, dist: Dist, prev: Prev, rank: Rank)
    requires Tree(g, n, sources, dist, prev, rank) && rank.Keys == dist.Keys
    ensures Chained(g, prev, rank)
  {
  }

  /** The first matching edge need not be the one relaxed, but has its length. */
  lemma FirstHasLength(g: Edges, a: nat, e: Edge)
    requires Consistent(g) && e in Out(g, a)
    ensures var i := FirstEdge(Out(g, a), e.to);
      i < |Out(g, a)| && Out(g, a)[i] in Out(g, a) && Out(g, a)[i].weight == e.weight
  {
  }

  lemma {:induction false} BackWalkIsWalk(g: Edges, n: nat, sources: seq<nat>, dist: Dist, prev: Prev, rank: Rank, v: nat)
    requires Tree(g, n, sources, dist, prev, rank) && rank.Keys == dist.Keys && v in dist
    requires Consistent(g) && Chained(g, prev, rank)
    ensures var w := BackWalk(g, prev, rank, v);
      IsWalk(g, sources, w) && Weight(w) == dist[v] && Start(w) in sources
    decreases rank[v]
  {
    hide Consistent, Leads;
    if v in prev {
      var e := Predecessor(g, n, sources, dist, prev, rank, v);
      hide Tree;
      FirstHasLength(g, prev[v], e);
      BackWalkIsWalk(g, n, sources, dist, prev, rank, prev[v]);
    }
  }

  // ---------- collecting the path ----------

  function SumOf(order: seq<string>, per: map<string, real>): (d: real)
    requires forall l :: l in order ==> l in per
  {
    if order == [] then 0.0 else SumOf(order[..|order| - 1], per) + per[order[|order| - 1]]
  }

  ghost predicate Distinct(order: seq<string>) {
    forall i, j :: 0 <= i < j < |order| ==> order[i] != order[j]
  }

  lemma {:induction false} SumUnchanged(order: seq<string>, per: map<string, real>, layer: string, d: real)
    requires (forall l :: l in order ==> l in per) && layer !in order
    ensures SumOf(order, per[layer := d]) == SumOf(order, per)
  {
    if order != [] {
      SumUnchanged(order[..|order| - 1], per, layer, d);
    }
  }

  lemma {:induction false} SumAdds(order: seq<string>, per: map<string, real>, layer: string, d: real)
    requires (forall l :: l in order ==> l in per) && layer in order && Distinct(order)
    ensures SumOf(order, per[layer := per[layer] + d]) == SumOf(order, per) + d
  {
    var last := order[|order| - 1];
    var front := order[..|order| - 1];
    if last == layer {
      assert layer !in front;
      SumUnchanged(front, per, layer, per[layer] + d);
    } else {
      assert order == front + [last];
      SumAdds(front, per, layer, d);
    }
  }

  /** What has been counted so far of the walk `all`, with the part u still to come. */
  ghost predicate Collected(order: seq<string>, per: map<string, real>, vias: nat, u: Walk, all: Walk) {
    && Distinct(order) && (forall l :: l in per <==> l in order)
    && vias + Vias(u) == Vias(all)
    && SumOf(order, per) + Weight(u) == Weight(all)
    && (forall l :: (if l in per then per[l] else 0.0) + OnLayer(u, l) == OnLayer(all, l))
    && (forall l :: Visits(all, l) <==> l in per || Visits(u, l))
  }

  /** The layers met so far, walking back, in the order they were met. */
  ghost predicate MetInOrder(order: seq<string>, u: Walk, all: Walk) {
    && (forall i, j :: 0 <= i < j < |order| ==> LastHop(all, order[i]) > LastHop(all, order[j]))
    && (forall i :: 0 <= i < |order| ==> LastHop(all, order[i]) > Hops(u))
    && forall l :: l !in order ==> LastHop(all, l) == LastHop(u, l)
  }

  lemma MetVia(order: seq<string>, u: Walk, e: Edge, all: Walk)
    requires MetInOrder(order, Then(u, e), all) && e.via
    ensures MetInOrder(order, u, all)
  {
  }

  lemma MetLayer(order: seq<string>, per: map<string, real>, u: Walk, e: Edge, all: Walk, order': seq<string>, per': map<string, real>)
    requires MetInOrder(order, Then(u, e), all) && !e.via && Adds(order, per, e, order', per') && forall l :: l in per <==> l in order
    ensures MetInOrder(order', u, all)
  {
    if e.layer in order {
      assert order' == order;
    } else {
      assert order' == order + [e.layer];
      assert LastHop(all, e.layer) == Hops(Then(u, e));
    }
  }

  lemma CollectVia(order: seq<string>, per: map<string, real>, vias: nat, u: Walk, e: Edge, all: Walk)
    requires Collected(order, per, vias, Then(u, e), all) && e.via && e.weight == 0.0
    ensures Collected(order, per, vias + 1, u, all)
  {
  }

  lemma CollectNone(w: Walk)
    ensures Collected([], map[], 0, w, w)
  {
  }

  lemma MetNone(w: Walk)
    ensures MetInOrder([], w, w)
  {
  }

  lemma SameLayers(order: seq<string>, per: map<string, real>, vias: nat, u: Walk, all: Walk)
    requires Collected(order, per, vias, u, all)
    ensures forall l :: l in per <==> l in order
  {
  }

  /** The layer lists after one more non-via edge. */
  ghost predicate Adds(order: seq<string>, per: map<string, real>, e: Edge, order': seq<string>, per': map<string, real>) {
    && order' == (if e.layer in per then order else order + [e.layer])
    && per' == per[e.layer := (if e.layer in per then per[e.layer] else 0.0) + e.weight]
  }

  lemma AddsSum(order: seq<string>, per: map<string, real>, e: Edge, order': seq<string>, per': map<string, real>)
    requires Distinct(order) && (forall l :: l in per <==> l in order)
    requires Adds(order, per, e, order', per')
    ensures Distinct(order') && (forall l :: l in per' <==> l in order')
    ensures SumOf(order', per') == SumOf(order, per) + e.weight
  {
    if e.layer in per {
      SumAdds(order, per, e.layer, e.weight);
    } else {
      SumUnchanged(order, per, e.layer, e.weight);
      assert order'[..|order'| - 1] == order;
      assert forall l :: l in order' <==> l in order || l == e.layer;
    }
  }

  lemma CollectLayer(per: map<string, real>, u: Walk, e: Edge, all: Walk, per': map<string, real>, l: string)
    requires !e.via && per' == per[e.layer := (if e.layer in per then per[e.layer] else 0.0) + e.weight]
    requires (if l in per then per[l] else 0.0) + OnLayer(Then(u, e), l) == OnLayer(all, l)
    requires Visits(all, l) <==> l in per || Visits(Then(u, e), l)
    ensures (if l in per' then per'[l] else 0.0) + OnLayer(u, l) == OnLayer(all, l)
    ensures Visits(all, l) <==> l in per' || Visits(u, l)
  {
  }

  lemma CollectLength(order: seq<string>, per: map<string, real>, vias: nat, u: Walk, e: Edge, all: Walk,
                      order': seq<string>, per': map<string, real>)
    requires Collected(order, per, vias, Then(u, e), all) && !e.via
    requires Adds(order, per, e, order', per')
    ensures Collected(order', per', vias, u, all)
  {
    hide SumOf, Distinct, OnLayer, Visits;
    AddsSum(order, per, e, order', per');
    forall l
      ensures (if l in per' then per'[l] else 0.0) + OnLayer(u, l) == OnLayer(all, l)
      ensures Visits(all, l) <==> l in per' || Visits(u, l)
    {
      CollectLayer(per, u, e, all, per', l);
    }
  }

  function RunsOf(order: seq<string>, per: map<string, real>): (runs: seq<PathRun>)
    requires forall l :: l in order ==> l in per
  {
    seq(|order|, i requires 0 <= i < |order| => PathRun(order[i], per[order[i]]))
  }

  lemma {:induction false} TotalIsSum(order: seq<string>, per: map<string, real>)
    requires forall l :: l in order ==> l in per
    ensures Total(RunsOf(order, per)) == SumOf(order, per)
  {
    if order != [] {
      var front := order[..|order| - 1];
      TotalIsSum(front, per);
      assert RunsOf(order, per)[..|order| - 1] == RunsOf(front, per);
    }
  }

  lemma EachReported(order: seq<string>, per: map<string, real>, vias: nat, v: nat, all: Walk, layer: string)
    requires Collected(order, per, vias, At(v), all)
    ensures Visits(all, layer) <==> layer in order
    ensures layer in order ==> layer in per && per[layer] == OnLayer(all, layer)
  {
  }

  lemma AllReported(order: seq<string>, per: map<string, real>, vias: nat, v: nat, all: Walk)
    requires Collected(order, per, vias, At(v), all)
    ensures (forall l :: l in order ==> l in per) && vias == Vias(all) && SumOf(order, per) == Weight(all)
  {
  }

  lemma AllCollected(order: seq<string>, per: map<string, real>, vias: nat, v: nat, all: Walk, p: Path)
    requires Collected(order, per, vias, At(v), all) && MetInOrder(order, At(v), all)
    requires p.runs == RunsOf(order, per) && p.vias == vias
    ensures Reports(p, all)
  {
    hide Collected, Vias, OnLayer, Visits, SumOf, LastHop, Total;
    AllReported(order, per, vias, v, all);
    TotalIsSum(order, per);
    forall l | Visits(all, l) ensures exists i :: 0 <= i < |p.runs| && p.runs[i].layer == l {
      EachReported(order, per, vias, v, all, l);
      var i :| 0 <= i < |order| && order[i] == l;
      assert p.runs[i].layer == l;
    }
    forall i | 0 <= i < |p.runs| ensures p.runs[i].length == OnLayer(all, order[i]) && Visits(all, order[i]) {
      assert order[i] in order;
      EachReported(order, per, vias, v, all, order[i]);
    }
  }

  method FindEdge(es: seq<Edge>, v: nat) returns (i: nat)
    ensures i == FirstEdge(es, v)
  {
    i := 0;
    while i < |es| && es[i].to != v
      invariant i <= |es| && forall j :: 0 <= j < i ==> es[j].to != v
    {
      i := i + 1;
    }
  }

  lemma BackWalkStep(g: Edges, prev: Prev, rank: Rank, v: nat)
    requires Chained(g, prev, rank) && v in prev
    ensures prev[v] in rank && v in rank && rank[prev[v]] < rank[v]
    ensures var i := FirstEdge(Out(g, prev[v]), v);
      && i < |Out(g, prev[v])|
      && BackWalk(g, prev, rank, v) == Then(BackWalk(g, prev, rank, prev[v]), Out(g, prev[v])[i])
  {
  }

  method AddLength(order: seq<string>, per: map<string, real>, e: Edge) returns (order': seq<string>, per': map<string, real>)
    ensures Adds(order, per, e, order', per')
  {
    order', per' := order, per;
    if e.layer !in per' {
      order' := order' + [e.layer];
      per' := per'[e.layer := 0.0];
    }
    per' := per'[e.layer := per'[e.layer] + e.weight];
  }

  /** _trace: the walk back ends at a source, and what is reported is that walk. */
  method Trace(g: Edges, prev: Prev, end: nat, a: string, b: string, ghost n: nat, ghost sources: seq<nat>,
               ghost slack: real, ghost dist: Dist)
    returns (p: Path, ghost w: Walk)
    requires GoodEdges(g, n) && Consistent(g) && slack >= 0.0 && forall v :: v in sources ==> v < n
    requires IsSearch(g, sources, slack, dist, prev) && end in dist
    ensures p.from == a && p.to == b
    ensures IsWalk(g, sources, w) && Start(w) in sources && End(w) == end && Weight(w) == dist[end]
    ensures Reports(p, w) && p.Length() == dist[end]
  {
    ghost var rank := Ended(g, n, sources, slack, dist, prev);
    TreeIsChained(g, n, sources, dist, prev, rank);
    BackWalkIsWalk(g, n, sources, dist, prev, rank, end);
    hide IsSearch, Tree, Relaxed, Consistent, GoodEdges, BackWalk, Collected, Chained, Adds, MetInOrder;
    w := BackWalk(g, prev, rank, end);
    var per: map<string, real>, order: seq<string>, vias := map[], [], 0;
    CollectNone(w);
    MetNone(w);
    var node := end;
    while node in prev
      invariant Collected(order, per, vias, BackWalk(g, prev, rank, node), w) && MetInOrder(order, BackWalk(g, prev, rank, node), w)
      decreases if node in rank then rank[node] else 0
    {
      var from := prev[node];
      var es := Out(g, from);
      var i := FindEdge(es, node);
      BackWalkStep(g, prev, rank, node);
      var e := es[i];
      ghost var u := BackWalk(g, prev, rank, from);
      if e.via {
        ViaIsFree(g, from, e);
        CollectVia(order, per, vias, u, e, w);
        MetVia(order, u, e, w);
        vias := vias + 1;
      } else {
        ghost var order0, per0 := order, per;
        order, per := AddLength(order, per, e);
        CollectLength(order0, per0, vias, u, e, w, order, per);
        SameLayers(order0, per0, vias, Then(u, e), w);
        MetLayer(order0, per0, u, e, w, order, per);
      }
      node := from;
    }
    BackWalkStop(g, prev, rank, node);
    OrderedIn(order, per, vias, node, w);
    p := Path(a, b, RunsOf(order, per), vias);
    AllCollected(order, per, vias, node, w, p);
  }

  lemma BackWalkStop(g: Edges, prev: Prev, rank: Rank, v: nat)
    requires Chained(g, prev, rank) && v !in prev
    ensures BackWalk(g, prev, rank, v) == At(v)
  {
  }

  lemma OrderedIn(order: seq<string>, per: map<string, real>, vias: nat, v: nat, all: Walk)
    requires Collected(order, per, vias, At(v), all)
    ensures forall l :: l in order ==> l in per
  {
  }

  lemma ViaIsFree(g: Edges, a: nat, e: Edge)
    requires Consistent(g) && e in Out(g, a) && e.via
    ensures e.weight == 0.0
  {
  }
}
