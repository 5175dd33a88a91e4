/** What a path tells of the board: its vias are its changes of layer and its lengths are distances
    between places (worker/emi_worker/topology.py). And what the cache of a plane net keeps. */
module PathLaws {
  import opened Geometry
  import opened Dijkstra
  import opened Graphs
  import opened Build
  import opened BoardLaws
  import Topology
  import Traces

  /** The hops between nodes of two different layers. */
  ghost function Changes(points: seq<Node>, w: Walk): (k: nat) {
    match w
    case At(_) => 0
    case Then(u, e) =>
      Changes(points, u) + if End(u) < |points| && e.to < |points| && points[End(u)].layer != points[e.to].layer then 1 else 0
  }

  /** The distance walked between nodes of the layer. */
  ghost function Walked(points: seq<Node>, dist: Metric, w: Walk, layer: string): (d: real) {
    match w
    case At(_) => 0.0
    case Then(u, e) =>
      Walked(points, dist, u, layer)
        + if End(u) < |points| && e.to < |points| && points[End(u)].layer == points[e.to].layer == layer
          then dist(points[End(u)].at, points[e.to].at) else 0.0
  }

  /** The distance walked between nodes of one layer, whichever it is. */
  ghost function WalkedInAll(points: seq<Node>, dist: Metric, w: Walk): (d: real) {
    match w
    case At(_) => 0.0
    case Then(u, e) =>
      WalkedInAll(points, dist, u)
        + if End(u) < |points| && e.to < |points| && points[End(u)].layer == points[e.to].layer
          then dist(points[End(u)].at, points[e.to].at) else 0.0
  }

  ghost predicate NoPours(b: Board, net: string) {
    forall z :: 0 <= z < |b.zones| && b.zones[z].net == net ==> b.zones[z].ring == []
  }

  lemma Hop(b: Board, net: string, dist: Metric, tol: real, cells: Cells, points: seq<Node>, g: Edges,
            chains: seq<seq<nat>>, m: nat, a: nat, e: Edge)
    requires IsNetGraph(b, net, dist, tol, cells, points, g, chains, m) && e in Out(g, a)
    ensures a < |points| && e.to < |points|
    ensures points[a].layer == points[e.to].layer ==>
      !e.via && e.layer == points[a].layer && e.weight == dist(points[a].at, points[e.to].at)
    ensures points[a].layer != points[e.to].layer ==> e.weight == 0.0 && (e.via || !NoPours(b, net))
  {
    hide CopperOf, Built, Placed;
    if a < |points| && e.to < |points| && points[a].layer != points[e.to].layer && !e.via {
      var j, z, u, w := PouredEdge(b, net, dist, tol, cells, points, g, chains, m, a, e);
    }
  }

  /** What a path reports of a walk over a net's graph: as many vias as changes of layer, when the net
      has no pours, and of each layer the distance walked on it. */
  lemma {:induction false} WalkTells(b: Board, net: string, dist: Metric, tol: real, cells: Cells, points: seq<Node>, g: Edges,
                                     chains: seq<seq<nat>>, m: nat, sources: seq<nat>, w: Walk, layer: string)
    requires IsNetGraph(b, net, dist, tol, cells, points, g, chains, m) && IsWalk(g, sources, w)
    ensures NoPours(b, net) ==> Traces.Vias(w) == Changes(points, w)
    ensures Traces.OnLayer(w, layer) == Walked(points, dist, w, layer)
    ensures Weight(w) == WalkedInAll(points, dist, w)
  {
    hide IsNetGraph, NoPours;
    if w.Then? {
      WalkTells(b, net, dist, tol, cells, points, g, chains, m, sources, w.walk, layer);
      Hop(b, net, dist, tol, cells, points, g, chains, m, End(w.walk), w.edge);
    }
  }

  // ---------- the cache ----------

  ghost predicate InOrderOf(r: Topology.Hits, hits: Topology.Hits, at: seq<nat>) {
    && |at| == |r| && (forall k :: 0 <= k < |r| ==> at[k] < |hits| && hits[at[k]] == r[k])
    && forall j, k :: 0 <= j < k < |r| ==> at[j] < at[k]
  }

  /** The places of the other pads' searches. */
  ghost predicate AreOthers(hits: Topology.Hits, pad: string, at: seq<nat>) {
    && (forall k :: 0 <= k < |at| ==> at[k] < |hits| && hits[at[k]].pad != pad)
    && forall i :: 0 <= i < |hits| && hits[i].pad != pad ==> i in at
  }

  function Shifted(rest: seq<nat>): (next: seq<nat>) {
    seq(|rest|, k requires 0 <= k < |rest| => rest[k] + 1)
  }

  lemma ShiftedOthers(hits: Topology.Hits, pad: string, rest: seq<nat>)
    requires hits != [] && AreOthers(hits[1..], pad, rest)
    ensures AreOthers(hits, pad, (if hits[0].pad == pad then [] else [0]) + Shifted(rest))
  {
    var next := Shifted(rest);
    forall i | 0 < i < |hits| && hits[i].pad != pad ensures i in next {
      assert hits[1..][i - 1] == hits[i];
      var k :| 0 <= k < |rest| && rest[k] == i - 1;
      assert next[k] == i;
    }
    forall k | 0 <= k < |next| ensures next[k] < |hits| && hits[next[k]].pad != pad {
      assert hits[1..][rest[k]] == hits[next[k]];
    }
  }

  lemma ShiftedOrder(r: Topology.Hits, hits: Topology.Hits, rest: seq<nat>)
    requires hits != [] && InOrderOf(r, hits[1..], rest)
    ensures InOrderOf(r, hits, Shifted(rest)) && forall k :: 0 <= k < |rest| ==> Shifted(rest)[k] > 0
  {
    var next := Shifted(rest);
    forall k | 0 <= k < |next| ensures next[k] < |hits| && hits[next[k]] == r[k] {
      assert hits[1..][rest[k]] == hits[next[k]];
    }
  }

  lemma FirstInFront(r: Topology.Hits, hits: Topology.Hits, next: seq<nat>)
    requires hits != [] && InOrderOf(r, hits, next) && forall k :: 0 <= k < |next| ==> next[k] > 0
    ensures InOrderOf([hits[0]] + r, hits, [0] + next)
  {
  }

  lemma {:induction false} OthersInOrder(hits: Topology.Hits, pad: string) returns (at: seq<nat>)
    ensures AreOthers(hits, pad, at) && InOrderOf(Topology.WithoutPad(hits, pad), hits, at)
  {
    at := [];
    if hits != [] {
      hide InOrderOf, AreOthers, Shifted;
      var rest := OthersInOrder(hits[1..], pad);
      ShiftedOthers(hits, pad, rest);
      ShiftedOrder(Topology.WithoutPad(hits[1..], pad), hits, rest);
      FirstInFront(Topology.WithoutPad(hits[1..], pad), hits, Shifted(rest));
      at := (if hits[0].pad == pad then [] else [0]) + Shifted(rest);
      assert [] + Shifted(rest) == Shifted(rest);
    }
  }

  /** Using a search puts it last. The other pads' searches keep their order; all stay while there are
      seven or fewer, and otherwise the seven used last do. */
  lemma UsedLast(hits: Topology.Hits, hit: Topology.Hit) returns (others: seq<nat>)
    ensures AreOthers(hits, hit.pad, others) && forall j, k :: 0 <= j < k < |others| ==> others[j] < others[k]
    ensures var r := Topology.Touch(hits, hit);
      var n := if |others| <= 7 then |others| else 7;
      && |r| == n + 1 && r[n] == hit
      && forall k :: 0 <= k < n ==> others[|others| - n + k] < |hits| && r[k] == hits[others[|others| - n + k]]
  {
    hide Topology.WithoutPad, AreOthers;
    others := OthersInOrder(hits, hit.pad);
    var all := Topology.WithoutPad(hits, hit.pad) + [hit];
    assert Topology.Touch(hits, hit) == if |all| > 8 then all[|all| - 8..] else all;
  }
}
