/** A net's topology: paths between its pads, all found up front for a signal net, or on demand
    through a small cache for a plane net (worker/emi_worker/topology.py). */
module Topology {
  import opened Options
  import opened Dijkstra
  import opened Graphs
  import opened Routes
  import opened Attach
  import opened Traces
  import Build
  import Geometry

  /** A cached search: the pad searched from, and what the search found. */
  datatype Hit = Hit(pad: string, dist: Dist, prev: Prev)

  /** The cache in order of use, most recent last. */
  type Hits = seq<Hit>

  const SEARCH_CACHE: nat := 8

  function WithoutPad(hits: Hits, pad: string): (r: Hits)
    ensures |r| <= |hits| && forall h :: h in r <==> h in hits && h.pad != pad
  {
    if hits == [] then []
    else if hits[0].pad == pad then WithoutPad(hits[1..], pad)
    else [hits[0]] + WithoutPad(hits[1..], pad)
  }

  function Cached(hits: Hits, pad: string): (r: Option<Hit>)
    ensures r.Some? ==> r.value in hits && r.value.pad == pad
    ensures r.None? ==> forall h :: h in hits ==> h.pad != pad
  {
    if hits == [] then None
    else if hits[0].pad == pad then Some(hits[0])
    else
      assert forall h :: h in hits ==> h == hits[0] || h in hits[1..];
      Cached(hits[1..], pad)
  }

  function LastFew(hits: Hits): (r: Hits)
    ensures |r| <= SEARCH_CACHE && (hits != [] ==> r != [] && r[|r| - 1] == hits[|hits| - 1])
    ensures forall h :: h in r ==> h in hits
  {
    if |hits| > SEARCH_CACHE then hits[|hits| - SEARCH_CACHE..] else hits
  }

  /** The cache after hit is used: moved or added to the end, the least recent dropped. */
  function Touch(hits: Hits, hit: Hit): (r: Hits) {
    LastFew(WithoutPad(hits, hit.pad) + [hit])
  }

  ghost predicate OnePerPad(hits: Hits) {
    forall i, j :: 0 <= i < j < |hits| ==> hits[i].pad != hits[j].pad
  }

  ghost predicate HitFits(g: Edges, slack: real, anchors: AnchorMap, h: Hit) {
    h.pad in anchors && IsSearch(g, anchors[h.pad], slack, h.dist, h.prev)
  }

  /** At most eight searches, one per pad, each what a fresh search gives. */
  ghost predicate CacheOk(g: Edges, slack: real, anchors: AnchorMap, hits: Hits) {
    && |hits| <= SEARCH_CACHE && OnePerPad(hits)
    && forall i :: 0 <= i < |hits| ==> HitFits(g, slack, anchors, hits[i])
  }

  lemma {:induction false} WithoutOnce(hits: Hits, pad: string)
    requires OnePerPad(hits)
    ensures OnePerPad(WithoutPad(hits, pad))
  {
    if hits != [] {
      WithoutOnce(hits[1..], pad);
      var r := WithoutPad(hits[1..], pad);
      forall j | 0 <= j < |r| ensures r[j].pad != hits[0].pad {
        assert r[j] in hits[1..];
      }
    }
  }

  lemma TouchKeepsCache(g: Edges, slack: real, anchors: AnchorMap, hits: Hits, hit: Hit)
    requires CacheOk(g, slack, anchors, hits) && HitFits(g, slack, anchors, hit)
    ensures CacheOk(g, slack, anchors, Touch(hits, hit))
  {
    hide HitFits;
    WithoutOnce(hits, hit.pad);
    var rest := WithoutPad(hits, hit.pad);
    forall i | 0 <= i < |rest| ensures rest[i].pad != hit.pad {
      assert rest[i] in rest;
    }
    assert OnePerPad(rest + [hit]);
    forall i | 0 <= i < |Touch(hits, hit)| ensures HitFits(g, slack, anchors, Touch(hits, hit)[i]) {
      var h := Touch(hits, hit)[i];
      assert h in Touch(hits, hit);
      assert h in rest + [hit];
      assert h in hits || h == hit;
    }
  }

  /** Whatever is cached equals a search made afresh. */
  lemma CachedIsFresh(g: Edges, slack: real, anchors: AnchorMap, hits: Hits, h: Hit, dist: Dist, prev: Prev)
    requires CacheOk(g, slack, anchors, hits) && h in hits
    requires IsSearch(g, anchors[h.pad], slack, dist, prev)
    ensures h.dist == dist && h.prev == prev
  {
    SearchIsUnique(g, anchors[h.pad], slack, h.dist, h.prev, dist, prev);
  }

  // ---------- the nearest anchor reached ----------

  ghost predicate IsNearest(nodes: seq<nat>, dist: Dist, v: nat) {
    v in nodes && v in dist && forall u :: u in nodes && u in dist ==> dist[v] <= dist[u]
  }

  method Nearest(nodes: seq<nat>, dist: Dist) returns (best: Option<nat>)
    ensures best.None? ==> forall v :: v in nodes ==> v !in dist
    ensures best.Some? ==> IsNearest(nodes, dist, best.value)
  {
    best := None;
    var k := 0;
    while k < |nodes|
      invariant 0 <= k <= |nodes|
      invariant best.None? ==> forall v :: v in nodes[..k] ==> v !in dist
      invariant best.Some? ==> IsNearest(nodes[..k], dist, best.value)
    {
      var v := nodes[k];
      assert nodes[..k + 1] == nodes[..k] + [v];
      if v in dist && (best.None? || dist[v] < dist[best.value]) {
        best := Some(v);
      }
      k := k + 1;
    }
    assert nodes[..k] == nodes;
  }

  lemma NothingReached(g: Edges, n: nat, slack: real, from: seq<nat>, to: seq<nat>, dist: Dist, prev: Prev)
    requires GoodEdges(g, n) && slack >= 0.0 && forall v :: v in from ==> v < n
    requires IsSearch(g, from, slack, dist, prev) && forall v :: v in to ==> v !in dist
    ensures NoRoute(g, from, to)
  {
    hide GoodEdges, IsSearch;
    forall w ensures !Joins(g, from, to, w) {
      if Joins(g, from, to, w) {
        WalkBound(g, n, from, slack, dist, prev, w);
      }
    }
  }

  lemma ReachedBetween(g: Edges, n: nat, slack: real, from: seq<nat>, to: seq<nat>, dist: Dist, prev: Prev, v: nat, p: Path, walked: Walk)
    requires GoodEdges(g, n) && slack >= 0.0 && forall v :: v in from ==> v < n
    requires IsSearch(g, from, slack, dist, prev) && IsNearest(to, dist, v)
    requires Joins(g, from, to, walked) && Reports(p, walked) && p.Length() == dist[v]
    ensures Between(g, n, slack, from, to, p)
  {
    hide GoodEdges, IsSearch, SlackOver, Reports, Path.Length;
    var u := DistanceIsWalked(g, n, from, slack, dist, prev, v);
    assert Measures(g, n, from, to, u, p.Length());
    forall w | Joins(g, from, to, w) ensures p.Length() <= Weight(w) + SlackOver(Hops(w), slack) {
      WalkBound(g, n, from, slack, dist, prev, w);
    }
  }

  /** A path from one pad's search to another pad, or none. */
  method PathFrom(g: Edges, n: nat, slack: real, anchors: AnchorMap, dist: Dist, prev: Prev, a: string, b: string)
    returns (r: Option<Path>)
    requires Searchable(g, n) && slack >= 0.0 && a in anchors && b in anchors && forall v :: v in anchors[a] ==> v < n
    requires IsSearch(g, anchors[a], slack, dist, prev)
    ensures r.Some? ==> r.value.from == a && r.value.to == b && PathFits(g, n, slack, anchors, r.value)
    ensures r.None? ==> NoRoute(g, anchors[a], anchors[b])
  {
    hide GoodEdges, Consistent, TwoWay, IsSearch, Reports, Path.Length;
    var best := Nearest(anchors[b], dist);
    if best.None? {
      NothingReached(g, n, slack, anchors[a], anchors[b], dist, prev);
      return None;
    }
    var p, w := Trace(g, prev, best.value, a, b, n, anchors[a], slack, dist);
    ReachedBetween(g, n, slack, anchors[a], anchors[b], dist, prev, best.value, p, w);
    return Some(p);
  }

  // ---------- the topology ----------

  type Paths = map<(string, string), Path>

  ghost predicate PathsOk(g: Edges, n: nat, slack: real, anchors: AnchorMap, paths: Paths) {
    forall key :: key in paths ==>
      paths[key].from == key.0 && paths[key].to == key.1 && PathFits(g, n, slack, anchors, paths[key])
  }

  /** Every two pads of the list have their path stored, or nothing joins them. */
  ghost predicate AllPairs(g: Edges, anchors: AnchorMap, paths: Paths, pads: seq<string>, i: nat, j: nat) {
    forall x, y :: 0 <= x < y < |pads| && (x < i || (x == i && y < j)) ==> PairSettled(g, anchors, paths, pads[x], pads[y])
  }

  ghost predicate PairSettled(g: Edges, anchors: AnchorMap, paths: Paths, a: string, b: string) {
    (a, b) in paths || (a in anchors && b in anchors && NoRoute(g, anchors[a], anchors[b]))
  }

  ghost predicate AnchorsInRange(anchors: AnchorMap, n: nat) {
    forall key :: key in anchors ==> forall v :: v in anchors[key] ==> v < n
  }

  lemma OneMorePath(g: Edges, n: nat, slack: real, anchors: AnchorMap, paths: Paths, pads: seq<string>, i: nat, j: nat, r: Option<Path>, paths': Paths)
    requires i < j < |pads| && pads[i] in anchors && pads[j] in anchors
    requires PathsOk(g, n, slack, anchors, paths) && AllPairs(g, anchors, paths, pads, i, j)
    requires r.Some? ==> r.value.from == pads[i] && r.value.to == pads[j] && PathFits(g, n, slack, anchors, r.value)
    requires r.None? ==> NoRoute(g, anchors[pads[i]], anchors[pads[j]])
    requires paths' == if r.Some? then paths[(pads[i], pads[j]) := r.value] else paths
    ensures PathsOk(g, n, slack, anchors, paths') && AllPairs(g, anchors, paths', pads, i, j + 1)
  {
  }

  lemma NextRow(g: Edges, anchors: AnchorMap, paths: Paths, pads: seq<string>, i: nat)
    requires i < |pads| && AllPairs(g, anchors, paths, pads, i, |pads|)
    ensures AllPairs(g, anchors, paths, pads, i + 1, i + 2)
  {
  }

  lemma AllRows(g: Edges, anchors: AnchorMap, paths: Paths, pads: seq<string>, j: nat)
    requires AllPairs(g, anchors, paths, pads, |pads|, j)
    ensures AllPairs(g, anchors, paths, pads, |pads|, 0)
  {
  }

  /** The paths from the i-th pad to the later ones. */
  method RowOfPaths(g: Edges, n: nat, slack: real, anchors: AnchorMap, pads: seq<string>, i: nat, paths0: Paths) returns (paths: Paths)
    requires Searchable(g, n) && slack >= 0.0 && AnchorsInRange(anchors, n)
    requires i < |pads| && forall k :: 0 <= k < |pads| ==> pads[k] in anchors
    requires PathsOk(g, n, slack, anchors, paths0) && AllPairs(g, anchors, paths0, pads, i, i + 1)
    ensures PathsOk(g, n, slack, anchors, paths) && AllPairs(g, anchors, paths, pads, i, |pads|)
  {
    hide Consistent, TwoWay, PathsOk, AllPairs, IsSearch, PathFits, NoRoute, GoodEdges;
    paths := paths0;
    var dist, prev := Run(g, n, anchors[pads[i]], slack);
    var j := i + 1;
    while j < |pads|
      invariant i < j <= |pads| && PathsOk(g, n, slack, anchors, paths) && AllPairs(g, anchors, paths, pads, i, j)
    {
      var r := PathFrom(g, n, slack, anchors, dist, prev, pads[i], pads[j]);
      ghost var was := paths;
      if r.Some? {
        paths := paths[(pads[i], pads[j]) := r.value];
      }
      OneMorePath(g, n, slack, anchors, was, pads, i, j, r, paths);
      j := j + 1;
    }
  }

  /** Every pair of pads, one search for each pad. */
  method EveryPath(g: Edges, n: nat, slack: real, anchors: AnchorMap, pads: seq<string>) returns (paths: Paths)
    requires Searchable(g, n) && slack >= 0.0 && AnchorsInRange(anchors, n)
    requires forall k :: 0 <= k < |pads| ==> pads[k] in anchors
    ensures PathsOk(g, n, slack, anchors, paths) && AllPairs(g, anchors, paths, pads, |pads|, 0)
  {
    paths := map[];
    var i := 0;
    while i < |pads|
      invariant 0 <= i <= |pads|
      invariant PathsOk(g, n, slack, anchors, paths) && AllPairs(g, anchors, paths, pads, i, i + 1)
    {
      hide Searchable, PathsOk, AllPairs;
      paths := RowOfPaths(g, n, slack, anchors, pads, i, paths);
      NextRow(g, anchors, paths, pads, i);
      i := i + 1;
    }
    AllRows(g, anchors, paths, pads, i + 1);
  }

  lemma AnchorsAreNodes(points: seq<Node>, g: Edges, dist: Geometry.Metric, tol: real, places: seq<Build.PadPlace>, n: nat)
    requires |points| <= n
    ensures AnchorsInRange(AnchorsOfAll(points, g, dist, tol, places), n)
  {
  }

  class NetTopology {
    const slack: real
    const lazy: bool
    const graph: Edges
    const nodes: nat
    const pads: seq<string>
    const unreachable: seq<string>
    const anchors: AnchorMap
    var paths: Paths
    var searches: Hits

    ghost predicate Valid()
      reads this
    {
      && slack >= 0.0 && Searchable(graph, nodes) && AnchorsInRange(anchors, nodes)
      && (forall key :: key in anchors <==> key in pads)
      && PathsOk(graph, nodes, slack, anchors, paths)
      && CacheOk(graph, slack, anchors, searches)
      && (!lazy ==> AllPairs(graph, anchors, paths, pads, |pads|, 0))
      && (lazy ==> forall key :: key in paths ==> key.0 != key.1)
    }

    /** _finish(): the pads attached, and for a signal net every path found. */
    constructor (g: Graph, places: seq<Build.PadPlace>, lazy: bool, slack: real)
      requires g.Valid() && slack >= 0.0
      ensures Valid() && this.slack == slack && this.lazy == lazy
      ensures graph == g.edges && nodes == |g.points|
      ensures pads == KeysReached(g.points, g.edges, g.dist, g.tol, places, true)
      ensures unreachable == KeysReached(g.points, g.edges, g.dist, g.tol, places, false)
      ensures anchors == AnchorsOfAll(g.points, g.edges, g.dist, g.tol, places)
      ensures lazy ==> paths == map[]
    {
      hide GraphOk, Searchable, AnchorsInRange, PathFits, PairSettled, KeysReached, AnchorsOfAll, HitFits;
      GraphIsSearchable(g.cells, g.points, g.edges, g.dist, g.tol);
      var reached, lost, found := AttachAll(g, places);
      AnchorsAreNodes(g.points, g.edges, g.dist, g.tol, places, |g.points|);
      forall key ensures key in found <==> key in reached {
        AnchoredIffReached(g.points, g.edges, g.dist, g.tol, places, key);
      }
      this.slack, this.lazy, graph, nodes := slack, lazy, g.edges, |g.points|;
      pads, unreachable, anchors := reached, lost, found;
      searches := [];
      var stored: Paths := map[];
      if !lazy {
        stored := EveryPath(g.edges, |g.points|, slack, found, reached);
      }
      paths := stored;
    }

    /** Two anchored pads' path is stored if an eager topology has one. */
    lemma EagerHasAll(a: string, b: string)
      requires Valid() && !lazy && a != b && a in anchors && b in anchors
      ensures (a, b) in paths || (b, a) in paths || NoRoute(graph, anchors[a], anchors[b])
    {
      hide NoRoute, PathsOk, CacheOk;
      var x :| 0 <= x < |pads| && pads[x] == a;
      var y :| 0 <= y < |pads| && pads[y] == b;
      if x < y {
        assert PairSettled(graph, anchors, paths, pads[x], pads[y]);
      } else {
        assert PairSettled(graph, anchors, paths, pads[y], pads[x]);
        if (b, a) !in paths {
          NoRouteBack(graph, anchors[b], anchors[a]);
        }
      }
    }

    /** path(): the answer for two pads. For one pad twice an on-demand topology has none, and an
        eager one what its build stored. */
    method PathBetween(a: string, b: string) returns (r: Option<Path>)
      requires Valid()
      modifies this`paths, this`searches
      ensures Valid()
      ensures a != b ==> Answers(graph, nodes, slack, anchors, a, b, r)
      ensures a == b ==> r == if !lazy && (a, a) in old(paths) then Some(old(paths)[(a, a)]) else None
      ensures paths == old(paths) || (lazy && r.Some? && paths == old(paths)[(a, b) := r.value])
    {
      hide Searchable, NoRoute, AllPairs, CacheOk, Between, AnchorsInRange;
      if (a, b) in paths {
        return Some(paths[(a, b)]);
      }
      if (b, a) in paths {
        return Some(paths[(b, a)]);
      }
      if !lazy {
        if a in anchors && b in anchors && a != b {
          EagerHasAll(a, b);
        }
        return None;
      }
      if a !in anchors || b !in anchors || a == b {
        return None;
      }
      r := OnDemand(a, b);
      if r.Some? {
        paths := paths[(a, b) := r.value];
      }
    }

    method OnDemand(a: string, b: string) returns (r: Option<Path>)
      requires Valid() && a in anchors && b in anchors
      modifies this`searches
      ensures Valid()
      ensures r.Some? ==> r.value.from == a && r.value.to == b && PathFits(graph, nodes, slack, anchors, r.value)
      ensures r.None? ==> NoRoute(graph, anchors[a], anchors[b])
    {
      hide Searchable, NoRoute, AllPairs, CacheOk, PathsOk, PathFits, IsSearch;
      var dist, prev := Search(a);
      r := PathFrom(graph, nodes, slack, anchors, dist, prev, a, b);
    }

    /** _search(): a cached search, or a fresh one, made the most recent. */
    method Search(pad: string) returns (dist: Dist, prev: Prev)
      requires Valid() && pad in anchors
      modifies this`searches
      ensures Valid() && IsSearch(graph, anchors[pad], slack, dist, prev)
      ensures searches == Touch(old(searches), Hit(pad, dist, prev))
    {
      hide Searchable, PathsOk, AllPairs, IsSearch;
      var hit := Cached(searches, pad);
      if hit.Some? {
        dist, prev := hit.value.dist, hit.value.prev;
      } else {
        dist, prev := Fresh(pad);
      }
      TouchKeepsCache(graph, slack, anchors, searches, Hit(pad, dist, prev));
      searches := Touch(searches, Hit(pad, dist, prev));
    }

    method Fresh(pad: string) returns (dist: Dist, prev: Prev)
      requires Valid() && pad in anchors
      ensures IsSearch(graph, anchors[pad], slack, dist, prev)
    {
      hide Consistent, TwoWay, PathsOk, AllPairs, CacheOk;
      dist, prev := Run(graph, nodes, anchors[pad], slack);
    }
  }
}
