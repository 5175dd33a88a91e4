/** The shortest-path search of worker/emi_worker/topology.py: many sources, a heap with stale
    entries left in it, and a slack below which an improvement is ignored. */
module Dijkstra {
  import Sets


  datatype Edge = Edge(to: nat, weight: real, layer: string, via: bool)

  type Edges = map<nat, seq<Edge>>

  function Out(g: Edges, a: nat): (es: seq<Edge>) {
    if a in g then g[a] else []
  }

  /** Every edge joins two of the n nodes and has no negative length. */
  ghost predicate GoodEdges(g: Edges, n: nat) {
    forall a: nat, i: nat :: i < |Out(g, a)| ==> GoodEdge(Out(g, a)[i], a, n)
  }

  ghost predicate GoodEdge(e: Edge, a: nat, n: nat) {
    a < n && e.to < n && e.weight >= 0.0
  }

  // ---------- walks ----------

  datatype Walk = At(node: nat) | Then(walk: Walk, edge: Edge)

  function End(w: Walk): (v: nat) {
    match w
    case At(s) => s
    case Then(_, e) => e.to
  }

  function Start(w: Walk): (v: nat) {
    match w
    case At(s) => s
    case Then(u, _) => Start(u)
  }

  function Weight(w: Walk): (d: real) {
    match w
    case At(_) => 0.0
    case Then(u, e) => Weight(u) + e.weight
  }

  function Hops(w: Walk): (k: nat) {
    match w
    case At(_) => 0
    case Then(u, _) => Hops(u) + 1
  }

  ghost predicate IsWalk(g: Edges, sources: seq<nat>, w: Walk) {
    match w
    case At(s) => s in sources
    case Then(u, e) => IsWalk(g, sources, u) && e in Out(g, End(u))
  }

  // ---------- the search as the code runs it ----------

  type Entry = (real, nat)

  datatype Search = Search(dist: map<nat, real>, prev: map<nat, nat>, queue: seq<Entry>)

  function Begin(sources: seq<nat>): (s: Search) {
    Search(map v | v in sources :: 0.0, map[], seq(|sources|, i requires 0 <= i < |sources| => (0.0, sources[i])))
  }

  predicate Less(a: Entry, b: Entry) {
    a.0 < b.0 || (a.0 == b.0 && a.1 < b.1)
  }

  /** The heap's least entry. */
  function Least(q: seq<Entry>): (i: nat)
    requires q != []
    ensures i < |q| && forall j :: 0 <= j < |q| ==> !Less(q[j], q[i])
  {
    if |q| == 1 then 0
    else
      var i := Least(q[1..]);
      assert forall j :: 1 <= j < |q| ==> !Less(q[j], q[1..][i]) by {
        forall j | 1 <= j < |q| ensures !Less(q[j], q[1..][i]) { assert q[j] == q[1..][j - 1]; }
      }
      if Less(q[0], q[i + 1]) then 0 else i + 1
  }

  function Relax(e: Edge, x: nat, d: real, slack: real, s: Search): (t: Search) {
    var nd := d + e.weight;
    if e.to !in s.dist || nd < s.dist[e.to] - slack then
      Search(s.dist[e.to := nd], s.prev[e.to := x], s.queue + [(nd, e.to)])
    else s
  }

  function RelaxFirst(es: seq<Edge>, k: nat, x: nat, d: real, slack: real, s: Search): (t: Search)
    requires k <= |es|
  {
    if k == 0 then s else Relax(es[k - 1], x, d, slack, RelaxFirst(es, k - 1, x, d, slack, s))
  }

  function Pop(s: Search): (t: Search)
    requires s.queue != []
  {
    var i := Least(s.queue);
    s.(queue := s.queue[..i] + s.queue[i + 1..])
  }

  /** One turn of the main loop. */
  function Turn(g: Edges, slack: real, s: Search): (t: Search) {
    if s.queue == [] then s
    else
      var (d, x) := s.queue[Least(s.queue)];
      if x in s.dist && d > s.dist[x] then Pop(s)
      else RelaxFirst(Out(g, x), |Out(g, x)|, x, d, slack, Pop(s))
  }

  /** The entry is the i-th of the queue, and of the least distance; of those of that distance, of the
      least node. */
  ghost predicate IsNext(s: Search, i: nat) {
    i < |s.queue| && forall j :: 0 <= j < |s.queue| ==>
      s.queue[i].0 < s.queue[j].0 || (s.queue[i].0 == s.queue[j].0 && s.queue[i].1 <= s.queue[j].1)
  }

  /** A turn takes the next entry off the queue. It does nothing more when a shorter way to its node is
      known by then, and otherwise tries each edge out of the node in turn. */
  lemma TurnTakesNext(g: Edges, slack: real, s: Search) returns (i: nat)
    requires s.queue != []
    ensures IsNext(s, i)
    ensures var (d, x) := s.queue[i];
      var rest := Search(s.dist, s.prev, s.queue[..i] + s.queue[i + 1..]);
      Turn(g, slack, s) == if x in s.dist && d > s.dist[x] then rest else RelaxFirst(Out(g, x), |Out(g, x)|, x, d, slack, rest)
  {
    i := Least(s.queue);
    assert forall j :: 0 <= j < |s.queue| ==> !Less(s.queue[j], s.queue[i]);
  }

  /** An edge gives its far node a distance, a predecessor and an entry exactly when it is the first way
      there, or shorter by more than the slack. */
  lemma RelaxMeans(e: Edge, x: nat, d: real, slack: real, s: Search)
    ensures var (t, v) := (Relax(e, x, d, slack, s), e.to);
      && (v !in s.dist || d + e.weight + slack < s.dist[v] ==>
            (v in t.dist && t.dist[v] == d + e.weight && v in t.prev && t.prev[v] == x && t.queue == s.queue + [(d + e.weight, v)]))
      && (v in s.dist && s.dist[v] <= d + e.weight + slack ==> t == s)
      && forall u :: u != v ==>
           ((u in t.dist <==> u in s.dist) && (u in s.dist ==> t.dist[u] == s.dist[u])
            && (u in t.prev <==> u in s.prev) && (u in s.prev ==> t.prev[u] == s.prev[u]))
  {
  }

  function Turns(g: Edges, slack: real, s: Search, k: nat): (t: Search) {
    if k == 0 then s else Turn(g, slack, Turns(g, slack, s, k - 1))
  }

  /** dist and prev are what the search from these sources ends with. */
  ghost predicate IsSearch(g: Edges, sources: seq<nat>, slack: real, dist: map<nat, real>, prev: map<nat, nat>) {
    exists k: nat :: Turns(g, slack, Begin(sources), k) == Search(dist, prev, [])
  }

  lemma {:induction false} TurnsStay(g: Edges, slack: real, s: Search, k: nat, m: nat)
    requires k <= m && Turns(g, slack, s, k).queue == []
    ensures Turns(g, slack, s, m) == Turns(g, slack, s, k)
  {
    if k < m {
      TurnsStay(g, slack, s, k, m - 1);
    }
  }

  /** A search has one outcome: running it again gives the same distances and predecessors. */
  lemma SearchIsUnique(g: Edges, sources: seq<nat>, slack: real, dist: map<nat, real>, prev: map<nat, nat>,
                       dist': map<nat, real>, prev': map<nat, nat>)
    requires IsSearch(g, sources, slack, dist, prev) && IsSearch(g, sources, slack, dist', prev')
    ensures dist == dist' && prev == prev'
  {
    var k: nat :| Turns(g, slack, Begin(sources), k) == Search(dist, prev, []);
    var m: nat :| Turns(g, slack, Begin(sources), m) == Search(dist', prev', []);
    if k <= m {
      TurnsStay(g, slack, Begin(sources), k, m);
    } else {
      TurnsStay(g, slack, Begin(sources), m, k);
    }
  }

  // ---------- the invariant ----------

  type Dist = map<nat, real>
  type Prev = map<nat, nat>
  type Rank = map<nat, nat>

  /** Some edge leads from a, at distance da, to b, at distance db. */
  ghost predicate Leads(g: Edges, a: nat, da: real, b: nat, db: real) {
    exists i: nat :: i < |Out(g, a)| && Out(g, a)[i].to == b && db == da + Out(g, a)[i].weight
  }

  /** Distances come from predecessors, and predecessors were settled earlier. `rank` numbers the
      settled nodes in the order they left the heap. */
  ghost predicate Tree(g: Edges, n: nat, sources: seq<nat>, dist: Dist, prev: Prev, rank: Rank) {
    && (forall v :: v in sources ==> v in dist && dist[v] == 0.0 && v !in prev)
    && (forall v :: v in dist ==> v < n && dist[v] >= 0.0 && (v in sources || v in prev))
    && (forall v :: v in rank ==> v in dist && rank[v] < |rank|)
    && (forall v :: v in prev ==> v in dist && prev[v] in rank && Leads(g, prev[v], dist[prev[v]], v, dist[v]))
    && (forall v :: v in prev && v in rank ==> rank[prev[v]] < rank[v])
  }

  /** Every open node has its current entry in the heap; no entry is below a settled distance. */
  ghost predicate Heap(dist: Dist, queue: seq<Entry>, rank: Rank) {
    && (forall i :: 0 <= i < |queue| ==> queue[i].1 in dist && dist[queue[i].1] <= queue[i].0)
    && (forall v :: v in dist && v !in rank ==> (dist[v], v) in queue)
    && (forall v, i :: v in rank && v in dist && 0 <= i < |queue| ==> dist[v] <= queue[i].0)
  }

  ghost predicate Settled(dist: Dist, e: Edge, d: real, slack: real) {
    e.to in dist && dist[e.to] <= d + e.weight + slack
  }

  /** The edges out of settled nodes are relaxed, except those of x from the k-th on. */
  ghost predicate Relaxed(g: Edges, slack: real, dist: Dist, rank: Rank, x: nat, k: nat) {
    forall v, i: nat :: v in rank && v in dist && i < |Out(g, v)| && (v != x || i < k) ==>
      Settled(dist, Out(g, v)[i], dist[v], slack)
  }

  ghost predicate Inv(g: Edges, n: nat, sources: seq<nat>, slack: real, s: Search, rank: Rank) {
    && Tree(g, n, sources, s.dist, s.prev, rank)
    && Heap(s.dist, s.queue, rank)
    && Relaxed(g, slack, s.dist, rank, n, 0)
  }

  lemma BeginInv(g: Edges, n: nat, sources: seq<nat>, slack: real)
    requires forall v :: v in sources ==> v < n
    ensures Inv(g, n, sources, slack, Begin(sources), map[])
  {
    var s := Begin(sources);
    forall v | v in s.dist ensures (0.0, v) in s.queue {
      var i :| 0 <= i < |sources| && sources[i] == v;
      assert s.queue[i] == (0.0, v);
    }
  }

  /** Giving an open node a better predecessor keeps the tree. */
  lemma ImproveTree(g: Edges, n: nat, sources: seq<nat>, dist: Dist, prev: Prev, rank: Rank, x: nat, m: nat, nd: real)
    requires Tree(g, n, sources, dist, prev, rank)
    requires x in rank && m !in rank && m !in sources && m < n && nd >= 0.0
    requires Leads(g, x, dist[x], m, nd)
    ensures Tree(g, n, sources, dist[m := nd], prev[m := x], rank)
  {
    hide Leads;
    var dist', prev' := dist[m := nd], prev[m := x];
    forall v | v in prev'
      ensures v in dist' && prev'[v] in rank && Leads(g, prev'[v], dist'[prev'[v]], v, dist'[v])
    {
      if v == m {
        assert dist'[x] == dist[x];
      } else {
        assert prev[v] != m;
      }
    }
  }

  lemma ImproveHeap(dist: Dist, queue: seq<Entry>, rank: Rank, m: nat, nd: real)
    requires Heap(dist, queue, rank) && m !in rank && (m in dist ==> nd <= dist[m])
    requires forall v :: v in rank && v in dist ==> dist[v] <= nd
    ensures Heap(dist[m := nd], queue + [(nd, m)], rank)
  {
  }

  lemma ImproveRelaxed(g: Edges, slack: real, dist: Dist, rank: Rank, x: nat, k: nat, m: nat, nd: real)
    requires Relaxed(g, slack, dist, rank, x, k)
    requires m !in rank && (m in dist ==> nd <= dist[m])
    ensures Relaxed(g, slack, dist[m := nd], rank, x, k)
  {
  }

  /** The invariant inside the edge loop: x has just been settled at distance d. */
  ghost predicate Midway(g: Edges, n: nat, sources: seq<nat>, slack: real, dist: Dist, prev: Prev, queue: seq<Entry>,
                         rank: Rank, x: nat, d: real, k: nat) {
    Tree(g, n, sources, dist, prev, rank) && Heap(dist, queue, rank) && Relaxed(g, slack, dist, rank, x, k) && AllBelow(dist, rank, x, d)
  }

  ghost predicate AllBelow(dist: Dist, rank: Rank, x: nat, d: real) {
    && x in rank && x in dist && dist[x] == d && d >= 0.0
    && (forall v :: v in rank ==> v in dist && dist[v] <= d)
  }

  lemma BelowStays(dist: Dist, rank: Rank, x: nat, d: real, m: nat, nd: real)
    requires AllBelow(dist, rank, x, d) && m !in rank && nd >= d
    ensures AllBelow(dist[m := nd], rank, x, d)
    ensures forall v :: v in rank && v in dist ==> dist[v] <= nd
  {
  }

  /** Improving the open node m through x keeps everything. */
  lemma ImproveAll(g: Edges, n: nat, sources: seq<nat>, slack: real, dist: Dist, prev: Prev, queue: seq<Entry>,
                   rank: Rank, x: nat, d: real, m: nat, nd: real, k: nat)
    requires Midway(g, n, sources, slack, dist, prev, queue, rank, x, d, k) && Leads(g, x, d, m, nd)
    requires m !in rank && m !in sources && m < n && nd >= d && (m in dist ==> nd <= dist[m])
    ensures Midway(g, n, sources, slack, dist[m := nd], prev[m := x], queue + [(nd, m)], rank, x, d, k)
  {
    hide Tree, Leads, Heap, Relaxed, AllBelow;
    BelowFacts(dist, rank, x, d);
    BelowStays(dist, rank, x, d, m, nd);
    ImproveTree(g, n, sources, dist, prev, rank, x, m, nd);
    ImproveHeap(dist, queue, rank, m, nd);
    ImproveRelaxed(g, slack, dist, rank, x, k, m, nd);
  }

  lemma OpenTarget(g: Edges, n: nat, sources: seq<nat>, dist: Dist, prev: Prev, rank: Rank, x: nat, d: real, e: Edge, slack: real)
    requires Tree(g, n, sources, dist, prev, rank) && AllBelow(dist, rank, x, d)
    requires slack >= 0.0 && e.weight >= 0.0
    requires e.to !in dist || d + e.weight < dist[e.to] - slack
    ensures e.to !in rank && e.to !in sources
  {
  }

  lemma BelowFacts(dist: Dist, rank: Rank, x: nat, d: real)
    requires AllBelow(dist, rank, x, d)
    ensures x in rank && x in dist && dist[x] == d && d >= 0.0
  {
  }

  lemma EdgeFacts(g: Edges, n: nat, x: nat, k: nat, d: real)
    requires GoodEdges(g, n) && k < |Out(g, x)|
    ensures var e := Out(g, x)[k]; e.to < n && e.weight >= 0.0 && Leads(g, x, d, e.to, d + e.weight)
  {
  }

  lemma RelaxKeeps(g: Edges, n: nat, sources: seq<nat>, slack: real, s: Search, rank: Rank, x: nat, d: real, k: nat, t: Search)
    requires GoodEdges(g, n) && slack >= 0.0 && k < |Out(g, x)|
    requires Midway(g, n, sources, slack, s.dist, s.prev, s.queue, rank, x, d, k)
    requires t == Relax(Out(g, x)[k], x, d, slack, s)
    ensures Midway(g, n, sources, slack, t.dist, t.prev, t.queue, rank, x, d, k + 1)
  {
    hide Tree, Leads, Heap, Relaxed, AllBelow, GoodEdges, Out;
    var e := Out(g, x)[k];
    var nd := d + e.weight;
    BelowFacts(s.dist, rank, x, d);
    EdgeFacts(g, n, x, k, d);
    if e.to !in s.dist || nd < s.dist[e.to] - slack {
      OpenTarget(g, n, sources, s.dist, s.prev, rank, x, d, e, slack);
      ImproveAll(g, n, sources, slack, s.dist, s.prev, s.queue, rank, x, d, e.to, nd, k);
    }
    OneMoreRelaxed(g, slack, t.dist, rank, x, d, k);
  }

  lemma OneMoreRelaxed(g: Edges, slack: real, dist: Dist, rank: Rank, x: nat, d: real, k: nat)
    requires k < |Out(g, x)| && Relaxed(g, slack, dist, rank, x, k)
    requires AllBelow(dist, rank, x, d) && Settled(dist, Out(g, x)[k], d, slack)
    ensures Relaxed(g, slack, dist, rank, x, k + 1)
  {
  }

  lemma {:induction false} RelaxFirstKeeps(g: Edges, n: nat, sources: seq<nat>, slack: real, s: Search, rank: Rank,
                                           x: nat, d: real, k: nat, t: Search)
    requires GoodEdges(g, n) && slack >= 0.0 && k <= |Out(g, x)|
    requires Midway(g, n, sources, slack, s.dist, s.prev, s.queue, rank, x, d, 0)
    requires t == RelaxFirst(Out(g, x), k, x, d, slack, s)
    ensures Midway(g, n, sources, slack, t.dist, t.prev, t.queue, rank, x, d, k)
  {
    hide Midway, Relax, GoodEdges;
    if k > 0 {
      var u := RelaxFirst(Out(g, x), k - 1, x, d, slack, s);
      RelaxFirstKeeps(g, n, sources, slack, s, rank, x, d, k - 1, u);
      RelaxKeeps(g, n, sources, slack, u, rank, x, d, k - 1, t);
    }
  }

  // ---------- one turn ----------

  /** q is queue without one occurrence of the entry e. */
  ghost predicate Removes(queue: seq<Entry>, q: seq<Entry>, e: Entry) {
    && |q| < |queue|
    && (forall f :: f in queue && f != e ==> f in q)
    && (forall f :: f in q ==> f in queue && !Less(f, e))
  }

  lemma PopRemoves(s: Search)
    requires s.queue != []
    ensures Removes(s.queue, Pop(s).queue, s.queue[Least(s.queue)])
  {
  }

  /** The heap still serves once the least entry is gone and its node, if current, settled. */
  lemma PopHeap(dist: Dist, queue: seq<Entry>, q: seq<Entry>, rank: Rank, rank': Rank, d: real, x: nat)
    requires Heap(dist, queue, rank) && Removes(queue, q, (d, x)) && x in dist
    requires (rank' == rank && (x in rank || d > dist[x])) || (rank'.Keys == rank.Keys + {x} && d == dist[x])
    ensures Heap(dist, q, rank')
  {
    forall j | 0 <= j < |q| ensures q[j] in queue && q[j].0 >= d {
      assert q[j] in q;
      assert !Less(q[j], (d, x));
    }
    forall v, i | v in rank' && v in dist && 0 <= i < |q| ensures dist[v] <= q[i].0 {
      assert q[i] in queue;
    }
  }

  lemma PopFacts(g: Edges, n: nat, sources: seq<nat>, slack: real, s: Search, rank: Rank)
    requires Inv(g, n, sources, slack, s, rank) && s.queue != []
    ensures var (d, x) := s.queue[Least(s.queue)]; x in s.dist && d >= 0.0 && forall v :: v in rank ==> v in s.dist
  {
    assert s.queue[Least(s.queue)] in s.queue;
  }

  /** Settling the popped node opens its edge loop. */
  lemma Settle(g: Edges, n: nat, sources: seq<nat>, slack: real, s: Search, rank: Rank, d: real, x: nat)
    requires Inv(g, n, sources, slack, s, rank) && s.queue != []
    requires s.queue[Least(s.queue)] == (d, x) && x !in rank && d == s.dist[x]
    ensures Midway(g, n, sources, slack, s.dist, s.prev, Pop(s).queue, rank[x := |rank|], x, d, 0)
  {
    hide Tree, Heap, Relaxed, AllBelow, Removes, Pop, Least, Out;
    PopFacts(g, n, sources, slack, s, rank);
    PopRemoves(s);
    var rank' := rank[x := |rank|];
    SettleTree(g, n, sources, s.dist, s.prev, rank, x);
    PopHeap(s.dist, s.queue, Pop(s).queue, rank, rank', d, x);
    SettleBelow(s.dist, s.queue, rank, d, x, Least(s.queue));
    SettleRelaxed(g, n, sources, slack, s.dist, s.prev, rank, x);
  }

  lemma SettleTree(g: Edges, n: nat, sources: seq<nat>, dist: Dist, prev: Prev, rank: Rank, x: nat)
    requires Tree(g, n, sources, dist, prev, rank) && x in dist && x !in rank
    ensures Tree(g, n, sources, dist, prev, rank[x := |rank|])
  {
  }

  lemma SettleBelow(dist: Dist, queue: seq<Entry>, rank: Rank, d: real, x: nat, i: nat)
    requires Heap(dist, queue, rank) && i < |queue| && queue[i] == (d, x) && dist[x] == d && d >= 0.0
    requires forall v :: v in rank ==> v in dist
    ensures AllBelow(dist, rank[x := |rank|], x, d)
  {
  }

  lemma SettleRelaxed(g: Edges, n: nat, sources: seq<nat>, slack: real, dist: Dist, prev: Prev, rank: Rank, x: nat)
    requires Relaxed(g, slack, dist, rank, n, 0) && Tree(g, n, sources, dist, prev, rank)
    ensures Relaxed(g, slack, dist, rank[x := |rank|], x, 0)
  {
  }

  /** Popping a settled node's entry a second time changes no distance. */
  lemma {:induction false} Resettle(g: Edges, n: nat, slack: real, s: Search, rank: Rank, d: real, x: nat, k: nat)
    requires Relaxed(g, slack, s.dist, rank, n, 0) && x in rank && x in s.dist && s.dist[x] == d && x < n
    requires k <= |Out(g, x)|
    ensures RelaxFirst(Out(g, x), k, x, d, slack, s) == s
  {
    if k > 0 {
      Resettle(g, n, slack, s, rank, d, x, k - 1);
      assert Settled(s.dist, Out(g, x)[k - 1], d, slack);
    }
  }

  lemma AllRelaxed(g: Edges, slack: real, dist: Dist, rank: Rank, x: nat, n: nat)
    requires Relaxed(g, slack, dist, rank, x, |Out(g, x)|)
    ensures Relaxed(g, slack, dist, rank, n, 0)
  {
  }

  /** Every turn keeps the invariant; it settles a new node or leaves fewer entries. */
  lemma TurnKeeps(g: Edges, n: nat, sources: seq<nat>, slack: real, s: Search, rank: Rank) returns (rank': Rank)
    requires GoodEdges(g, n) && slack >= 0.0 && Inv(g, n, sources, slack, s, rank) && s.queue != []
    ensures Inv(g, n, sources, slack, Turn(g, slack, s), rank')
    ensures rank.Keys < rank'.Keys || (rank' == rank && |Turn(g, slack, s).queue| < |s.queue|)
  {
    var (d, x) := s.queue[Least(s.queue)];
    var t := Turn(g, slack, s);
    PopRemoves(s);
    assert x in s.dist && s.dist[x] <= d && x < n;
    if d > s.dist[x] || x in rank {
      rank' := rank;
      PopHeap(s.dist, s.queue, Pop(s).queue, rank, rank, d, x);
      if d == s.dist[x] {
        Resettle(g, n, slack, Pop(s), rank, d, x, |Out(g, x)|);
      }
      assert t == Pop(s);
    } else {
      rank' := rank[x := |rank|];
      Settle(g, n, sources, slack, s, rank, d, x);
      RelaxFirstKeeps(g, n, sources, slack, Pop(s), rank', x, d, |Out(g, x)|, t);
      AllRelaxed(g, slack, t.dist, rank', x, n);
      assert x in rank';
    }
  }

  // ---------- the whole search ----------

  ghost function Below(n: nat): (s: set<nat>)
    ensures |s| == n && forall v: nat :: v in s <==> v < n
  {
    if n == 0 then {} else Below(n - 1) + {n - 1}
  }

  lemma SettledBelow(g: Edges, n: nat, sources: seq<nat>, slack: real, s: Search, rank: Rank)
    requires Inv(g, n, sources, slack, s, rank)
    ensures rank.Keys <= Below(n) && |rank| <= n
  {
    Sets.Fits(rank.Keys, Below(n));
  }

  /** The edge loop of one turn. */
  method RelaxOut(out: seq<Edge>, x: nat, d: real, slack: real, dist0: Dist, prev0: Prev, q0: seq<Entry>)
    returns (dist: Dist, prev: Prev, q: seq<Entry>)
    ensures Search(dist, prev, q) == RelaxFirst(out, |out|, x, d, slack, Search(dist0, prev0, q0))
  {
    dist, prev, q := dist0, prev0, q0;
    var j := 0;
    while j < |out|
      invariant 0 <= j <= |out|
      invariant Search(dist, prev, q) == RelaxFirst(out, j, x, d, slack, Search(dist0, prev0, q0))
    {
      var e := out[j];
      var nd := d + e.weight;
      if e.to !in dist || nd < dist[e.to] - slack {
        dist := dist[e.to := nd];
        prev := prev[e.to := x];
        q := q + [(nd, e.to)];
      }
      j := j + 1;
    }
  }

  /** One pop of the heap: a stale entry is dropped, any other relaxes its node's edges. */
  method TakeTurn(g: Edges, slack: real, dist0: Dist, prev0: Prev, q0: seq<Entry>)
    returns (dist: Dist, prev: Prev, q: seq<Entry>)
    requires q0 != []
    ensures Search(dist, prev, q) == Turn(g, slack, Search(dist0, prev0, q0))
  {
    dist, prev := dist0, prev0;
    var i := Least(q0);
    var (d, x) := q0[i];
    q := q0[..i] + q0[i + 1..];
    assert Search(dist, prev, q) == Pop(Search(dist0, prev0, q0));
    if x in dist && d > dist[x] {
      return;
    }
    dist, prev, q := RelaxOut(Out(g, x), x, d, slack, dist, prev, q);
  }

  /** _dijkstra. */
  method Run(g: Edges, n: nat, sources: seq<nat>, slack: real) returns (dist: Dist, prev: Prev)
    requires GoodEdges(g, n) && slack >= 0.0 && forall v :: v in sources ==> v < n
    ensures IsSearch(g, sources, slack, dist, prev)
  {
    var s0 := Begin(sources);
    dist, prev := s0.dist, s0.prev;
    var q := s0.queue;
    ghost var turns, rank := 0, map[];
    BeginInv(g, n, sources, slack);
    hide Inv, Begin, Turn, GoodEdges;
    while q != []
      invariant Search(dist, prev, q) == Turns(g, slack, Begin(sources), turns)
      invariant Inv(g, n, sources, slack, Search(dist, prev, q), rank)
      decreases Below(n) - rank.Keys, |q|
    {
      ghost var s := Search(dist, prev, q);
      ghost var rank' := TurnKeeps(g, n, sources, slack, s, rank);
      SettledBelow(g, n, sources, slack, Turn(g, slack, s), rank');
      dist, prev, q := TakeTurn(g, slack, dist, prev, q);
      turns := turns + 1;
      rank := rank';
    }
  }

  lemma {:induction false} TurnsKeep(g: Edges, n: nat, sources: seq<nat>, slack: real, k: nat) returns (rank: Rank)
    requires GoodEdges(g, n) && slack >= 0.0 && forall v :: v in sources ==> v < n
    ensures Inv(g, n, sources, slack, Turns(g, slack, Begin(sources), k), rank)
  {
    hide Inv, Begin, Turn;
    if k == 0 {
      rank := map[];
      BeginInv(g, n, sources, slack);
    } else {
      rank := TurnsKeep(g, n, sources, slack, k - 1);
      var s := Turns(g, slack, Begin(sources), k - 1);
      if s.queue == [] {
        TurnsStay(g, slack, Begin(sources), k - 1, k);
      } else {
        rank := TurnKeeps(g, n, sources, slack, s, rank);
      }
    }
  }

  /** When the search ends, every node it reached has been settled. */
  lemma Ended(g: Edges, n: nat, sources: seq<nat>, slack: real, dist: Dist, prev: Prev) returns (rank: Rank)
    requires GoodEdges(g, n) && slack >= 0.0 && forall v :: v in sources ==> v < n
    requires IsSearch(g, sources, slack, dist, prev)
    ensures Tree(g, n, sources, dist, prev, rank) && Relaxed(g, slack, dist, rank, n, 0)
    ensures rank.Keys == dist.Keys && |rank| <= n
  {
    var k: nat :| Turns(g, slack, Begin(sources), k) == Search(dist, prev, []);
    rank := TurnsKeep(g, n, sources, slack, k);
    SettledBelow(g, n, sources, slack, Search(dist, prev, []), rank);
  }

  /** What the slack may add up to over k hops. */
  ghost function SlackOver(k: nat, slack: real): (d: real) {
    k as real * slack
  }

  lemma OneMoreHop(k: nat, slack: real)
    ensures SlackOver(k + 1, slack) == SlackOver(k, slack) + slack
  {
  }

  lemma NoHops(slack: real)
    ensures SlackOver(0, slack) == 0.0
  {
  }

  lemma {:induction false} RelaxedBoundsWalk(g: Edges, n: nat, sources: seq<nat>, slack: real, dist: Dist, prev: Prev, rank: Rank, w: Walk)
    requires Tree(g, n, sources, dist, prev, rank) && Relaxed(g, slack, dist, rank, n, 0)
    requires rank.Keys == dist.Keys && IsWalk(g, sources, w)
    ensures End(w) in dist && dist[End(w)] <= Weight(w) + SlackOver(Hops(w), slack)
  {
    hide SlackOver, Leads;
    match w
    case At(s) =>
      NoHops(slack);
    case Then(u, e) =>
      RelaxedBoundsWalk(g, n, sources, slack, dist, prev, rank, u);
      var i: nat :| i < |Out(g, End(u))| && Out(g, End(u))[i] == e;
      assert Settled(dist, Out(g, End(u))[i], dist[End(u)], slack);
      OneMoreHop(Hops(u), slack);
  }

  /** No walk from a source beats the distance found by more than the slack times its hops. */
  lemma WalkBound(g: Edges, n: nat, sources: seq<nat>, slack: real, dist: Dist, prev: Prev, w: Walk)
    requires GoodEdges(g, n) && slack >= 0.0 && forall v :: v in sources ==> v < n
    requires IsSearch(g, sources, slack, dist, prev) && IsWalk(g, sources, w)
    ensures End(w) in dist && dist[End(w)] <= Weight(w) + SlackOver(Hops(w), slack)
  {
    hide Tree, Relaxed;
    var rank := Ended(g, n, sources, slack, dist, prev);
    RelaxedBoundsWalk(g, n, sources, slack, dist, prev, rank, w);
  }

  /** The walk back along the predecessors of v, from a source. */
  lemma {:induction false} TreeWalk(g: Edges, n: nat, sources: seq<nat>, dist: Dist, prev: Prev, rank: Rank, v: nat) returns (w: Walk)
    requires Tree(g, n, sources, dist, prev, rank) && rank.Keys == dist.Keys && v in dist
    ensures IsWalk(g, sources, w) && End(w) == v && Weight(w) == dist[v] && Hops(w) <= rank[v]
    decreases rank[v]
  {
    if v in prev {
      var p := prev[v];
      var e := Predecessor(g, n, sources, dist, prev, rank, v);
      hide Tree;
      var u := TreeWalk(g, n, sources, dist, prev, rank, p);
      w := Then(u, e);
    } else {
      w := At(v);
    }
  }

  /** The edge by which v was last improved. */
  lemma Predecessor(g: Edges, n: nat, sources: seq<nat>, dist: Dist, prev: Prev, rank: Rank, v: nat) returns (e: Edge)
    requires Tree(g, n, sources, dist, prev, rank) && rank.Keys == dist.Keys && v in prev
    ensures v in dist && prev[v] in dist && rank[prev[v]] < rank[v]
    ensures e in Out(g, prev[v]) && e.to == v && dist[v] == dist[prev[v]] + e.weight
  {
    var p := prev[v];
    assert Leads(g, p, dist[p], v, dist[v]);
    var i: nat :| i < |Out(g, p)| && Out(g, p)[i].to == v && dist[v] == dist[p] + Out(g, p)[i].weight;
    e := Out(g, p)[i];
  }

  ghost predicate Reached(g: Edges, sources: seq<nat>, v: nat, w: Walk) {
    IsWalk(g, sources, w) && End(w) == v
  }

  /** The walk w has the distance found for its end, in fewer than n hops. */
  ghost predicate Witnesses(g: Edges, n: nat, sources: seq<nat>, dist: Dist, v: nat, w: Walk) {
    Reached(g, sources, v, w) && v in dist && Weight(w) == dist[v] && Hops(w) < n
  }

  /** Each distance found is that of a real walk of fewer than n hops. */
  lemma DistanceIsWalked(g: Edges, n: nat, sources: seq<nat>, slack: real, dist: Dist, prev: Prev, v: nat) returns (w: Walk)
    requires GoodEdges(g, n) && slack >= 0.0 && forall v :: v in sources ==> v < n
    requires IsSearch(g, sources, slack, dist, prev) && v in dist
    ensures Witnesses(g, n, sources, dist, v, w)
  {
    var rank := Ended(g, n, sources, slack, dist, prev);
    w := TreeWalk(g, n, sources, dist, prev, rank, v);
  }

  /** The search reaches exactly the nodes that can be reached from a source. */
  lemma ReachesExactly(g: Edges, n: nat, sources: seq<nat>, slack: real, dist: Dist, prev: Prev, v: nat)
    requires GoodEdges(g, n) && slack >= 0.0 && forall v :: v in sources ==> v < n
    requires IsSearch(g, sources, slack, dist, prev)
    ensures v in dist <==> exists w :: Reached(g, sources, v, w)
  {
    hide IsSearch;
    if v in dist {
      var w := DistanceIsWalked(g, n, sources, slack, dist, prev, v);
    }
    if w :| Reached(g, sources, v, w) {
      WalkBound(g, n, sources, slack, dist, prev, w);
    }
  }

  /** Without slack the distances are the true minima. */
  lemma ExactWithoutSlack(g: Edges, n: nat, sources: seq<nat>, dist: Dist, prev: Prev, w: Walk)
    requires GoodEdges(g, n) && forall v :: v in sources ==> v < n
    requires IsSearch(g, sources, 0.0, dist, prev) && IsWalk(g, sources, w)
    ensures End(w) in dist && dist[End(w)] <= Weight(w)
  {
    WalkBound(g, n, sources, 0.0, dist, prev, w);
  }
}
