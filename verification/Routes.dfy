/** What a path between two pads promises, and that it promises the same from either end
    (worker/emi_worker/topology.py). */
module Routes {
  import opened Options
  import opened Dijkstra
  import opened Traces
  import Graphs

  // ---------- walking the other way ----------

  /** The edge w followed by e, all walked backwards, e first. */
  ghost function Extended(w: Walk, tail: Walk): (r: Walk)
    decreases tail
  {
    match tail
    case At(_) => w
    case Then(u, e) => Then(Extended(w, u), e)
  }

  ghost function Reversed(w: Walk): (r: Walk) {
    match w
    case At(s) => At(s)
    case Then(u, e) => Extended(Then(At(e.to), Graphs.Back(End(u), e)), Reversed(u))
  }

  lemma {:induction false} ExtendedIsWalk(g: Edges, sources: seq<nat>, w: Walk, tail: Walk)
    requires IsWalk(g, sources, w) && IsWalk(g, [Start(tail)], tail) && End(w) == Start(tail)
    ensures var r := Extended(w, tail);
      && IsWalk(g, sources, r) && End(r) == End(tail)
      && Weight(r) == Weight(w) + Weight(tail) && Hops(r) == Hops(w) + Hops(tail)
    decreases tail
  {
    match tail
    case At(_) =>
    case Then(u, e) => ExtendedIsWalk(g, sources, w, u);
  }

  lemma {:induction false} WalkStarts(g: Edges, sources: seq<nat>, w: Walk)
    requires IsWalk(g, sources, w)
    ensures Start(w) in sources && IsWalk(g, [Start(w)], w)
  {
    match w
    case At(_) =>
    case Then(u, _) => WalkStarts(g, sources, u);
  }

  /** A walk backwards is a walk of the same weight and hops, between the same ends. */
  lemma {:induction false} ReversedIsWalk(g: Edges, sources: seq<nat>, w: Walk)
    requires Graphs.TwoWay(g) && IsWalk(g, sources, w)
    ensures var r := Reversed(w);
      && IsWalk(g, [End(w)], r) && Start(r) == End(w) && End(r) == Start(w)
      && Weight(r) == Weight(w) && Hops(r) == Hops(w)
  {
    match w
    case At(_) =>
    case Then(u, e) =>
      ReversedIsWalk(g, sources, u);
      var first := Then(At(e.to), Graphs.Back(End(u), e));
      assert e in Out(g, End(u));
      assert Graphs.Back(End(u), e) in Out(g, e.to);
      assert IsWalk(g, [e.to], At(e.to));
      assert IsWalk(g, [e.to], first);
      ExtendedIsWalk(g, [e.to], first, Reversed(u));
      WalkStarts(g, [e.to], Reversed(w));
  }

  // ---------- routes between two sets of nodes ----------

  ghost predicate Joins(g: Edges, from: seq<nat>, to: seq<nat>, w: Walk) {
    IsWalk(g, from, w) && End(w) in to
  }

  lemma JoinsBack(g: Edges, from: seq<nat>, to: seq<nat>, w: Walk)
    requires Graphs.TwoWay(g) && Joins(g, from, to, w)
    ensures var r := Reversed(w); Joins(g, to, from, r) && Weight(r) == Weight(w) && Hops(r) == Hops(w)
  {
    ReversedIsWalk(g, from, w);
    WalkStarts(g, from, w);
    Rooted(g, to, Reversed(w));
  }

  lemma {:induction false} Rooted(g: Edges, to: seq<nat>, w: Walk)
    requires IsWalk(g, [Start(w)], w) && Start(w) in to
    ensures IsWalk(g, to, w)
  {
    match w
    case At(_) =>
    case Then(u, _) => Rooted(g, to, u);
  }

  ghost predicate NoRoute(g: Edges, from: seq<nat>, to: seq<nat>) {
    forall w :: !Joins(g, from, to, w)
  }

  lemma NoRouteBack(g: Edges, from: seq<nat>, to: seq<nat>)
    requires Graphs.TwoWay(g) && NoRoute(g, from, to)
    ensures NoRoute(g, to, from)
  {
    forall w ensures !Joins(g, to, from, w) {
      if Joins(g, to, from, w) {
        JoinsBack(g, to, from, w);
      }
    }
  }

  /** The path is a real route between the node sets, reported as walked, has the length of one of
      fewer than n hops, and is longer than no route by more than the slack for each of its hops. */
  ghost predicate Between(g: Edges, n: nat, slack: real, from: seq<nat>, to: seq<nat>, p: Path) {
    && (exists w :: Joins(g, from, to, w) && Reports(p, w))
    && (exists w :: Measures(g, n, from, to, w, p.Length()))
    && (forall w :: Joins(g, from, to, w) ==> p.Length() <= Weight(w) + SlackOver(Hops(w), slack))
  }

  ghost predicate Measures(g: Edges, n: nat, from: seq<nat>, to: seq<nat>, w: Walk, length: real) {
    Joins(g, from, to, w) && Weight(w) == length && Hops(w) < n
  }

  lemma SlackGrows(k: nat, n: nat, slack: real)
    requires k <= n && slack >= 0.0
    ensures SlackOver(k, slack) <= SlackOver(n, slack)
  {
  }

  /** Two searches for one pair of pads, from the same end or from opposite ends, find lengths
      that differ by no more than the slack over n hops. */
  lemma NoLonger(g: Edges, n: nat, slack: real, from: seq<nat>, to: seq<nat>, p: Path, q: Path)
    requires Graphs.TwoWay(g) && slack >= 0.0
    requires Between(g, n, slack, from, to, p)
    requires Between(g, n, slack, from, to, q) || Between(g, n, slack, to, from, q)
    ensures q.Length() <= p.Length() + SlackOver(n, slack)
  {
    var w :| Measures(g, n, from, to, w, p.Length());
    JoinsBack(g, from, to, w);
    SlackGrows(Hops(w), n, slack);
    hide SlackOver, Joins, Reports;
    if Between(g, n, slack, from, to, q) {
      assert q.Length() <= Weight(w) + SlackOver(Hops(w), slack);
    } else {
      assert q.Length() <= Weight(Reversed(w)) + SlackOver(Hops(w), slack);
    }
  }

  // ---------- what asking for a path answers ----------

  type AnchorMap = map<string, seq<nat>>

  /** The stored path names its two pads and is a route between their anchors. */
  ghost predicate PathFits(g: Edges, n: nat, slack: real, anchors: AnchorMap, p: Path) {
    p.from in anchors && p.to in anchors && Between(g, n, slack, anchors[p.from], anchors[p.to], p)
  }

  /** A right answer for pads a and b: a path between them, found from either end, or none
      because they are not both anchored or nothing joins them. */
  ghost predicate Answers(g: Edges, n: nat, slack: real, anchors: AnchorMap, a: string, b: string, r: Option<Path>) {
    match r
    case Some(p) => PathFits(g, n, slack, anchors, p) && ((p.from == a && p.to == b) || (p.from == b && p.to == a))
    case None => a in anchors && b in anchors ==> NoRoute(g, anchors[a], anchors[b])
  }

  lemma FoundMeansJoined(g: Edges, n: nat, slack: real, from: seq<nat>, to: seq<nat>, p: Path)
    requires Graphs.TwoWay(g) && Between(g, n, slack, from, to, p)
    ensures !NoRoute(g, from, to) && !NoRoute(g, to, from)
  {
    if NoRoute(g, to, from) {
      NoRouteBack(g, to, from);
    }
  }

  /** There is a path exactly when both pads are anchored and some walk joins their anchors. */
  lemma AnswersExactly(g: Edges, n: nat, slack: real, anchors: AnchorMap, a: string, b: string, r: Option<Path>)
    requires Graphs.TwoWay(g) && Answers(g, n, slack, anchors, a, b, r)
    ensures r.Some? <==> a in anchors && b in anchors && exists w :: Joins(g, anchors[a], anchors[b], w)
  {
    hide Between, Joins;
    if r.Some? {
      FoundMeansJoined(g, n, slack, anchors[r.value.from], anchors[r.value.to], r.value);
    }
  }

  /** Whatever answers for (a, b) and (b, a), eager or lazy, cached or fresh: either both give a
      path or neither does, and the lengths differ by no more than the slack over n hops; with no
      slack they are the same. */
  lemma AnswersAgree(g: Edges, n: nat, slack: real, anchors: AnchorMap, a: string, b: string, r: Option<Path>, r': Option<Path>)
    requires Graphs.TwoWay(g) && slack >= 0.0
    requires Answers(g, n, slack, anchors, a, b, r)
    requires Answers(g, n, slack, anchors, a, b, r') || Answers(g, n, slack, anchors, b, a, r')
    ensures r.Some? <==> r'.Some?
    ensures r.Some? ==> -SlackOver(n, slack) <= r.value.Length() - r'.value.Length() <= SlackOver(n, slack)
    ensures r.Some? && slack == 0.0 ==> r.value.Length() == r'.value.Length()
  {
    SameExistence(g, n, slack, anchors, a, b, r, r');
    NoHopsCost(n, slack);
    hide Between, NoRoute, SlackOver, Graphs.TwoWay, Path.Length;
    if r.Some? {
      var p, q := r.value, r'.value;
      NoLonger(g, n, slack, anchors[p.from], anchors[p.to], p, q);
      NoLonger(g, n, slack, anchors[q.from], anchors[q.to], q, p);
    }
  }

  /** Any two routes of fewer than n hops that differ in weight differ by more than the slack over n
      hops. */
  ghost predicate GapOver(g: Edges, n: nat, slack: real, from: seq<nat>, to: seq<nat>) {
    forall w, v :: Joins(g, from, to, w) && Joins(g, from, to, v) && Hops(w) < n && Hops(v) < n && Weight(w) != Weight(v) ==>
      Weight(w) - Weight(v) > SlackOver(n, slack) || Weight(v) - Weight(w) > SlackOver(n, slack)
  }

  /** A stored path has the length of a route from a to b, whichever end it was found from. */
  lemma RouteFor(g: Edges, n: nat, slack: real, anchors: AnchorMap, a: string, b: string, p: Path) returns (w: Walk)
    requires Graphs.TwoWay(g) && a in anchors && b in anchors && PathFits(g, n, slack, anchors, p)
    requires (p.from == a && p.to == b) || (p.from == b && p.to == a)
    ensures Measures(g, n, anchors[a], anchors[b], w, p.Length())
  {
    hide Graphs.TwoWay, Reports, Path.Length, Joins, SlackOver;
    w :| Measures(g, n, anchors[p.from], anchors[p.to], w, p.Length());
    if p.from != a {
      JoinsBack(g, anchors[p.from], anchors[p.to], w);
      w := Reversed(w);
    }
  }

  /** Whatever the slack, the answers for two pads have one length where no two routes between them come
      as close as the slack over n hops without being equal. */
  lemma AnswersAgreeOverGap(g: Edges, n: nat, slack: real, anchors: AnchorMap, a: string, b: string, r: Option<Path>, r': Option<Path>)
    requires Graphs.TwoWay(g) && slack >= 0.0 && r.Some?
    requires Answers(g, n, slack, anchors, a, b, r)
    requires Answers(g, n, slack, anchors, a, b, r') || Answers(g, n, slack, anchors, b, a, r')
    requires a in anchors && b in anchors && GapOver(g, n, slack, anchors[a], anchors[b])
    ensures r'.Some? && r'.value.Length() == r.value.Length()
  {
    hide Between, NoRoute, SlackOver, Graphs.TwoWay, Path.Length, Joins;
    AnswersAgree(g, n, slack, anchors, a, b, r, r');
    var w := RouteFor(g, n, slack, anchors, a, b, r.value);
    var v := RouteFor(g, n, slack, anchors, a, b, r'.value);
  }

  lemma NoHopsCost(n: nat, slack: real)
    ensures slack == 0.0 ==> SlackOver(n, slack) == 0.0
  {
  }

  lemma SameExistence(g: Edges, n: nat, slack: real, anchors: AnchorMap, a: string, b: string, r: Option<Path>, r': Option<Path>)
    requires Graphs.TwoWay(g)
    requires Answers(g, n, slack, anchors, a, b, r)
    requires Answers(g, n, slack, anchors, a, b, r') || Answers(g, n, slack, anchors, b, a, r')
    ensures r.Some? <==> r'.Some?
  {
    hide Between, NoRoute;
    if r.Some? {
      FoundMeansJoined(g, n, slack, anchors[r.value.from], anchors[r.value.to], r.value);
    }
    if r'.Some? {
      FoundMeansJoined(g, n, slack, anchors[r'.value.from], anchors[r'.value.to], r'.value);
    }
  }
}
