/** A search around a ring of six nodes that keeps the way round it met first
    (worker/emi_worker/topology.py). */
module Laps {
  import opened Dijkstra

  /** A ring of tracks: the start, two nodes on the way that is met first, the end, and two nodes on
      the other way, back to the start; and the lengths between them, in that order. */
  datatype Lap = Lap(s: nat, n: nat, m: nat, z: nat, f: nat, e: nat, p: real, q: real, r: real, x: real, y: real, u: real)

  function Stretch(to: nat, weight: real): (e: Edge) {
    Edge(to, weight, "F.Cu", false)
  }

  ghost predicate Distinct(lap: Lap) {
    && lap.s !in {lap.n, lap.m, lap.z, lap.f, lap.e} && lap.n !in {lap.m, lap.z, lap.f, lap.e}
    && lap.m !in {lap.z, lap.f, lap.e} && lap.z !in {lap.f, lap.e} && lap.f != lap.e
  }

  /** What leads from each node of the ring. */
  ghost predicate Lies(g: Edges, lap: Lap) {
    && Out(g, lap.s) == [Stretch(lap.n, lap.p), Stretch(lap.e, lap.u)]
    && Out(g, lap.n) == [Stretch(lap.s, lap.p), Stretch(lap.m, lap.q)]
    && Out(g, lap.m) == [Stretch(lap.n, lap.q), Stretch(lap.z, lap.r)]
    && Out(g, lap.e) == [Stretch(lap.f, lap.y), Stretch(lap.s, lap.u)]
    && Out(g, lap.f) == [Stretch(lap.z, lap.x), Stretch(lap.e, lap.y)]
    && Out(g, lap.z) == [Stretch(lap.f, lap.x), Stretch(lap.m, lap.r)]
  }

  /** The end is met by the first way, and the other is not shorter by more than the slack. */
  ghost predicate FirstWayKept(lap: Lap, slack: real) {
    && slack > 0.0 && lap.p > 0.0 && lap.q > 0.0 && lap.r > 0.0 && lap.x > 0.0 && lap.y > 0.0
    && lap.p + lap.q < lap.u && lap.u + lap.y < lap.p + lap.q + lap.r
    && lap.u + lap.y + lap.x >= lap.p + lap.q + lap.r - slack
  }

  function FirstWay(lap: Lap): (w: real) {
    lap.p + lap.q + lap.r
  }

  /** The states of the search. */
  function StateAt(lap: Lap, k: nat): (s: Search) {
    var d1, p1 := map[lap.s := 0.0, lap.n := lap.p, lap.e := lap.u], map[lap.n := lap.s, lap.e := lap.s];
    var d2, p2 := d1[lap.m := lap.p + lap.q], p1[lap.m := lap.n];
    var d3, p3 := d2[lap.z := FirstWay(lap)], p2[lap.z := lap.m];
    var d4, p4 := d3[lap.f := lap.u + lap.y], p3[lap.f := lap.e];
    if k == 0 then Search(map[lap.s := 0.0], map[], [(0.0, lap.s)])
    else if k == 1 then Search(d1, p1, [(lap.p, lap.n), (lap.u, lap.e)])
    else if k == 2 then Search(d2, p2, [(lap.u, lap.e), (lap.p + lap.q, lap.m)])
    else if k == 3 then Search(d3, p3, [(lap.u, lap.e), (FirstWay(lap), lap.z)])
    else if k == 4 then Search(d4, p4, [(FirstWay(lap), lap.z), (lap.u + lap.y, lap.f)])
    else if k == 5 then Search(d4, p4, [(FirstWay(lap), lap.z)])
    else Search(d4, p4, [])
  }

  /** A turn at a node with two edges, when entry i of the queue comes before every other. */
  lemma TurnAtTwo(g: Edges, slack: real, s: Search, i: nat, d: real, x: nat, e: Edge, f: Edge)
    requires i < |s.queue| && s.queue[i] == (d, x) && x in s.dist && s.dist[x] == d
    requires forall j :: 0 <= j < |s.queue| && j != i ==> Less(s.queue[i], s.queue[j])
    requires Out(g, x) == [e, f]
    ensures Turn(g, slack, s) == Relax(f, x, d, slack, Relax(e, x, d, slack, Search(s.dist, s.prev, s.queue[..i] + s.queue[i + 1..])))
  {
    assert Least(s.queue) == i;
    var es := Out(g, x);
    assert RelaxFirst(es, 2, x, d, slack, Pop(s)) == Relax(es[1], x, d, slack, RelaxFirst(es, 1, x, d, slack, Pop(s)));
    assert RelaxFirst(es, 1, x, d, slack, Pop(s)) == Relax(es[0], x, d, slack, RelaxFirst(es, 0, x, d, slack, Pop(s)));
  }

  lemma Starts(g: Edges, lap: Lap, slack: real)
    requires Distinct(lap) && Lies(g, lap) && FirstWayKept(lap, slack)
    ensures Turn(g, slack, StateAt(lap, 0)) == StateAt(lap, 1)
  {
    hide Turn, Out;
    TurnAtTwo(g, slack, StateAt(lap, 0), 0, 0.0, lap.s, Stretch(lap.n, lap.p), Stretch(lap.e, lap.u));
  }

  lemma GoesOn(g: Edges, lap: Lap, slack: real)
    requires Distinct(lap) && Lies(g, lap) && FirstWayKept(lap, slack)
    ensures Turn(g, slack, StateAt(lap, 1)) == StateAt(lap, 2)
  {
    hide Turn, Out;
    TurnAtTwo(g, slack, StateAt(lap, 1), 0, lap.p, lap.n, Stretch(lap.s, lap.p), Stretch(lap.m, lap.q));
  }

  lemma Arrives(g: Edges, lap: Lap, slack: real)
    requires Distinct(lap) && Lies(g, lap) && FirstWayKept(lap, slack)
    ensures Turn(g, slack, StateAt(lap, 2)) == StateAt(lap, 3)
  {
    hide Turn, Out;
    TurnAtTwo(g, slack, StateAt(lap, 2), 1, lap.p + lap.q, lap.m, Stretch(lap.n, lap.q), Stretch(lap.z, lap.r));
  }

  lemma TurnsBack(g: Edges, lap: Lap, slack: real)
    requires Distinct(lap) && Lies(g, lap) && FirstWayKept(lap, slack)
    ensures Turn(g, slack, StateAt(lap, 3)) == StateAt(lap, 4)
  {
    hide Turn, Out;
    TurnAtTwo(g, slack, StateAt(lap, 3), 0, lap.u, lap.e, Stretch(lap.f, lap.y), Stretch(lap.s, lap.u));
  }

  lemma MeetsAgain(g: Edges, lap: Lap, slack: real)
    requires Distinct(lap) && Lies(g, lap) && FirstWayKept(lap, slack)
    ensures Turn(g, slack, StateAt(lap, 4)) == StateAt(lap, 5)
  {
    hide Turn, Out;
    TurnAtTwo(g, slack, StateAt(lap, 4), 1, lap.u + lap.y, lap.f, Stretch(lap.z, lap.x), Stretch(lap.e, lap.y));
  }

  lemma Ends(g: Edges, lap: Lap, slack: real)
    requires Distinct(lap) && Lies(g, lap) && FirstWayKept(lap, slack)
    ensures Turn(g, slack, StateAt(lap, 5)) == StateAt(lap, 6)
  {
    hide Turn, Out;
    TurnAtTwo(g, slack, StateAt(lap, 5), 0, FirstWay(lap), lap.z, Stretch(lap.f, lap.x), Stretch(lap.m, lap.r));
  }

  /** The search from the start finds the end by the first way. */
  lemma KeepsFirstWay(g: Edges, lap: Lap, slack: real) returns (dist: Dist, prev: Prev)
    requires Distinct(lap) && Lies(g, lap) && FirstWayKept(lap, slack)
    ensures IsSearch(g, [lap.s], slack, dist, prev) && lap.z in dist && dist[lap.z] == FirstWay(lap)
  {
    Starts(g, lap, slack);
    GoesOn(g, lap, slack);
    Arrives(g, lap, slack);
    TurnsBack(g, lap, slack);
    MeetsAgain(g, lap, slack);
    Ends(g, lap, slack);
    Found(lap);
    hide Turn, StateAt, Lies, Distinct, FirstWayKept;
    var b := Begin([lap.s]);
    assert b == StateAt(lap, 0);
    assert Turns(g, slack, b, 0) == b;
    assert Turns(g, slack, b, 1) == StateAt(lap, 1);
    assert Turns(g, slack, b, 2) == StateAt(lap, 2);
    assert Turns(g, slack, b, 3) == StateAt(lap, 3);
    assert Turns(g, slack, b, 4) == StateAt(lap, 4);
    assert Turns(g, slack, b, 5) == StateAt(lap, 5);
    assert Turns(g, slack, b, 6) == StateAt(lap, 6);
    dist, prev := StateAt(lap, 6).dist, StateAt(lap, 6).prev;
  }

  lemma Found(lap: Lap)
    requires Distinct(lap)
    ensures Begin([lap.s]) == StateAt(lap, 0) && StateAt(lap, 6).queue == []
    ensures lap.z in StateAt(lap, 6).dist && StateAt(lap, 6).dist[lap.z] == FirstWay(lap)
  {
    assert Begin([lap.s]).queue == [(0.0, lap.s)];
  }
}
