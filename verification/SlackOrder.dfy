/** Whether the length found between two nodes can depend on the end it is searched from: below the
    slack a search keeps what it met first, and which route that is depends on where it starts
    (worker/emi_worker/topology.py). */
module SlackOrder {
  import opened Geometry
  import opened Dijkstra
  import opened Graphs
  import opened Build
  import opened Laps
  import Numbers
  import Attach
  import Routes

  // ---------- a board with two routes ----------

  /** How far the tracks run: further than the tolerance and than the slack. */
  function Unit(tol: real, slack: real): (l: real) {
    tol + slack
  }

  /** Six places around two routes from place 0 to place 3: by 1 and 2, twelve units and three
      quarters of a slack, and by 5 and 4, twelve units. */
  function Corner(i: nat, l: real, t: real): (p: Point) {
    if i == 0 then (0.0, 0.0)
    else if i == 1 then (-l - 0.375 * t, 0.0)
    else if i == 2 then (-l - 0.375 * t, 2.0 * l)
    else if i == 3 then (8.0 * l, 2.0 * l)
    else if i == 4 then (9.0 * l, 2.0 * l)
    else (9.0 * l, 0.0)
  }

  function Corners(l: real, t: real): (points: seq<Node>)
    ensures |points| == 6 && forall i :: 0 <= i < 6 ==> points[i] == Node(Corner(i, l, t), "F.Cu")
  {
    seq(6, i requires 0 <= i < 6 => Node(Corner(i, l, t), "F.Cu"))
  }

  /** The length of the track between a place and the next around. */
  function Length(i: nat, l: real, t: real): (w: real) {
    if i == 0 then l + 0.375 * t
    else if i == 1 then 2.0 * l
    else if i == 2 then 9.0 * l + 0.375 * t
    else if i == 3 then l
    else if i == 4 then 2.0 * l
    else 9.0 * l
  }

  function TrackOf(corners: seq<nat>, l: real, t: real): (track: Build.Track) {
    Track("net", seq(|corners|, i requires 0 <= i < |corners| => Corner(corners[i], l, t)), "F.Cu")
  }

  function TracksOf(l: real, t: real): (tracks: seq<Build.Track>) {
    [TrackOf([0, 1, 2], l, t)] + [TrackOf([3, 4, 5], l, t)] + [TrackOf([2, 3], l, t)] + [TrackOf([5, 0], l, t)]
  }

  /** Four tracks around the six places. */
  function TwoRoutes(l: real, t: real): (b: Build.Board) {
    Board(TracksOf(l, t), [], [], [], ["F.Cu"])
  }

  /** The place each segment starts at, in the order they are laid. */
  function First(k: nat): (i: nat)
    ensures i < 6
  {
    if k == 0 then 0 else if k == 1 then 1 else if k == 2 then 3 else if k == 3 then 4 else if k == 4 then 2 else 5
  }

  function Next(i: nat): (j: nat)
    requires i < 6
    ensures j < 6 && j != i
  {
    if i == 5 then 0 else i + 1
  }

  function Piece(k: nat, l: real, t: real): (c: Copper) {
    Line(Corner(First(k), l, t), Corner(Next(First(k)), l, t), "F.Cu")
  }

  /** The first n segments laid, and their chains. */
  function Pieces(n: nat, l: real, t: real): (cs: seq<Copper>)
    ensures |cs| == n && forall k: nat :: k < n ==> cs[k] == Piece(k, l, t)
  {
    if n == 0 then [] else Pieces(n - 1, l, t) + [Piece(n - 1, l, t)]
  }

  function Chains(n: nat): (chains: seq<seq<nat>>)
    ensures |chains| == n && forall k: nat :: k < n ==> chains[k] == [First(k), Next(First(k))]
  {
    if n == 0 then [] else Chains(n - 1) + [[First(n - 1), Next(First(n - 1))]]
  }

  // ---------- its copper and its places ----------

  lemma MoreTracks(tracks: seq<Build.Track>, track: Build.Track)
    requires track.net == "net"
    ensures TrackSpots(tracks + [track], "net") == TrackSpots(tracks, "net") + Build.Ends(track)
    ensures Lines(tracks + [track], "net") == Lines(tracks, "net") + TrackLines(track, Segments(track))
  {
    assert (tracks + [track])[..|tracks|] == tracks;
  }

  lemma LinesOf(l: real, t: real)
    ensures CopperOf(TwoRoutes(l, t), "net") == Pieces(6, l, t)
  {
    var a, b, c, d := TrackOf([0, 1, 2], l, t), TrackOf([3, 4, 5], l, t), TrackOf([2, 3], l, t), TrackOf([5, 0], l, t);
    MoreTracks([], a);
    MoreTracks([a], b);
    MoreTracks([a] + [b], c);
    MoreTracks([a] + [b] + [c], d);
    assert [] + [a] == [a];
    assert TrackLines(a, 2) == [Piece(0, l, t), Piece(1, l, t)];
    assert TrackLines(b, 2) == [Piece(2, l, t), Piece(3, l, t)];
    assert TrackLines(c, 1) == [Piece(4, l, t)];
    assert TrackLines(d, 1) == [Piece(5, l, t)];
  }

  ghost predicate AtCorners(spots: seq<Spot>, l: real, t: real) {
    forall k :: 0 <= k < |spots| ==> spots[k] in Corners(l, t)
  }

  lemma CornersAreSpots(l: real, t: real)
    ensures AtCorners(SpotsOf(TwoRoutes(l, t), "net"), l, t)
    ensures forall i :: 0 <= i < 6 ==> Corners(l, t)[i] in SpotsOf(TwoRoutes(l, t), "net")
  {
    var a, b, c, d := TrackOf([0, 1, 2], l, t), TrackOf([3, 4, 5], l, t), TrackOf([2, 3], l, t), TrackOf([5, 0], l, t);
    MoreTracks([], a);
    MoreTracks([a], b);
    MoreTracks([a] + [b], c);
    MoreTracks([a] + [b] + [c], d);
    assert [] + [a] == [a];
    var points := Corners(l, t);
    assert Build.Ends(a) == [points[0], points[1], points[2]];
    assert Build.Ends(b) == [points[3], points[4], points[5]];
    assert Build.Ends(c) == [points[2], points[3]];
    assert Build.Ends(d) == [points[5], points[0]];
    hide TrackSpots, Corners, TrackOf, Build.Ends;
    var spots := SpotsOf(TwoRoutes(l, t), "net");
    assert spots == [points[0], points[1], points[2], points[3], points[4], points[5], points[2], points[3], points[5], points[0]];
  }

  lemma CornersPlaced(dist: Metric, tol: real, l: real, t: real)
    requires IsEuclid(dist) && tol > 0.0
    ensures Placed(Corners(l, t), dist, tol, SpotsOf(TwoRoutes(l, t), "net"))
  {
    CornersAreSpots(l, t);
    hide IsEuclid, SpotsOf, Corners;
    var points, spots := Corners(l, t), SpotsOf(TwoRoutes(l, t), "net");
    forall k | 0 <= k < |spots| ensures Occupied(points, dist, tol, spots[k]) {
      var i :| 0 <= i < |points| && points[i] == spots[k];
      DistSelf(dist, points[i].at);
      assert Near(points, dist, tol, spots[k].at, spots[k].layer, i);
    }
  }

  // ---------- its segments ----------

  /** The point lies beyond the tolerance on one side of both ends, on one axis. */
  predicate Aside(p: Point, p0: Point, p1: Point, tol: real) {
    || (p.0 > p0.0 + tol && p.0 > p1.0 + tol) || (p.0 < p0.0 - tol && p.0 < p1.0 - tol)
    || (p.1 > p0.1 + tol && p.1 > p1.1 + tol) || (p.1 < p0.1 - tol && p.1 < p1.1 - tol)
  }

  predicate Amid(a: real, x: real, b: real) {
    a <= x <= b || b <= x <= a
  }

  /** Part of the way from a number to another lies between them. */
  lemma PartBetween(a: real, v: real, u: real, x: real)
    requires 0.0 <= u <= 1.0 && x == v * u
    ensures Amid(a, a + x, a + v)
  {
    if v >= 0.0 {
      Numbers.MulNonNeg(v, u);
      Numbers.MulNonNeg(v, 1.0 - u);
      assert v * (1.0 - u) == v - v * u;
    } else {
      Numbers.MulNonNeg(-v, u);
      Numbers.MulNonNeg(-v, 1.0 - u);
      assert (-v) * u == -(v * u) && (-v) * (1.0 - u) == -v + v * u;
    }
  }

  lemma PartOfStep(p: Point, d: Point, u: real)
    requires 0.0 <= u <= 1.0
    ensures var q := Plus(p, Scale(d, u)); Amid(p.0, q.0, p.0 + d.0) && Amid(p.1, q.1, p.1 + d.1)
  {
    hide Amid;
    var x := Scale(d, u);
    PartBetween(p.0, d.0, u, x.0);
    PartBetween(p.1, d.1, u, x.1);
  }

  lemma LerpBetween(p0: Point, p1: Point, u: real)
    requires 0.0 <= u <= 1.0
    ensures var q := Lerp(p0, p1, u); Amid(p0.0, q.0, p1.0) && Amid(p0.1, q.1, p1.1)
  {
    hide Amid, Plus, Scale;
    var d := Minus(p1, p0);
    assert p0.0 + d.0 == p1.0 && p0.1 + d.1 == p1.1;
    PartOfStep(p0, d, u);
  }

  lemma AsideIsOff(p: Point, p0: Point, p1: Point, length: real, dist: Metric, tol: real)
    requires IsEuclid(dist) && tol > 0.0 && length > 0.0 && Aside(p, p0, p1, tol)
    ensures !OnSegment(p, p0, p1, length, dist, tol)
  {
    hide IsEuclid, Along, Lerp;
    var u := Along(p, p0, p1, length);
    if 0.0 <= u <= 1.0 {
      LerpBetween(p0, p1, u);
      FarOnAxis(dist, p, Lerp(p0, p1, u), tol);
    }
  }

  /** Every other place lies aside of a segment. */
  lemma OthersAside(k: nat, i: nat, tol: real, t: real)
    requires k < 6 && i < 6 && i != First(k) && i != Next(First(k)) && tol > 0.0 && t > 0.0
    ensures var l := Unit(tol, t); Aside(Corner(i, l, t), Corner(First(k), l, t), Corner(Next(First(k)), l, t), tol)
  {
  }

  lemma SegmentLength(k: nat, l: real, t: real, dist: Metric)
    requires k < 6 && IsEuclid(dist) && l > 0.0 && t > 0.0
    ensures dist(Corner(First(k), l, t), Corner(Next(First(k)), l, t)) == Length(First(k), l, t) > 0.0
  {
    hide IsEuclid;
    DistOnAxis(dist, Corner(First(k), l, t), Corner(Next(First(k)), l, t), Length(First(k), l, t));
  }

  /** A segment joins its two ends and nothing else. */
  lemma PieceFits(k: nat, tol: real, t: real, dist: Metric)
    requires k < 6 && IsEuclid(dist) && tol > 0.0 && t > 0.0
    ensures var l := Unit(tol, t); ChainFits(Corners(l, t), dist, tol, Piece(k, l, t), 6, [First(k), Next(First(k))])
  {
    var l := Unit(tol, t);
    var points, c, a, b := Corners(l, t), Piece(k, l, t), First(k), Next(First(k));
    hide IsEuclid, Corner, First, Next, Length, Unit;
    SegmentLength(k, l, t, dist);
    DistSelf(dist, points[a].at);
    DistSelf(dist, points[b].at);
    forall i: nat | i < 6 && i != a && i != b ensures !OnChain(points, dist, tol, c.p0, c.p1, c.layer, i) {
      OthersAside(k, i, tol, t);
      AsideIsOff(points[i].at, c.p0, c.p1, dist(c.p0, c.p1), dist, tol);
    }
    hide OnChain;
    assert [a, b][1..1] == [];
  }

  // ---------- its graph ----------

  /** The edges of the first n segments. */
  function Laid(n: nat, l: real, t: real): (g: Edges) {
    if n == 0 then map[]
    else
      var i := First(n - 1);
      Joined(Laid(n - 1, l, t), i, Stretch(Next(i), Length(i, l, t)))
  }

  lemma OneSegment(g: Edges, points: seq<Node>, dist: Metric, c: Copper, a: nat, b: nat)
    requires c.Line? && a < |points| && b < |points| && a != b
    ensures ChainJoined(g, points, dist, c, [a, b], 2) == Joined(g, a, Edge(b, dist(points[a].at, points[b].at), c.layer, false))
  {
    hide Joined;
    assert ChainJoined(g, points, dist, c, [a, b], 1) == g;
  }

  lemma OneMoreLaid(k: nat, l: real, t: real, dist: Metric, cs: seq<Copper>, chains: seq<seq<nat>>)
    requires k < 6 && IsEuclid(dist) && l > 0.0 && t > 0.0
    requires AllThreaded(Corners(l, t), cs, chains) && AllJoined(Corners(l, t), dist, cs, chains) == Laid(k, l, t)
    ensures var (cs', chains') := (cs + [Piece(k, l, t)], chains + [[First(k), Next(First(k))]]);
      AllThreaded(Corners(l, t), cs', chains') && AllJoined(Corners(l, t), dist, cs', chains') == Laid(k + 1, l, t)
  {
    hide IsEuclid, ChainJoined, Joined, First, Next, Length, Corner;
    var (cs', chains') := (cs + [Piece(k, l, t)], chains + [[First(k), Next(First(k))]]);
    assert cs'[..|cs|] == cs && chains'[..|chains|] == chains;
    SegmentLength(k, l, t, dist);
    OneSegment(Laid(k, l, t), Corners(l, t), dist, Piece(k, l, t), First(k), Next(First(k)));
  }

  lemma {:induction false} LaidIsJoined(n: nat, l: real, t: real, dist: Metric)
    requires n <= 6 && IsEuclid(dist) && l > 0.0 && t > 0.0
    ensures AllThreaded(Corners(l, t), Pieces(n, l, t), Chains(n))
    ensures AllJoined(Corners(l, t), dist, Pieces(n, l, t), Chains(n)) == Laid(n, l, t)
  {
    hide Corners, Piece, First, Next, IsEuclid;
    if n > 0 {
      LaidIsJoined(n - 1, l, t, dist);
      OneMoreLaid(n - 1, l, t, dist, Pieces(n - 1, l, t), Chains(n - 1));
    }
  }

  /** What the first n segments lead to from a place. */
  function LaidOut(n: nat, i: nat, l: real, t: real): (es: seq<Edge>) {
    if n == 0 then []
    else
      var a := First(n - 1);
      var w := Length(a, l, t);
      LaidOut(n - 1, i, l, t) + if i == a then [Stretch(Next(a), w)] else if i == Next(a) then [Stretch(a, w)] else []
  }

  lemma {:induction false} LaidLeads(n: nat, i: nat, l: real, t: real)
    ensures Out(Laid(n, l, t), i) == LaidOut(n, i, l, t)
  {
    if n > 0 {
      LaidLeads(n - 1, i, l, t);
      hide First, Next, Length;
    }
  }

  /** The first of the ring's lengths is that from place s to the next. */
  function LapFrom(s: nat, l: real, t: real): (lap: Lap)
    requires s == 0 || s == 3
  {
    var z := 3 - s;
    Lap(s, s + 1, s + 2, z, z + 1, z + 2, Length(s, l, t), Length(s + 1, l, t), Length(s + 2, l, t),
        Length(z, l, t), Length(z + 1, l, t), Length(z + 2, l, t))
  }

  lemma LaidAt(i: nat, l: real, t: real)
    requires i < 6
    ensures var (a, b) := if i == 0 then (1, 5) else if i == 1 then (0, 2) else if i == 2 then (1, 3)
                          else if i == 3 then (4, 2) else if i == 4 then (3, 5) else (4, 0);
      Out(Laid(6, l, t), i) == [Stretch(a, Length(if a == Next(i) then i else a, l, t)), Stretch(b, Length(if b == Next(i) then i else b, l, t))]
  {
    LaidLeads(6, i, l, t);
    hide Laid, Length;
    assert LaidOut(6, i, l, t) == LaidOut(5, i, l, t) + if i == 5 then [Stretch(0, Length(5, l, t))] else if i == 0 then [Stretch(5, Length(5, l, t))] else [];
    assert LaidOut(5, i, l, t) == LaidOut(4, i, l, t) + if i == 2 then [Stretch(3, Length(2, l, t))] else if i == 3 then [Stretch(2, Length(2, l, t))] else [];
    assert LaidOut(4, i, l, t) == LaidOut(3, i, l, t) + if i == 4 then [Stretch(5, Length(4, l, t))] else if i == 5 then [Stretch(4, Length(4, l, t))] else [];
    assert LaidOut(3, i, l, t) == LaidOut(2, i, l, t) + if i == 3 then [Stretch(4, Length(3, l, t))] else if i == 4 then [Stretch(3, Length(3, l, t))] else [];
    assert LaidOut(2, i, l, t) == LaidOut(1, i, l, t) + if i == 1 then [Stretch(2, Length(1, l, t))] else if i == 2 then [Stretch(1, Length(1, l, t))] else [];
    assert LaidOut(1, i, l, t) == LaidOut(0, i, l, t) + if i == 0 then [Stretch(1, Length(0, l, t))] else if i == 1 then [Stretch(0, Length(0, l, t))] else [];
    assert LaidOut(0, i, l, t) == [];
    hide LaidOut;
  }

  lemma LapLies(s: nat, l: real, t: real)
    requires s == 0 || s == 3
    ensures Lies(Laid(6, l, t), LapFrom(s, l, t)) && Distinct(LapFrom(s, l, t))
  {
    LaidAt(0, l, t);
    LaidAt(1, l, t);
    LaidAt(2, l, t);
    LaidAt(3, l, t);
    LaidAt(4, l, t);
    LaidAt(5, l, t);
    hide Laid, Length;
  }

  lemma LapKept(s: nat, l: real, t: real)
    requires (s == 0 || s == 3) && l > t > 0.0
    ensures FirstWayKept(LapFrom(s, l, t), t)
    ensures FirstWay(LapFrom(s, l, t)) == if s == 0 then 12.0 * l + 0.75 * t else 12.0 * l
  {
  }

  /** From place 0 the length found is twelve units and three quarters of a slack, from place 3 it is
      twelve units. */
  lemma EndsDiffer(l: real, t: real) returns (d: Dist, prev: Prev, d': Dist, prev': Prev)
    requires l > t > 0.0
    ensures IsSearch(Laid(6, l, t), [0], t, d, prev) && 3 in d && d[3] == 12.0 * l + 0.75 * t
    ensures IsSearch(Laid(6, l, t), [3], t, d', prev') && 0 in d' && d'[0] == 12.0 * l
  {
    LapLies(0, l, t);
    LapLies(3, l, t);
    LapKept(0, l, t);
    LapKept(3, l, t);
    hide Laid, Lies, Distinct, FirstWayKept, FirstWay, IsSearch, Length;
    d, prev := KeepsFirstWay(Laid(6, l, t), LapFrom(0, l, t), t);
    d', prev' := KeepsFirstWay(Laid(6, l, t), LapFrom(3, l, t), t);
  }

  // ---------- the board's graph ----------

  lemma CornersApart(dist: Metric, tol: real, t: real)
    requires IsEuclid(dist) && tol > 0.0 && t > 0.0
    ensures Apart(Corners(Unit(tol, t), t), dist, tol)
  {
    hide IsEuclid;
    var l := Unit(tol, t);
    var points := Corners(l, t);
    forall i, j | 0 <= i < j < |points| ensures dist(points[i].at, points[j].at) > tol {
      FarOnAxis(dist, Corner(i, l, t), Corner(j, l, t), tol);
    }
  }

  lemma StretchFits(k: nat, l: real, t: real, dist: Metric)
    requires k < 6 && IsEuclid(dist) && l > 0.0 && t > 0.0
    ensures var (i, e) := (First(k), Stretch(Next(First(k)), Length(First(k), l, t)));
      EdgeFits(Corners(l, t), dist, i, e) && EdgeFits(Corners(l, t), dist, e.to, Back(i, e))
  {
    SegmentLength(k, l, t, dist);
    hide IsEuclid, Corner, First, Next, Length;
    BackFits(Corners(l, t), dist, First(k), Stretch(Next(First(k)), Length(First(k), l, t)));
  }

  lemma {:induction false} LaidFits(n: nat, l: real, t: real, dist: Metric)
    requires n <= 6 && IsEuclid(dist) && l > 0.0 && t > 0.0
    ensures EdgesFit(Laid(n, l, t), Corners(l, t), dist) && TwoWay(Laid(n, l, t))
  {
    if n > 0 {
      LaidFits(n - 1, l, t, dist);
      StretchFits(n - 1, l, t, dist);
      hide EdgesFit, TwoWay, EdgeFits, Corners, First, Next, Length, IsEuclid;
      JoinKeeps(Laid(n - 1, l, t), Corners(l, t), dist, First(n - 1), Stretch(Next(First(n - 1)), Length(First(n - 1), l, t)));
    }
  }

  /** What is built of the board is this graph. */
  lemma TracksAreBuilt(dist: Metric, tol: real, t: real) returns (cells: Cells)
    requires IsEuclid(dist) && tol > 0.0 && t > 0.0
    ensures var l := Unit(tol, t);
      IsNetGraph(TwoRoutes(l, t), "net", dist, tol, cells, Corners(l, t), Laid(6, l, t), Chains(6), 6)
  {
    var l := Unit(tol, t);
    var points := Corners(l, t);
    hide IsEuclid, Indexed, Corners, Laid, Apart, EdgesFit, TwoWay, Placed, ChainFits, AllJoined, CopperOf, SpotsOf, Chains, Pieces;
    cells := CellsFor(points, tol);
    CornersApart(dist, tol, t);
    LaidFits(6, l, t, dist);
    CornersPlaced(dist, tol, l, t);
    LinesOf(l, t);
    LaidIsJoined(6, l, t, dist);
    forall k | 0 <= k < 6 ensures ChainFits(points, dist, tol, Pieces(6, l, t)[k], 6, Chains(6)[k]) {
      PieceFits(k, tol, t, dist);
      PieceAt(k, l, t);
    }
    assert points[..6] == points;
  }

  lemma PieceAt(k: nat, l: real, t: real)
    requires k < 6
    ensures Pieces(6, l, t)[k] == Piece(k, l, t) && Chains(6)[k] == [First(k), Next(First(k))]
  {
  }

  // ---------- exactly when the ends agree ----------

  /** A graph built of some board, and two searches on it, from a and from b, the first of which
      reaches b. */
  ghost predicate BothWays(dist: Metric, tol: real, slack: real, board: Build.Board, net: string, cells: Cells, points: seq<Node>, g: Edges,
                           chains: seq<seq<nat>>, m: nat, a: nat, b: nat, d: Dist, prev: Prev, d': Dist, prev': Prev) {
    && IsNetGraph(board, net, dist, tol, cells, points, g, chains, m) && a < |points| && b < |points|
    && IsSearch(g, [a], slack, d, prev) && IsSearch(g, [b], slack, d', prev') && b in d
  }

  ghost predicate EndsAgree(dist: Metric, tol: real, slack: real) {
    forall board, net, cells, points, g, chains, m, a, b, d, prev, d', prev' ::
      BothWays(dist, tol, slack, board, net, cells, points, g, chains, m, a, b, d, prev, d', prev') ==> a in d' && d[b] == d'[a]
  }

  lemma NoLonger(g: Edges, n: nat, a: nat, b: nat, d: Dist, prev: Prev, d': Dist, prev': Prev)
    requires GoodEdges(g, n) && TwoWay(g) && a < n && b < n
    requires IsSearch(g, [a], 0.0, d, prev) && IsSearch(g, [b], 0.0, d', prev') && b in d
    ensures a in d' && d'[a] <= d[b]
  {
    hide IsSearch, GoodEdges, TwoWay;
    var w := DistanceIsWalked(g, n, [a], 0.0, d, prev, b);
    Routes.ReversedIsWalk(g, [a], w);
    Routes.WalkStarts(g, [a], w);
    ExactWithoutSlack(g, n, [b], d', prev', Routes.Reversed(w));
  }

  lemma GoodGraph(cells: Cells, points: seq<Node>, g: Edges, dist: Metric, tol: real)
    requires GraphOk(cells, points, g, dist, tol)
    ensures GoodEdges(g, |points|) && TwoWay(g)
  {
    hide TwoWay, IsEuclid, Indexed, Apart;
    Attach.GraphIsSearchable(cells, points, g, dist, tol);
  }

  /** On the graphs built of all boards, with any tolerance, the two ends of a route agree on its length
      if and only if there is no slack. */
  lemma EndsAgreeExactly(dist: Metric, tol: real, slack: real)
    requires IsEuclid(dist) && tol > 0.0 && slack >= 0.0
    ensures EndsAgree(dist, tol, slack) <==> slack == 0.0
  {
    hide IsEuclid, IsSearch, GraphOk, GoodEdges, TwoWay, Placed, Built;
    if slack == 0.0 {
      forall board, net, cells, points, g, chains, m, a, b, d, prev, d', prev'
        | BothWays(dist, tol, slack, board, net, cells, points, g, chains, m, a, b, d, prev, d', prev')
        ensures a in d' && d[b] == d'[a]
      {
        GoodGraph(cells, points, g, dist, tol);
        NoLonger(g, |points|, a, b, d, prev, d', prev');
        NoLonger(g, |points|, b, a, d', prev', d, prev);
      }
    } else {
      OneThatDiffers(dist, tol, slack);
    }
  }

  lemma OneThatDiffers(dist: Metric, tol: real, slack: real)
    requires IsEuclid(dist) && tol > 0.0 && slack > 0.0
    ensures !EndsAgree(dist, tol, slack)
  {
    hide IsEuclid, IsSearch, IsNetGraph, Laid;
    var l := Unit(tol, slack);
    var cells := TracksAreBuilt(dist, tol, slack);
    var d, prev, d', prev' := EndsDiffer(l, slack);
    assert BothWays(dist, tol, slack, TwoRoutes(l, slack), "net", cells, Corners(l, slack), Laid(6, l, slack), Chains(6), 6, 0, 3,
                    d, prev, d', prev');
  }
}
