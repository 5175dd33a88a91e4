/** Building one net's graph from the board (worker/emi_worker/topology.py). */
module Build {
  import opened Geometry
  import opened Dijkstra
  import opened Graphs
  import opened Pours
  import EvenOdd

  datatype Track = Track(net: string, pts: seq<Point>, layer: string)

  datatype Via = Via(net: string, at: Point, layers: seq<string>)

  datatype Pad = Pad(net: string, ref: string, number: string, at: Point, layers: seq<string>, through: bool)

  datatype Zone = Zone(net: string, layer: string, ring: Ring)

  datatype Board = Board(tracks: seq<Track>, vias: seq<Via>, pads: seq<Pad>, zones: seq<Zone>, copper: seq<string>)

  function Among(layers: seq<string>, copper: seq<string>): (r: seq<string>)
    ensures forall l :: l in r <==> l in layers && l in copper
  {
    if layers == [] then []
    else if layers[0] in copper then [layers[0]] + Among(layers[1..], copper)
    else Among(layers[1..], copper)
  }

  // ---------- the places registered first ----------

  /** A point on a layer. */
  type Spot = Node

  function OnEach(at: Point, layers: seq<string>): (r: seq<Spot>) {
    seq(|layers|, i requires 0 <= i < |layers| => Node(at, layers[i]))
  }

  function TrackSpots(tracks: seq<Track>, net: string): (r: seq<Spot>) {
    if tracks == [] then []
    else
      var n := |tracks| - 1;
      TrackSpots(tracks[..n], net) + if tracks[n].net == net then Ends(tracks[n]) else []
  }

  function Ends(t: Track): (r: seq<Spot>) {
    seq(|t.pts|, i requires 0 <= i < |t.pts| => Node(t.pts[i], t.layer))
  }

  function ViaSpots(vias: seq<Via>, net: string): (r: seq<Spot>) {
    if vias == [] then []
    else
      var n := |vias| - 1;
      ViaSpots(vias[..n], net) + if vias[n].net == net then OnEach(vias[n].at, vias[n].layers) else []
  }

  function PadSpots(pads: seq<Pad>, net: string, copper: seq<string>): (r: seq<Spot>) {
    if pads == [] then []
    else
      var n := |pads| - 1;
      PadSpots(pads[..n], net, copper)
        + if pads[n].net == net then OnEach(pads[n].at, Among(pads[n].layers, copper)) else []
  }

  /** Every track point, via layer and pad layer of the net. */
  function SpotsOf(b: Board, net: string): (r: seq<Spot>) {
    TrackSpots(b.tracks, net) + ViaSpots(b.vias, net) + PadSpots(b.pads, net, b.copper)
  }

  // ---------- the copper of a net ----------

  function TrackLines(t: Track, n: nat): (r: seq<Copper>)
    requires n == 0 || n < |t.pts|
  {
    seq(n, i requires 0 <= i < n => Line(t.pts[i], t.pts[i + 1], t.layer))
  }

  function Segments(t: Track): (n: nat) {
    if t.pts == [] then 0 else |t.pts| - 1
  }

  function Lines(tracks: seq<Track>, net: string): (r: seq<Copper>) {
    if tracks == [] then []
    else
      var n := |tracks| - 1;
      Lines(tracks[..n], net) + if tracks[n].net == net then TrackLines(tracks[n], Segments(tracks[n])) else []
  }

  function Spanned(v: Via, copper: seq<string>): (layers: seq<string>) {
    var spanned := Among(v.layers, copper);
    if spanned == [] then v.layers else spanned
  }

  function Barrels(vias: seq<Via>, net: string, copper: seq<string>): (r: seq<Copper>) {
    if vias == [] then []
    else
      var n := |vias| - 1;
      Barrels(vias[..n], net, copper) + if vias[n].net == net then [Barrel(vias[n].at, Spanned(vias[n], copper))] else []
  }

  function Sum(xs: seq<real>): (s: real) {
    if xs == [] then 0.0 else Sum(xs[..|xs| - 1]) + xs[|xs| - 1]
  }

  function Centroid(ring: Ring): (p: Point) {
    if ring == [] then (0.0, 0.0) else (Sum(Xs(ring)) / |ring| as real, Sum(Ys(ring)) / |ring| as real)
  }

  /** The copper layers a pad is on; all of them for a through pad that names none. */
  function PadLayers(pad: Pad, copper: seq<string>): (layers: seq<string>) {
    var layers := Among(pad.layers, copper);
    if layers == [] && pad.through then copper else layers
  }

  /** The layers a pad is looked for on. */
  function SoughtOn(pad: Pad, copper: seq<string>): (layers: seq<string>) {
    var layers := PadLayers(pad, copper);
    if layers == [] then (if copper == [] then [] else copper[..1]) else layers
  }

  function KeyOfPad(pad: Pad): (key: string) {
    if pad.ref != "" then pad.ref + "." + pad.number else pad.number
  }

  predicate IsPour(z: Zone, net: string) {
    z.net == net && z.ring != []
  }

  /** Which zones are pours of the net, in board order. */
  function PourIndices(zones: seq<Zone>, net: string): (ids: seq<nat>)
    ensures forall i :: i in ids ==> i < |zones| && IsPour(zones[i], net)
  {
    if zones == [] then []
    else
      var n := |zones| - 1;
      PourIndices(zones[..n], net) + if IsPour(zones[n], net) then [n] else []
  }

  /** The pours among ids, of one layer, that the pad is inside of. */
  function PoursOn(pad: Pad, layer: string, zones: seq<Zone>, ids: seq<nat>): (r: seq<Copper>)
    requires forall i :: i in ids ==> i < |zones|
  {
    if ids == [] then []
    else
      var n := |ids| - 1;
      assert ids[n] in ids && forall i :: i in ids[..n] ==> i in ids;
      var z := zones[ids[n]];
      PoursOn(pad, layer, zones, ids[..n])
        + if z.layer == layer && EvenOdd.Inside(pad.at.0, pad.at.1, z.ring) then [Pour(pad.at, layer, Centroid(z.ring))] else []
  }

  function PadPours(pad: Pad, layers: seq<string>, zones: seq<Zone>, ids: seq<nat>): (r: seq<Copper>)
    requires forall i :: i in ids ==> i < |zones|
  {
    if layers == [] then []
    else
      var n := |layers| - 1;
      PadPours(pad, layers[..n], zones, ids) + PoursOn(pad, layers[n], zones, ids)
  }

  function AllPours(pads: seq<Pad>, zones: seq<Zone>, ids: seq<nat>, net: string, copper: seq<string>): (r: seq<Copper>)
    requires forall i :: i in ids ==> i < |zones|
  {
    if pads == [] then []
    else
      var n := |pads| - 1;
      AllPours(pads[..n], zones, ids, net, copper)
        + if pads[n].net == net then PadPours(pads[n], PadLayers(pads[n], copper), zones, ids) else []
  }

  /** Every piece of copper of the net that joins something. */
  function CopperOf(b: Board, net: string): (r: seq<Copper>) {
    Lines(b.tracks, net) + Barrels(b.vias, net, b.copper)
      + AllPours(b.pads, b.zones, PourIndices(b.zones, net), net, b.copper)
  }

  // ---------- what has been built so far ----------

  /** There is a node within the tolerance of every spot, and every node was put at a spot. */
  ghost predicate Placed(points: seq<Node>, dist: Metric, tol: real, spots: seq<Spot>) {
    && (forall k :: 0 <= k < |spots| ==> Occupied(points, dist, tol, spots[k]))
    && (forall i :: 0 <= i < |points| ==> points[i] in spots)
  }

  lemma OccupiedStays(points: seq<Node>, points': seq<Node>, dist: Metric, tol: real, spot: Spot)
    requires Occupied(points, dist, tol, spot) && points <= points'
    ensures Occupied(points', dist, tol, spot)
  {
    var i :| Near(points, dist, tol, spot.at, spot.layer, i);
    assert Near(points', dist, tol, spot.at, spot.layer, i);
  }

  lemma PlacedAt(cells: Cells, points: seq<Node>, g: Edges, dist: Metric, tol: real, spot: Spot)
    requires GraphOk(cells, points, g, dist, tol)
    ensures var points' := PlacedPoints(cells, points, dist, tol, spot.at, spot.layer);
      (points' == points || points' == points + [spot]) && Occupied(points', dist, tol, spot)
  {
    hide GraphOk, Near, Place, Look;
    PlaceReuses(cells, points, g, dist, tol, spot.at, spot.layer);
  }

  lemma OneMorePlaced(cells: Cells, points: seq<Node>, g: Edges, dist: Metric, tol: real, spots: seq<Spot>, spot: Spot)
    requires GraphOk(cells, points, g, dist, tol) && Placed(points, dist, tol, spots)
    ensures Placed(PlacedPoints(cells, points, dist, tol, spot.at, spot.layer), dist, tol, spots + [spot])
  {
    hide GraphOk, PlacedPoints, Occupied;
    PlacedAt(cells, points, g, dist, tol, spot);
    var points' := PlacedPoints(cells, points, dist, tol, spot.at, spot.layer);
    var spots' := spots + [spot];
    forall k | 0 <= k < |spots'| ensures Occupied(points', dist, tol, spots'[k]) {
      if k < |spots| {
        OccupiedStays(points, points', dist, tol, spots[k]);
      }
    }
  }

  /** The edges of the pieces of copper, each laid along its chain of nodes, one after the other. */
  ghost function AllJoined(points: seq<Node>, dist: Metric, cs: seq<Copper>, chains: seq<seq<nat>>): (g: Edges)
    requires AllThreaded(points, cs, chains)
  {
    if cs == [] then map[]
    else
      var n := |cs| - 1;
      ChainJoined(AllJoined(points, dist, cs[..n], chains[..n]), points, dist, cs[n], chains[n], |chains[n]|)
  }

  ghost predicate AllThreaded(points: seq<Node>, cs: seq<Copper>, chains: seq<seq<nat>>) {
    |cs| == |chains| && forall k :: 0 <= k < |cs| ==> Threaded(points, cs[k], chains[k])
  }

  ghost predicate AllFit(points: seq<Node>, dist: Metric, tol: real, cs: seq<Copper>, chains: seq<seq<nat>>, m: nat): (ok: bool)
    requires tol > 0.0
    ensures ok ==> AllThreaded(points, cs, chains)
  {
    |cs| == |chains| && forall k :: 0 <= k < |cs| ==> ChainFits(points, dist, tol, cs[k], m, chains[k])
  }

  /** The graph is what laying the copper cs in turn makes, each piece along a chain of nodes that
      fits it. */
  ghost predicate Built(g: Edges, points: seq<Node>, dist: Metric, tol: real, cs: seq<Copper>, chains: seq<seq<nat>>, m: nat) {
    && tol > 0.0 && m <= |points|
    && AllFit(points, dist, tol, cs, chains, m) && g == AllJoined(points, dist, cs, chains)
  }

  lemma {:induction false} AllJoinedStays(points: seq<Node>, points': seq<Node>, dist: Metric, cs: seq<Copper>, chains: seq<seq<nat>>)
    requires AllThreaded(points, cs, chains) && points <= points'
    ensures AllThreaded(points', cs, chains) && AllJoined(points, dist, cs, chains) == AllJoined(points', dist, cs, chains)
  {
    hide ChainJoined;
    if cs != [] {
      var n := |cs| - 1;
      AllJoinedStays(points, points', dist, cs[..n], chains[..n]);
      ChainJoinedStays(AllJoined(points, dist, cs[..n], chains[..n]), points, points', dist, cs[n], chains[n], |chains[n]|);
    }
  }

  /** New nodes leave the copper as it is. */
  lemma BuiltStays(g: Edges, points: seq<Node>, points': seq<Node>, dist: Metric, tol: real, cs: seq<Copper>, chains: seq<seq<nat>>, m: nat)
    requires Built(g, points, dist, tol, cs, chains, m) && points <= points'
    ensures Built(g, points', dist, tol, cs, chains, m)
  {
    hide ChainFits;
    forall k | 0 <= k < |cs| ensures ChainFits(points', dist, tol, cs[k], m, chains[k]) {
      ChainFitsStays(points, points', dist, tol, cs[k], m, chains[k]);
    }
    AllJoinedStays(points, points', dist, cs, chains);
  }

  lemma OneMoreBuilt(g: Edges, points: seq<Node>, dist: Metric, tol: real, cs: seq<Copper>, chains: seq<seq<nat>>,
                     c: Copper, chain: seq<nat>, m: nat)
    requires Built(g, points, dist, tol, cs, chains, m) && ChainFits(points, dist, tol, c, m, chain)
    ensures Built(ChainJoined(g, points, dist, c, chain, |chain|), points, dist, tol, cs + [c], chains + [chain], m)
  {
    hide ChainFits, ChainJoined;
    var cs', chains' := cs + [c], chains + [chain];
    assert cs'[..|cs|] == cs && chains'[..|chains|] == chains;
  }

  lemma NothingBuilt(points: seq<Node>, dist: Metric, tol: real, m: nat)
    requires tol > 0.0 && m <= |points|
    ensures Built(map[], points, dist, tol, [], [], m)
  {
  }

  /** Every edge is one between neighbours in the chain of some piece, and every two neighbours have
      theirs. */
  lemma {:induction false} EdgesAreLinks(points: seq<Node>, dist: Metric, cs: seq<Copper>, chains: seq<seq<nat>>, a: nat, e: Edge)
    requires AllThreaded(points, cs, chains)
    ensures e in Out(AllJoined(points, dist, cs, chains), a)
       <==> exists k, i: nat :: 0 <= k < |cs| && LinkAt(points, dist, cs[k], chains[k], i, a, e)
  {
    hide LinkAt, ChainJoined;
    if cs != [] {
      var n := |cs| - 1;
      var front, fronts := cs[..n], chains[..n];
      EdgesAreLinks(points, dist, front, fronts, a, e);
      LastLinks(points, dist, front, fronts, cs[n], chains[n], a, e);
      assert front + [cs[n]] == cs && fronts + [chains[n]] == chains;
      if k, i: nat :| 0 <= k < |front| && LinkAt(points, dist, front[k], fronts[k], i, a, e) {
        assert LinkAt(points, dist, cs[k], chains[k], i, a, e);
      }
      if k, i: nat :| 0 <= k < |cs| && LinkAt(points, dist, cs[k], chains[k], i, a, e) {
        if k < n {
          assert LinkAt(points, dist, front[k], fronts[k], i, a, e);
        }
      }
    }
  }

  lemma LastLinks(points: seq<Node>, dist: Metric, cs: seq<Copper>, chains: seq<seq<nat>>, c: Copper, chain: seq<nat>, a: nat, e: Edge)
    requires AllThreaded(points, cs, chains) && Threaded(points, c, chain)
    ensures AllThreaded(points, cs + [c], chains + [chain])
    ensures e in Out(AllJoined(points, dist, cs + [c], chains + [chain]), a)
       <==> e in Out(AllJoined(points, dist, cs, chains), a) || exists i: nat :: LinkAt(points, dist, c, chain, i, a, e)
  {
    hide ChainJoined, Link, Out;
    assert (cs + [c])[..|cs|] == cs && (chains + [chain])[..|chains|] == chains;
    ChainAdds(AllJoined(points, dist, cs, chains), points, dist, c, chain, |chain|, a, e);
  }

  // ---------- pass one ----------

  method PlaceOnEach(g: Graph, at: Point, layers: seq<string>, ghost spots: seq<Spot>)
    requires g.Valid() && g.edges == map[] && Placed(g.points, g.dist, g.tol, spots)
    modifies g`points, g`cells
    ensures g.Valid() && Placed(g.points, g.dist, g.tol, spots + OnEach(at, layers))
  {
    hide GraphOk, Placed, PlacedPoints, PlacedCells, Place;
    var i := 0;
    assert spots + OnEach(at, layers)[..0] == spots;
    while i < |layers|
      invariant 0 <= i <= |layers| && g.Valid() && g.edges == map[]
      invariant Placed(g.points, g.dist, g.tol, spots + OnEach(at, layers)[..i])
    {
      var spot := Node(at, layers[i]);
      OneMorePlaced(g.cells, g.points, g.edges, g.dist, g.tol, spots + OnEach(at, layers)[..i], spot);
      assert spots + OnEach(at, layers)[..i] + [spot] == spots + OnEach(at, layers)[..i + 1];
      var _ := g.AddNode(at, layers[i]);
      i := i + 1;
    }
    assert OnEach(at, layers)[..i] == OnEach(at, layers);
  }

  method PlaceTrack(g: Graph, t: Track, ghost spots: seq<Spot>)
    requires g.Valid() && g.edges == map[] && Placed(g.points, g.dist, g.tol, spots)
    modifies g`points, g`cells
    ensures g.Valid() && Placed(g.points, g.dist, g.tol, spots + Ends(t))
  {
    hide GraphOk, Placed, PlacedPoints, PlacedCells, Place;
    var i := 0;
    assert spots + Ends(t)[..0] == spots;
    while i < |t.pts|
      invariant 0 <= i <= |t.pts| && g.Valid() && g.edges == map[]
      invariant Placed(g.points, g.dist, g.tol, spots + Ends(t)[..i])
    {
      var spot := Node(t.pts[i], t.layer);
      OneMorePlaced(g.cells, g.points, g.edges, g.dist, g.tol, spots + Ends(t)[..i], spot);
      assert spots + Ends(t)[..i] + [spot] == spots + Ends(t)[..i + 1];
      var _ := g.AddNode(t.pts[i], t.layer);
      i := i + 1;
    }
    assert Ends(t)[..i] == Ends(t);
  }

  /** Pass one: every track point, via and pad of the net becomes a node. */
  method PlaceAll(g: Graph, b: Board, net: string)
    requires g.Valid() && g.edges == map[] && g.points == []
    modifies g`points, g`cells
    ensures g.Valid() && Placed(g.points, g.dist, g.tol, SpotsOf(b, net))
  {
    hide GraphOk, OnEach, Ends;
    assert Placed(g.points, g.dist, g.tol, []);
    hide Placed;
    PlaceTracks(g, b.tracks, net);
    ghost var spots := TrackSpots(b.tracks, net);
    PlaceVias(g, b.vias, net, spots);
    PlacePads(g, b.pads, net, b.copper, spots + ViaSpots(b.vias, net));
  }

  method PlaceTracks(g: Graph, tracks: seq<Track>, net: string)
    requires g.Valid() && g.edges == map[] && Placed(g.points, g.dist, g.tol, [])
    modifies g`points, g`cells
    ensures g.Valid() && Placed(g.points, g.dist, g.tol, TrackSpots(tracks, net))
  {
    hide GraphOk, Placed, Ends;
    var j := 0;
    while j < |tracks|
      invariant 0 <= j <= |tracks| && g.Valid() && g.edges == map[]
      invariant Placed(g.points, g.dist, g.tol, TrackSpots(tracks[..j], net))
    {
      assert tracks[..j + 1][..j] == tracks[..j];
      if tracks[j].net == net {
        PlaceTrack(g, tracks[j], TrackSpots(tracks[..j], net));
      } else {
        assert TrackSpots(tracks[..j], net) + [] == TrackSpots(tracks[..j], net);
      }
      j := j + 1;
    }
    assert tracks[..j] == tracks;
  }

  method PlaceVias(g: Graph, vias: seq<Via>, net: string, ghost spots: seq<Spot>)
    requires g.Valid() && g.edges == map[] && Placed(g.points, g.dist, g.tol, spots)
    modifies g`points, g`cells
    ensures g.Valid() && Placed(g.points, g.dist, g.tol, spots + ViaSpots(vias, net))
  {
    hide GraphOk, Placed, OnEach;
    var j := 0;
    assert spots + ViaSpots(vias[..0], net) == spots;
    while j < |vias|
      invariant 0 <= j <= |vias| && g.Valid() && g.edges == map[]
      invariant Placed(g.points, g.dist, g.tol, spots + ViaSpots(vias[..j], net))
    {
      ghost var before := ViaSpots(vias[..j], net);
      assert vias[..j + 1][..j] == vias[..j];
      if vias[j].net == net {
        PlaceOnEach(g, vias[j].at, vias[j].layers, spots + before);
        assert spots + before + OnEach(vias[j].at, vias[j].layers) == spots + (before + OnEach(vias[j].at, vias[j].layers));
      } else {
        assert before + [] == before;
      }
      j := j + 1;
    }
    assert vias[..j] == vias;
  }

  method PlacePads(g: Graph, pads: seq<Pad>, net: string, copper: seq<string>, ghost spots: seq<Spot>)
    requires g.Valid() && g.edges == map[] && Placed(g.points, g.dist, g.tol, spots)
    modifies g`points, g`cells
    ensures g.Valid() && Placed(g.points, g.dist, g.tol, spots + PadSpots(pads, net, copper))
  {
    hide GraphOk, Placed, OnEach;
    var j := 0;
    assert spots + PadSpots(pads[..0], net, copper) == spots;
    while j < |pads|
      invariant 0 <= j <= |pads| && g.Valid() && g.edges == map[]
      invariant Placed(g.points, g.dist, g.tol, spots + PadSpots(pads[..j], net, copper))
    {
      ghost var before := PadSpots(pads[..j], net, copper);
      assert pads[..j + 1][..j] == pads[..j];
      if pads[j].net == net {
        var layers := Among(pads[j].layers, copper);
        PlaceOnEach(g, pads[j].at, layers, spots + before);
        assert spots + before + OnEach(pads[j].at, layers) == spots + (before + OnEach(pads[j].at, layers));
      } else {
        assert before + [] == before;
      }
      j := j + 1;
    }
    assert pads[..j] == pads;
  }

  // ---------- pass two: tracks ----------

  /** The ends of all the net's track segments have nodes already. */
  ghost predicate AllOccupied(points: seq<Node>, dist: Metric, tol: real, spots: seq<Spot>) {
    forall k :: 0 <= k < |spots| ==> Occupied(points, dist, tol, spots[k])
  }

  method LayTrack(g: Graph, t: Track, ghost done: seq<Copper>, ghost before: seq<seq<nat>>) returns (ghost chains: seq<seq<nat>>)
    requires g.Valid() && Built(g.edges, g.points, g.dist, g.tol, done, before, |g.points|)
    requires AllOccupied(g.points, g.dist, g.tol, Ends(t))
    modifies g`points, g`cells, g`edges
    ensures g.Valid() && g.points == old(g.points)
    ensures Built(g.edges, g.points, g.dist, g.tol, done + TrackLines(t, Segments(t)), chains, |g.points|)
  {
    hide GraphOk, Built, Occupied, ChainFits, ChainJoined;
    assert done + TrackLines(t, 0) == done;
    chains := before;
    var i := 0;
    while i < |t.pts| - 1
      invariant 0 <= i <= Segments(t) && g.Valid() && g.points == old(g.points)
      invariant Built(g.edges, g.points, g.dist, g.tol, done + TrackLines(t, i), chains, |g.points|)
    {
      assert Ends(t)[i] == Node(t.pts[i], t.layer) && Ends(t)[i + 1] == Node(t.pts[i + 1], t.layer);
      ghost var line, edges := Line(t.pts[i], t.pts[i + 1], t.layer), g.edges;
      ghost var chain := g.LaySegment(t.pts[i], t.pts[i + 1], t.layer);
      OneMoreBuilt(edges, g.points, g.dist, g.tol, done + TrackLines(t, i), chains, line, chain, |g.points|);
      assert done + TrackLines(t, i) + [line] == done + TrackLines(t, i + 1);
      chains := chains + [chain];
      i := i + 1;
    }
  }

  /** No node is added: pass one put one at the ends of every segment. */
  method LayTracks(g: Graph, tracks: seq<Track>, net: string) returns (ghost chains: seq<seq<nat>>)
    requires g.Valid() && g.edges == map[] && AllOccupied(g.points, g.dist, g.tol, TrackSpots(tracks, net))
    modifies g`points, g`cells, g`edges
    ensures g.Valid() && g.points == old(g.points)
    ensures Built(g.edges, g.points, g.dist, g.tol, Lines(tracks, net), chains, |g.points|)
  {
    hide GraphOk, TrackLines, AllOccupied, Ends;
    NothingBuilt(g.points, g.dist, g.tol, |g.points|);
    hide Built;
    chains := [];
    var j := 0;
    while j < |tracks|
      invariant 0 <= j <= |tracks| && g.Valid() && g.points == old(g.points)
      invariant Built(g.edges, g.points, g.dist, g.tol, Lines(tracks[..j], net), chains, |g.points|)
    {
      assert tracks[..j + 1][..j] == tracks[..j];
      if tracks[j].net == net {
        EndsOccupied(g.points, g.dist, g.tol, tracks, net, j);
        chains := LayTrack(g, tracks[j], Lines(tracks[..j], net), chains);
      } else {
        assert Lines(tracks[..j], net) + [] == Lines(tracks[..j], net);
      }
      j := j + 1;
    }
    assert tracks[..j] == tracks;
  }

  lemma {:induction false} EndsOccupied(points: seq<Node>, dist: Metric, tol: real, tracks: seq<Track>, net: string, j: nat)
    requires AllOccupied(points, dist, tol, TrackSpots(tracks, net)) && j < |tracks| && tracks[j].net == net
    ensures AllOccupied(points, dist, tol, Ends(tracks[j]))
  {
    hide Occupied, Ends;
    var n := |tracks| - 1;
    var front, last := TrackSpots(tracks[..n], net), if tracks[n].net == net then Ends(tracks[n]) else [];
    assert TrackSpots(tracks, net) == front + last;
    if j == n {
      forall k | 0 <= k < |last| ensures Occupied(points, dist, tol, last[k]) {
        assert (front + last)[|front| + k] == last[k];
      }
    } else {
      forall k | 0 <= k < |front| ensures Occupied(points, dist, tol, front[k]) {
        assert (front + last)[k] == front[k];
      }
      EndsOccupied(points, dist, tol, tracks[..n], net, j);
    }
  }

  // ---------- pass two: vias ----------

  /** The nodes of one place on a list of layers, found or added in turn. */
  ghost predicate NodesOn(points: seq<Node>, dist: Metric, tol: real, at: Point, layers: seq<string>, nodes: seq<nat>) {
    && |nodes| <= |layers|
    && (forall i :: 0 <= i < |nodes| ==> Near(points, dist, tol, at, layers[i], nodes[i]))
    && (forall i :: 0 < i < |nodes| && layers[i - 1] == layers[i] ==> nodes[i - 1] == nodes[i])
  }

  lemma OneMoreNode(points: seq<Node>, points': seq<Node>, dist: Metric, tol: real, at: Point, layers: seq<string>, nodes: seq<nat>, i: nat)
    requires NodesOn(points, dist, tol, at, layers, nodes) && |nodes| < |layers| && points <= points'
    requires Near(points', dist, tol, at, layers[|nodes|], i)
    requires nodes != [] && layers[|nodes| - 1] == layers[|nodes|] ==> i == nodes[|nodes| - 1]
    ensures NodesOn(points', dist, tol, at, layers, nodes + [i])
  {
  }

  /** node(), and what asking again would say. */
  method FindNode(g: Graph, at: Point, layer: string) returns (i: nat)
    requires g.Valid()
    modifies g`points, g`cells
    ensures g.Valid() && old(g.points) <= g.points && Near(g.points, g.dist, g.tol, at, layer, i)
    ensures Look(g.cells, g.points, g.dist, g.tol, at, layer) == i
    ensures var found := Look(old(g.cells), old(g.points), g.dist, g.tol, at, layer); found >= 0 ==> i == found
  {
    PlaceReuses(g.cells, g.points, g.edges, g.dist, g.tol, at, layer);
    PlaceAgain(g.cells, g.points, g.edges, g.dist, g.tol, at, layer);
    hide GraphOk, Near, Look;
    i := g.AddNode(at, layer);
  }

  method NodesAt(g: Graph, at: Point, layers: seq<string>) returns (nodes: seq<nat>)
    requires g.Valid()
    modifies g`points, g`cells
    ensures g.Valid() && old(g.points) <= g.points
    ensures |nodes| == |layers| && NodesOn(g.points, g.dist, g.tol, at, layers, nodes)
  {
    hide GraphOk, Near, Look;
    nodes := [];
    while |nodes| < |layers|
      invariant g.Valid() && old(g.points) <= g.points && NodesOn(g.points, g.dist, g.tol, at, layers, nodes)
      invariant nodes != [] ==> Look(g.cells, g.points, g.dist, g.tol, at, layers[|nodes| - 1]) == nodes[|nodes| - 1]
      decreases |layers| - |nodes|
    {
      hide NodesOn;
      ghost var points := g.points;
      var i := FindNode(g, at, layers[|nodes|]);
      OneMoreNode(points, g.points, g.dist, g.tol, at, layers, nodes, i);
      nodes := nodes + [i];
    }
  }

  /** A via's nodes, one on each layer it spans, each joined to the next by an edge of no length. */
  method LayVia(g: Graph, v: Via, copper: seq<string>, ghost done: seq<Copper>, ghost before: seq<seq<nat>>, ghost m: nat)
    returns (ghost chains: seq<seq<nat>>)
    requires g.Valid() && Built(g.edges, g.points, g.dist, g.tol, done, before, m)
    modifies g`points, g`cells, g`edges
    ensures g.Valid() && old(g.points) <= g.points
    ensures Built(g.edges, g.points, g.dist, g.tol, done + [Barrel(v.at, Spanned(v, copper))], chains, m)
  {
    hide GraphOk, Built, Near, ChainJoined;
    var spanned := Spanned(v, copper);
    ghost var points := g.points;
    var nodes := NodesAt(g, v.at, spanned);
    BuiltStays(g.edges, points, g.points, g.dist, g.tol, done, before, m);
    ghost var barrel, edges := Barrel(v.at, spanned), g.edges;
    NodesFit(g.points, g.dist, g.tol, v.at, spanned, nodes, m);
    OneMoreBuilt(g.edges, g.points, g.dist, g.tol, done, before, barrel, nodes, m);
    JoinLayers(g, v.at, spanned, nodes, m);
    chains := before + [nodes];
  }

  lemma NodesFit(points: seq<Node>, dist: Metric, tol: real, at: Point, layers: seq<string>, nodes: seq<nat>, m: nat)
    requires tol > 0.0 && NodesOn(points, dist, tol, at, layers, nodes) && |nodes| == |layers|
    ensures ChainFits(points, dist, tol, Barrel(at, layers), m, nodes)
  {
  }

  method JoinLayers(g: Graph, ghost at: Point, layers: seq<string>, nodes: seq<nat>, ghost m: nat)
    requires g.Valid() && |nodes| == |layers| && ChainFits(g.points, g.dist, g.tol, Barrel(at, layers), m, nodes)
    modifies g`edges
    ensures g.Valid()
    ensures g.edges == ChainJoined(old(g.edges), g.points, g.dist, Barrel(at, layers), nodes, |nodes|)
  {
    hide GraphOk, ChainFits, EdgeFits, Joined;
    ghost var barrel := Barrel(at, layers);
    var i := 0;
    while i < |nodes| - 1
      invariant 0 <= i && (i < |nodes| || (i == 0 && nodes == [])) && g.Valid()
      invariant nodes != [] ==> g.edges == ChainJoined(old(g.edges), g.points, g.dist, barrel, nodes, i + 1)
      invariant nodes == [] ==> g.edges == old(g.edges)
    {
      if nodes[i] != nodes[i + 1] {
        LinkFits(g.points, g.dist, g.tol, barrel, m, nodes, i + 1);
      }
      g.Connect(nodes[i], nodes[i + 1], 0.0, layers[i], true);
      i := i + 1;
    }
  }

  method LayVias(g: Graph, vias: seq<Via>, net: string, copper: seq<string>, ghost done: seq<Copper>, ghost before: seq<seq<nat>>, ghost m: nat)
    returns (ghost chains: seq<seq<nat>>)
    requires g.Valid() && Built(g.edges, g.points, g.dist, g.tol, done, before, m)
    modifies g`points, g`cells, g`edges
    ensures g.Valid() && old(g.points) <= g.points
    ensures Built(g.edges, g.points, g.dist, g.tol, done + Barrels(vias, net, copper), chains, m)
  {
    hide GraphOk, Built, Spanned;
    chains := before;
    var j := 0;
    assert done + Barrels(vias[..0], net, copper) == done;
    while j < |vias|
      invariant 0 <= j <= |vias| && g.Valid() && old(g.points) <= g.points
      invariant Built(g.edges, g.points, g.dist, g.tol, done + Barrels(vias[..j], net, copper), chains, m)
    {
      assert vias[..j + 1][..j] == vias[..j];
      ghost var laid := Barrels(vias[..j], net, copper);
      if vias[j].net == net {
        chains := LayVia(g, vias[j], copper, done + laid, chains, m);
        ghost var more := [Barrel(vias[j].at, Spanned(vias[j], copper))];
        assert done + laid + more == done + (laid + more);
      } else {
        assert laid + [] == laid;
      }
      j := j + 1;
    }
    assert vias[..j] == vias;
  }

  // ---------- pass two: pours ----------

  /** What is kept of a pour: its bounding box and its node. */
  datatype PourNode = PourNode(zone: nat, box: Box, node: nat)

  ghost predicate PoursKnown(points: seq<Node>, dist: Metric, tol: real, zones: seq<Zone>, ids: seq<nat>, pours: seq<PourNode>) {
    && |pours| == |ids|
    && forall k :: 0 <= k < |pours| ==> pours[k].zone == ids[k] && PourKnown(points, dist, tol, zones, pours[k])
  }

  ghost predicate PourKnown(points: seq<Node>, dist: Metric, tol: real, zones: seq<Zone>, p: PourNode) {
    && p.zone < |zones| && zones[p.zone].ring != []
    && p.box == BoxOf(zones[p.zone].ring)
    && Near(points, dist, tol, Centroid(zones[p.zone].ring), PourLayer(zones[p.zone].layer), p.node)
  }

  lemma PoursStay(points: seq<Node>, points': seq<Node>, dist: Metric, tol: real, zones: seq<Zone>, ids: seq<nat>, pours: seq<PourNode>)
    requires PoursKnown(points, dist, tol, zones, ids, pours) && points <= points'
    ensures PoursKnown(points', dist, tol, zones, ids, pours)
  {
  }

  lemma OneMorePour(points: seq<Node>, points': seq<Node>, dist: Metric, tol: real, zones: seq<Zone>, ids: seq<nat>,
                    pours: seq<PourNode>, p: PourNode)
    requires PoursKnown(points, dist, tol, zones, ids, pours) && points <= points'
    requires PourKnown(points', dist, tol, zones, p)
    ensures PoursKnown(points', dist, tol, zones, ids + [p.zone], pours + [p])
  {
  }

  /** A node for every pour, at its centroid on a layer of its own. */
  method PlacePours(g: Graph, zones: seq<Zone>, net: string, ghost done: seq<Copper>, ghost chains: seq<seq<nat>>, ghost m: nat)
    returns (pours: seq<PourNode>)
    requires g.Valid() && Built(g.edges, g.points, g.dist, g.tol, done, chains, m)
    modifies g`points, g`cells
    ensures g.Valid() && old(g.points) <= g.points && Built(g.edges, g.points, g.dist, g.tol, done, chains, m)
    ensures PoursKnown(g.points, g.dist, g.tol, zones, PourIndices(zones, net), pours)
  {
    hide GraphOk, Built, Near, Look, BoxOf, Centroid;
    pours := [];
    var j := 0;
    while j < |zones|
      invariant 0 <= j <= |zones|
      invariant g.Valid() && old(g.points) <= g.points && Built(g.edges, g.points, g.dist, g.tol, done, chains, m)
      invariant PoursKnown(g.points, g.dist, g.tol, zones, PourIndices(zones[..j], net), pours)
    {
      hide PoursKnown;
      assert zones[..j + 1][..j] == zones[..j];
      if IsPour(zones[j], net) {
        ghost var points := g.points;
        var i := FindNode(g, Centroid(zones[j].ring), PourLayer(zones[j].layer));
        var p := PourNode(j, BoxOf(zones[j].ring), i);
        BuiltStays(g.edges, points, g.points, g.dist, g.tol, done, chains, m);
        OneMorePour(points, g.points, g.dist, g.tol, zones, PourIndices(zones[..j], net), pours, p);
        pours := pours + [p];
      } else {
        assert PourIndices(zones[..j], net) + [] == PourIndices(zones[..j], net);
      }
      j := j + 1;
    }
    assert zones[..j] == zones;
  }

  /** The pad's own node joined to the pour's. */
  method JoinPour(g: Graph, at: Point, layer: string, centre: Point, node: nat, ghost done: seq<Copper>, ghost before: seq<seq<nat>>,
                  ghost m: nat) returns (ghost chains: seq<seq<nat>>)
    requires g.Valid() && Built(g.edges, g.points, g.dist, g.tol, done, before, m)
    requires Near(g.points, g.dist, g.tol, centre, PourLayer(layer), node)
    modifies g`points, g`cells, g`edges
    ensures g.Valid() && old(g.points) <= g.points
    ensures Built(g.edges, g.points, g.dist, g.tol, done + [Pour(at, layer, centre)], chains, m)
  {
    hide GraphOk, Built, EdgeFits, Near, Joined, Look, PourLayer, ChainJoined;
    ghost var points, pour := g.points, Pour(at, layer, centre);
    var a := FindNode(g, at, layer);
    BuiltStays(g.edges, points, g.points, g.dist, g.tol, done, before, m);
    NearStays(points, g.points, g.dist, g.tol, centre, PourLayer(layer), node);
    PourFits(g.points, g.dist, g.tol, pour, m, a, node);
    PourJoins(g.edges, g.points, g.dist, pour, a, node);
    OneMoreBuilt(g.edges, g.points, g.dist, g.tol, done, before, pour, [a, node], m);
    g.Connect(a, node, 0.0, layer, false);
    chains := before + [[a, node]];
  }

  lemma PourFits(points: seq<Node>, dist: Metric, tol: real, c: Copper, m: nat, a: nat, b: nat)
    requires tol > 0.0 && c.Pour? && Near(points, dist, tol, c.at, c.layer, a) && Near(points, dist, tol, c.centre, PourLayer(c.layer), b)
    ensures a != b && EdgeFits(points, dist, a, Edge(b, 0.0, c.layer, false)) && ChainFits(points, dist, tol, c, m, [a, b])
  {
  }

  lemma PourJoins(g: Edges, points: seq<Node>, dist: Metric, c: Copper, a: nat, b: nat)
    requires c.Pour? && a < |points| && b < |points| && a != b
    ensures ChainJoined(g, points, dist, c, [a, b], 2) == Joined(g, a, Edge(b, 0.0, c.layer, false))
  {
    hide Joined;
    assert ChainJoined(g, points, dist, c, [a, b], 1) == g;
  }

  method JoinPours(g: Graph, pad: Pad, layer: string, zones: seq<Zone>, pours: seq<PourNode>, ghost ids: seq<nat>,
                   ghost done: seq<Copper>, ghost before: seq<seq<nat>>, ghost m: nat) returns (ghost chains: seq<seq<nat>>)
    requires g.Valid() && Built(g.edges, g.points, g.dist, g.tol, done, before, m)
    requires (forall i :: i in ids ==> i < |zones|) && PoursKnown(g.points, g.dist, g.tol, zones, ids, pours)
    modifies g`points, g`cells, g`edges
    ensures g.Valid() && old(g.points) <= g.points && PoursKnown(g.points, g.dist, g.tol, zones, ids, pours)
    ensures Built(g.edges, g.points, g.dist, g.tol, done + PoursOn(pad, layer, zones, ids), chains, m)
  {
    hide GraphOk, Built, Near, BoxOf, Centroid, EvenOdd.Inside, InBox;
    var k := 0;
    chains := before;
    assert done + PoursOn(pad, layer, zones, ids[..0]) == done;
    while k < |pours|
      invariant 0 <= k <= |pours|
      invariant g.Valid() && old(g.points) <= g.points && PoursKnown(g.points, g.dist, g.tol, zones, ids, pours)
      invariant Built(g.edges, g.points, g.dist, g.tol, done + PoursOn(pad, layer, zones, ids[..k]), chains, m)
    {
      assert ids[..k + 1][..k] == ids[..k];
      ghost var laid := PoursOn(pad, layer, zones, ids[..k]);
      var z := zones[pours[k].zone];
      var inside := InPour(pad.at, z.ring, pours[k].box);
      if z.layer == layer && inside {
        ghost var points := g.points;
        chains := JoinPour(g, pad.at, layer, Centroid(z.ring), pours[k].node, done + laid, chains, m);
        PoursStay(points, g.points, g.dist, g.tol, zones, ids, pours);
        assert done + laid + [Pour(pad.at, layer, Centroid(z.ring))] == done + (laid + [Pour(pad.at, layer, Centroid(z.ring))]);
      } else {
        assert laid + [] == laid;
      }
      k := k + 1;
    }
    assert ids[..k] == ids;
  }

  /** The box first, the even-odd rule only when the box does not rule the point out. */
  method InPour(at: Point, ring: Ring, box: Box) returns (inside: bool)
    requires ring != [] && box == BoxOf(ring)
    ensures inside == EvenOdd.Inside(at.0, at.1, ring)
  {
    if !InBox(box, at) {
      if EvenOdd.Inside(at.0, at.1, ring) {
        InsideInBox(ring, at);
      }
      return false;
    }
    inside := EvenOdd.PointInRing(at.0, at.1, ring);
  }

  method JoinPad(g: Graph, pad: Pad, copper: seq<string>, zones: seq<Zone>, pours: seq<PourNode>, ghost ids: seq<nat>,
                 ghost done: seq<Copper>, ghost before: seq<seq<nat>>, ghost m: nat) returns (ghost chains: seq<seq<nat>>)
    requires g.Valid() && Built(g.edges, g.points, g.dist, g.tol, done, before, m)
    requires (forall i :: i in ids ==> i < |zones|) && PoursKnown(g.points, g.dist, g.tol, zones, ids, pours)
    modifies g`points, g`cells, g`edges
    ensures g.Valid() && old(g.points) <= g.points && PoursKnown(g.points, g.dist, g.tol, zones, ids, pours)
    ensures Built(g.edges, g.points, g.dist, g.tol, done + PadPours(pad, PadLayers(pad, copper), zones, ids), chains, m)
  {
    hide GraphOk, Built, PoursKnown, PoursOn;
    var layers := PadLayers(pad, copper);
    var k := 0;
    chains := before;
    assert done + PadPours(pad, layers[..0], zones, ids) == done;
    while k < |layers|
      invariant 0 <= k <= |layers|
      invariant g.Valid() && old(g.points) <= g.points && PoursKnown(g.points, g.dist, g.tol, zones, ids, pours)
      invariant Built(g.edges, g.points, g.dist, g.tol, done + PadPours(pad, layers[..k], zones, ids), chains, m)
    {
      assert layers[..k + 1][..k] == layers[..k];
      ghost var laid := PadPours(pad, layers[..k], zones, ids);
      chains := JoinPours(g, pad, layers[k], zones, pours, ids, done + laid, chains, m);
      assert done + laid + PoursOn(pad, layers[k], zones, ids) == done + (laid + PoursOn(pad, layers[k], zones, ids));
      k := k + 1;
    }
    assert layers[..k] == layers;
  }

  /** A pad of the net as it is looked for: its key, place and layers. */
  datatype PadPlace = PadPlace(key: string, at: Point, layers: seq<string>)

  /** The net's pads, in board order. */
  function PadsOf(pads: seq<Pad>, net: string, copper: seq<string>): (r: seq<PadPlace>) {
    if pads == [] then []
    else
      var n := |pads| - 1;
      PadsOf(pads[..n], net, copper)
        + if pads[n].net == net then [PadPlace(KeyOfPad(pads[n]), pads[n].at, SoughtOn(pads[n], copper))] else []
  }

  method JoinPads(g: Graph, b: Board, net: string, pours: seq<PourNode>, ghost ids: seq<nat>, ghost done: seq<Copper>,
                  ghost before: seq<seq<nat>>, ghost m: nat) returns (places: seq<PadPlace>, ghost chains: seq<seq<nat>>)
    requires g.Valid() && Built(g.edges, g.points, g.dist, g.tol, done, before, m)
    requires (forall i :: i in ids ==> i < |b.zones|) && PoursKnown(g.points, g.dist, g.tol, b.zones, ids, pours)
    modifies g`points, g`cells, g`edges
    ensures g.Valid() && old(g.points) <= g.points
    ensures Built(g.edges, g.points, g.dist, g.tol, done + AllPours(b.pads, b.zones, ids, net, b.copper), chains, m)
    ensures places == PadsOf(b.pads, net, b.copper)
  {
    hide GraphOk, Built, PoursKnown, PadPours, PadLayers, SoughtOn, KeyOfPad;
    var j := 0;
    places, chains := [], before;
    assert done + AllPours(b.pads[..0], b.zones, ids, net, b.copper) == done;
    while j < |b.pads|
      invariant 0 <= j <= |b.pads| && places == PadsOf(b.pads[..j], net, b.copper)
      invariant g.Valid() && old(g.points) <= g.points && PoursKnown(g.points, g.dist, g.tol, b.zones, ids, pours)
      invariant Built(g.edges, g.points, g.dist, g.tol, done + AllPours(b.pads[..j], b.zones, ids, net, b.copper), chains, m)
    {
      var pad := b.pads[j];
      assert b.pads[..j + 1][..j] == b.pads[..j];
      ghost var laid := AllPours(b.pads[..j], b.zones, ids, net, b.copper);
      if pad.net == net {
        places := places + [PadPlace(KeyOfPad(pad), pad.at, SoughtOn(pad, b.copper))];
        chains := JoinPad(g, pad, b.copper, b.zones, pours, ids, done + laid, chains, m);
        ghost var more := PadPours(pad, PadLayers(pad, b.copper), b.zones, ids);
        assert done + laid + more == done + (laid + more);
      } else {
        assert laid + [] == laid;
      }
      j := j + 1;
    }
    assert b.pads[..j] == b.pads;
  }

  /** The graph is what building the net makes of the board: its first m nodes those put at the
      spots, its edges those of all the net's copper laid along fitting chains. */
  ghost predicate IsNetGraph(b: Board, net: string, dist: Metric, tol: real, cells: Cells, points: seq<Node>, g: Edges,
                             chains: seq<seq<nat>>, m: nat) {
    && GraphOk(cells, points, g, dist, tol)
    && m <= |points| && Placed(points[..m], dist, tol, SpotsOf(b, net)) && Built(g, points, dist, tol, CopperOf(b, net), chains, m)
  }

  /** build() for one net. The first m nodes are those put at the spots of the net before any copper
      is laid; then the edges are those of the net's copper laid piece by piece, each segment along
      all of those m nodes that lie on it, and no others. */
  method BuildNet(b: Board, net: string, tol: real, dist: Metric)
    returns (g: Graph, places: seq<PadPlace>, ghost chains: seq<seq<nat>>, ghost m: nat)
    requires tol > 0.0 && IsEuclid(dist)
    ensures fresh(g) && g.Valid() && g.tol == tol && g.dist == dist
    ensures IsNetGraph(b, net, dist, tol, g.cells, g.points, g.edges, chains, m)
    ensures places == PadsOf(b.pads, net, b.copper)
  {
    hide IsEuclid;
    g := new Graph(tol, dist);
    hide GraphOk, Placed, SpotsOf, PoursKnown, Built, AllOccupied;
    PlaceAll(g, b, net);
    m := |g.points|;
    ghost var spots := g.points;
    TracksPlaced(g.points, dist, tol, b, net);
    chains := LayTracks(g, b.tracks, net);
    ghost var done := Lines(b.tracks, net);
    chains := LayVias(g, b.vias, net, b.copper, done, chains, m);
    done := done + Barrels(b.vias, net, b.copper);
    var pours := PlacePours(g, b.zones, net, done, chains, m);
    places, chains := JoinPads(g, b, net, pours, PourIndices(b.zones, net), done, chains, m);
    assert g.points[..m] == spots;
  }

  lemma TracksPlaced(points: seq<Node>, dist: Metric, tol: real, b: Board, net: string)
    requires Placed(points, dist, tol, SpotsOf(b, net))
    ensures AllOccupied(points, dist, tol, TrackSpots(b.tracks, net))
  {
    hide Occupied;
    var spots := TrackSpots(b.tracks, net);
    forall k | 0 <= k < |spots| ensures Occupied(points, dist, tol, spots[k]) {
      assert SpotsOf(b, net)[k] == spots[k];
    }
  }
}
