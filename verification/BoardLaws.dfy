/** What the graph of a net says of the board (worker/emi_worker/topology.py): which places have a node,
    and which pieces of copper join two of them. */
module BoardLaws {
  import opened Numbers
  import opened Geometry
  import opened Dijkstra
  import opened Graphs
  import opened Build
  import Sampling
  import Pours
  import EvenOdd

  // ---------- which pieces of copper there are ----------

  ghost predicate OfTrack(tracks: seq<Track>, net: string, j: nat, i: nat, c: Copper) {
    && j < |tracks| && tracks[j].net == net && i + 1 < |tracks[j].pts|
    && c == Line(tracks[j].pts[i], tracks[j].pts[i + 1], tracks[j].layer)
  }

  ghost predicate OfSegment(t: Track, i: nat, c: Copper) {
    i + 1 < |t.pts| && c == Line(t.pts[i], t.pts[i + 1], t.layer)
  }

  lemma InTrackLines(t: Track, c: Copper)
    ensures c in TrackLines(t, Segments(t)) <==> exists i: nat :: OfSegment(t, i, c)
  {
    if i: nat :| OfSegment(t, i, c) {
      assert TrackLines(t, Segments(t))[i] == c;
    }
    if i :| 0 <= i < Segments(t) && TrackLines(t, Segments(t))[i] == c {
      assert OfSegment(t, i, c);
    }
  }

  lemma {:induction false} InLines(tracks: seq<Track>, net: string, c: Copper)
    ensures c in Lines(tracks, net) <==> exists j: nat, i: nat :: OfTrack(tracks, net, j, i, c)
  {
    if tracks != [] {
      var n := |tracks| - 1;
      var t, front := tracks[n], tracks[..n];
      InLines(front, net, c);
      InTrackLines(t, c);
      hide TrackLines, Segments;
      if j: nat, i: nat :| OfTrack(front, net, j, i, c) {
        assert OfTrack(tracks, net, j, i, c);
      }
      if j: nat, i: nat :| OfTrack(tracks, net, j, i, c) {
        assert if j < n then OfTrack(front, net, j, i, c) else OfSegment(t, i, c);
      }
      if t.net == net {
        if i: nat :| OfSegment(t, i, c) {
          assert OfTrack(tracks, net, n, i, c);
        }
      }
    }
  }

  ghost predicate OfVia(vias: seq<Via>, net: string, copper: seq<string>, j: nat, c: Copper) {
    j < |vias| && vias[j].net == net && c == Barrel(vias[j].at, Spanned(vias[j], copper))
  }

  lemma {:induction false} InBarrels(vias: seq<Via>, net: string, copper: seq<string>, c: Copper)
    ensures c in Barrels(vias, net, copper) <==> exists j: nat :: OfVia(vias, net, copper, j, c)
  {
    hide Spanned;
    if vias != [] {
      var n := |vias| - 1;
      var front := vias[..n];
      InBarrels(front, net, copper, c);
      if j: nat :| OfVia(front, net, copper, j, c) {
        assert OfVia(vias, net, copper, j, c);
      }
      if j: nat :| OfVia(vias, net, copper, j, c) {
        assert j < n ==> OfVia(front, net, copper, j, c);
      }
      if vias[n].net == net && c == Barrel(vias[n].at, Spanned(vias[n], copper)) {
        assert OfVia(vias, net, copper, n, c);
      }
    }
  }

  /** The pad is on the layer: one it names, or any copper layer for a through pad that names none of them. */
  ghost predicate IsOn(pad: Pad, copper: seq<string>, l: string) {
    l in copper && (l in pad.layers || (pad.through && forall k :: 0 <= k < |pad.layers| ==> pad.layers[k] !in copper))
  }

  lemma OnPadLayers(pad: Pad, copper: seq<string>, l: string)
    ensures l in PadLayers(pad, copper) <==> IsOn(pad, copper, l)
  {
    var among := Among(pad.layers, copper);
    assert among != [] ==> among[0] in among;
    if k :| 0 <= k < |pad.layers| && pad.layers[k] in copper {
      assert pad.layers[k] in among;
    }
  }

  /** The pad is inside the ring of a pour of its net, on a layer that the pad is on. */
  ghost predicate Poured(b: Board, net: string, j: nat, z: nat) {
    && j < |b.pads| && b.pads[j].net == net && z < |b.zones| && b.zones[z].net == net && b.zones[z].ring != []
    && IsOn(b.pads[j], b.copper, b.zones[z].layer)
    && EvenOdd.Inside(b.pads[j].at.0, b.pads[j].at.1, b.zones[z].ring)
  }

  lemma {:induction false} InPourIndices(zones: seq<Zone>, net: string, z: nat)
    ensures z in PourIndices(zones, net) <==> z < |zones| && zones[z].net == net && zones[z].ring != []
  {
    if zones != [] {
      InPourIndices(zones[..|zones| - 1], net, z);
    }
  }

  ghost predicate OfZone(pad: Pad, layer: string, zones: seq<Zone>, z: nat, c: Copper) {
    && z < |zones| && zones[z].layer == layer && EvenOdd.Inside(pad.at.0, pad.at.1, zones[z].ring)
    && c == Pour(pad.at, layer, Centroid(zones[z].ring))
  }

  lemma {:induction false} InPoursOn(pad: Pad, layer: string, zones: seq<Zone>, ids: seq<nat>, c: Copper)
    requires forall i :: i in ids ==> i < |zones|
    ensures c in PoursOn(pad, layer, zones, ids) <==> exists z :: z in ids && OfZone(pad, layer, zones, z, c)
  {
    hide EvenOdd.Inside, Centroid;
    if ids != [] {
      var n := |ids| - 1;
      assert ids[n] in ids && forall i :: i in ids[..n] ==> i in ids;
      assert forall i :: i in ids ==> i in ids[..n] || i == ids[n];
      InPoursOn(pad, layer, zones, ids[..n], c);
    }
  }

  lemma {:induction false} InPadPours(pad: Pad, layers: seq<string>, zones: seq<Zone>, ids: seq<nat>, c: Copper)
    requires forall i :: i in ids ==> i < |zones|
    ensures c in PadPours(pad, layers, zones, ids) <==> exists z :: z in ids && zones[z].layer in layers && OfZone(pad, zones[z].layer, zones, z, c)
  {
    hide OfZone, PoursOn;
    if layers != [] {
      var n := |layers| - 1;
      InPoursOn(pad, layers[n], zones, ids, c);
      InPadPours(pad, layers[..n], zones, ids, c);
      assert forall l :: l in layers <==> l in layers[..n] || l == layers[n];
      OfItsLayer(pad, layers[n], zones, ids, c);
    }
  }

  lemma OfItsLayer(pad: Pad, layer: string, zones: seq<Zone>, ids: seq<nat>, c: Copper)
    requires forall i :: i in ids ==> i < |zones|
    ensures forall z :: z in ids && OfZone(pad, layer, zones, z, c) ==> zones[z].layer == layer
  {
  }

  ghost predicate OfPad(pads: seq<Pad>, zones: seq<Zone>, ids: seq<nat>, net: string, copper: seq<string>, j: nat, c: Copper)
    requires forall i :: i in ids ==> i < |zones|
  {
    j < |pads| && pads[j].net == net && c in PadPours(pads[j], PadLayers(pads[j], copper), zones, ids)
  }

  lemma {:induction false} InAllPours(pads: seq<Pad>, zones: seq<Zone>, ids: seq<nat>, net: string, copper: seq<string>, c: Copper)
    requires forall i :: i in ids ==> i < |zones|
    ensures c in AllPours(pads, zones, ids, net, copper) <==> exists j: nat :: OfPad(pads, zones, ids, net, copper, j, c)
  {
    hide PadPours, PadLayers;
    if pads != [] {
      var n := |pads| - 1;
      var front := pads[..n];
      InAllPours(front, zones, ids, net, copper, c);
      if j: nat :| OfPad(front, zones, ids, net, copper, j, c) {
        assert OfPad(pads, zones, ids, net, copper, j, c);
      }
      if j: nat :| OfPad(pads, zones, ids, net, copper, j, c) {
        assert j < n ==> OfPad(front, zones, ids, net, copper, j, c);
      }
      if pads[n].net == net && c in PadPours(pads[n], PadLayers(pads[n], copper), zones, ids) {
        assert OfPad(pads, zones, ids, net, copper, n, c);
      }
    }
  }

  ghost predicate IsPouredPiece(b: Board, net: string, j: nat, z: nat, c: Copper) {
    Poured(b, net, j, z) && c == Pour(b.pads[j].at, b.zones[z].layer, Centroid(b.zones[z].ring))
  }

  ghost predicate FromTrack(b: Board, net: string, c: Copper) {
    exists j: nat, i: nat :: OfTrack(b.tracks, net, j, i, c)
  }

  ghost predicate FromVia(b: Board, net: string, c: Copper) {
    exists j: nat :: OfVia(b.vias, net, b.copper, j, c)
  }

  ghost predicate FromPour(b: Board, net: string, c: Copper) {
    exists j: nat, z: nat :: IsPouredPiece(b, net, j, z, c)
  }

  lemma FromEach(b: Board, net: string, c: Copper)
    ensures c in Lines(b.tracks, net) <==> FromTrack(b, net, c)
    ensures c in Barrels(b.vias, net, b.copper) <==> FromVia(b, net, c)
    ensures c in AllPours(b.pads, b.zones, PourIndices(b.zones, net), net, b.copper) <==> FromPour(b, net, c)
  {
    hide Lines, Barrels, AllPours, PourIndices, OfTrack, OfVia, OfPad, IsPouredPiece;
    InLines(b.tracks, net, c);
    InBarrels(b.vias, net, b.copper, c);
    InAllPours(b.pads, b.zones, PourIndices(b.zones, net), net, b.copper, c);
    PouredPieces(b, net, c);
  }

  /** The pieces of copper of a net, one by one. */
  lemma InCopper(b: Board, net: string, c: Copper)
    ensures c in CopperOf(b, net) <==> FromTrack(b, net, c) || FromVia(b, net, c) || FromPour(b, net, c)
  {
    hide Lines, Barrels, AllPours, PourIndices, FromTrack, FromVia, FromPour;
    FromEach(b, net, c);
  }

  lemma PouredPieces(b: Board, net: string, c: Copper)
    ensures (exists j: nat :: OfPad(b.pads, b.zones, PourIndices(b.zones, net), net, b.copper, j, c))
       <==> exists j: nat, z: nat :: IsPouredPiece(b, net, j, z, c)
  {
    hide Centroid, EvenOdd.Inside, PadLayers, PadPours, IsOn, PourIndices;
    var ids := PourIndices(b.zones, net);
    if j: nat :| OfPad(b.pads, b.zones, ids, net, b.copper, j, c) {
      InPadPours(b.pads[j], PadLayers(b.pads[j], b.copper), b.zones, ids, c);
      var z :| z in ids && b.zones[z].layer in PadLayers(b.pads[j], b.copper) && OfZone(b.pads[j], b.zones[z].layer, b.zones, z, c);
      OnPadLayers(b.pads[j], b.copper, b.zones[z].layer);
      InPourIndices(b.zones, net, z);
      assert IsPouredPiece(b, net, j, z, c);
    }
    if j: nat, z: nat :| IsPouredPiece(b, net, j, z, c) {
      InPourIndices(b.zones, net, z);
      OnPadLayers(b.pads[j], b.copper, b.zones[z].layer);
      InPadPours(b.pads[j], PadLayers(b.pads[j], b.copper), b.zones, ids, c);
      assert OfZone(b.pads[j], b.zones[z].layer, b.zones, z, c);
      assert OfPad(b.pads, b.zones, ids, net, b.copper, j, c);
    }
  }

  // ---------- vias ----------

  /** The i-th layer a via names is one it joins: a copper layer, or any when none of them is. */
  ghost predicate Spans(v: Via, copper: seq<string>, i: nat) {
    i < |v.layers| && (v.layers[i] in copper || forall k :: 0 <= k < |v.layers| ==> v.layers[k] !in copper)
  }

  /** The i-th and j-th layers of the via are joined and none between them is. */
  ghost predicate Adjoin(v: Via, copper: seq<string>, i: nat, j: nat) {
    i < j && Spans(v, copper, i) && Spans(v, copper, j) && forall k: nat :: i < k < j ==> !Spans(v, copper, k)
  }

  lemma {:induction false} AmongConcat(a: seq<string>, b: seq<string>, copper: seq<string>)
    ensures Among(a + b, copper) == Among(a, copper) + Among(b, copper)
  {
    if a == [] {
      assert a + b == b;
    } else {
      AmongConcat(a[1..], b, copper);
      assert (a + b)[1..] == a[1..] + b;
    }
  }

  /** How many of the layers before the i-th are joined. */
  ghost function Rank(v: Via, copper: seq<string>, i: nat): (k: nat)
    requires i <= |v.layers|
  {
    if Among(v.layers, copper) == [] then i else |Among(v.layers[..i], copper)|
  }

  lemma SpansIff(v: Via, copper: seq<string>, i: nat)
    requires i < |v.layers|
    ensures Spans(v, copper, i) <==> Among(v.layers, copper) == [] || v.layers[i] in copper
  {
    var among := Among(v.layers, copper);
    assert among != [] ==> among[0] in among;
    if k :| 0 <= k < |v.layers| && v.layers[k] in copper {
      assert v.layers[k] in among;
    }
  }

  lemma RankStep(v: Via, copper: seq<string>, i: nat)
    requires i < |v.layers|
    ensures Rank(v, copper, i + 1) == Rank(v, copper, i) + if Spans(v, copper, i) then 1 else 0
  {
    hide Spans;
    SpansIff(v, copper, i);
    assert v.layers[..i + 1] == v.layers[..i] + [v.layers[i]];
    AmongConcat(v.layers[..i], [v.layers[i]], copper);
  }

  lemma {:induction false} RankFrom(v: Via, copper: seq<string>, i: nat, j: nat)
    requires i <= j <= |v.layers|
    ensures Rank(v, copper, i) <= Rank(v, copper, j)
    ensures (forall k: nat :: i <= k < j ==> !Spans(v, copper, k)) ==> Rank(v, copper, i) == Rank(v, copper, j)
  {
    hide Rank, Spans;
    if i < j {
      RankFrom(v, copper, i, j - 1);
      RankStep(v, copper, j - 1);
    }
  }

  lemma RankEnds(v: Via, copper: seq<string>)
    ensures Rank(v, copper, 0) == 0 && Rank(v, copper, |v.layers|) == |Spanned(v, copper)|
  {
    assert v.layers[..|v.layers|] == v.layers;
  }

  /** The i-th layer, when joined, comes at its rank. */
  lemma SpannedAt(v: Via, copper: seq<string>, i: nat)
    requires Spans(v, copper, i)
    ensures var k := Rank(v, copper, i); k < |Spanned(v, copper)| && Spanned(v, copper)[k] == v.layers[i]
  {
    SpansIff(v, copper, i);
    hide Spans;
    if Among(v.layers, copper) != [] {
      assert v.layers == v.layers[..i] + v.layers[i..];
      AmongConcat(v.layers[..i], v.layers[i..], copper);
    }
  }

  lemma AdjoinRanks(v: Via, copper: seq<string>, i: nat, j: nat)
    requires Adjoin(v, copper, i, j)
    ensures Rank(v, copper, j) == Rank(v, copper, i) + 1
  {
    hide Rank;
    RankStep(v, copper, i);
    RankFrom(v, copper, i + 1, j);
  }

  lemma {:induction false} OfRank(v: Via, copper: seq<string>, k: nat, n: nat) returns (i: nat)
    requires 0 < n <= |v.layers| && k < Rank(v, copper, n)
    ensures Spans(v, copper, i) && Rank(v, copper, i) == k
    decreases n
  {
    hide Rank, Spans;
    RankEnds(v, copper);
    RankStep(v, copper, n - 1);
    if k < Rank(v, copper, n - 1) {
      i := OfRank(v, copper, k, n - 1);
    } else {
      i := n - 1;
    }
  }

  lemma RanksAdjoin(v: Via, copper: seq<string>, k: nat) returns (i: nat, j: nat)
    requires 0 < k < |Spanned(v, copper)|
    ensures Adjoin(v, copper, i, j) && Rank(v, copper, i) == k - 1 && Rank(v, copper, j) == k
  {
    hide Rank, Spanned;
    RankEnds(v, copper);
    i := OfRank(v, copper, k - 1, |v.layers|);
    j := OfRank(v, copper, k, |v.layers|);
    if j <= i {
      RankFrom(v, copper, j, i);
    }
    forall x: nat | i < x < j ensures !Spans(v, copper, x) {
      RankStep(v, copper, i);
      RankFrom(v, copper, i + 1, x);
      RankStep(v, copper, x);
      RankFrom(v, copper, x + 1, j);
    }
  }

  /** An edge each way between the two nodes, or they are one node. */
  ghost predicate Linked(g: Edges, u: nat, w: nat, weight: real, layer: string, via: bool) {
    u == w || (Edge(w, weight, layer, via) in Out(g, u) && Edge(u, weight, layer, via) in Out(g, w))
  }

  lemma PieceLinks(b: Board, net: string, dist: Metric, tol: real, cells: Cells, points: seq<Node>, g: Edges,
                   chains: seq<seq<nat>>, m: nat, p: nat, k: nat)
    requires IsNetGraph(b, net, dist, tol, cells, points, g, chains, m)
    requires p < |CopperOf(b, net)| && 0 < k < |chains[p]|
    ensures Threaded(points, CopperOf(b, net)[p], chains[p])
    ensures var e := Link(points, dist, CopperOf(b, net)[p], chains[p], k);
      Linked(g, chains[p][k - 1], chains[p][k], e.weight, e.layer, e.via)
  {
    hide Link, ChainFits, CopperOf, AllJoined, GraphOk, Placed;
    var cs := CopperOf(b, net);
    var chain := chains[p];
    var e := Link(points, dist, cs[p], chain, k);
    if chain[k - 1] != chain[k] {
      EdgesAreLinks(points, dist, cs, chains, chain[k - 1], e);
      EdgesAreLinks(points, dist, cs, chains, chain[k], Back(chain[k - 1], e));
      assert LinkAt(points, dist, cs[p], chain, k, chain[k - 1], e);
      assert LinkAt(points, dist, cs[p], chain, k, chain[k], Back(chain[k - 1], e));
    }
  }

  /** The nodes are the via's, one for each of its layers, joined from each layer to the next. */
  ghost predicate AreViaNodes(v: Via, copper: seq<string>, dist: Metric, tol: real, points: seq<Node>, g: Edges, nodes: seq<nat>) {
    && |nodes| == |v.layers|
    && (forall i: nat :: Spans(v, copper, i) ==> Near(points, dist, tol, v.at, v.layers[i], nodes[i]))
    && forall i: nat, j: nat :: Adjoin(v, copper, i, j) ==> Linked(g, nodes[i], nodes[j], 0.0, v.layers[i], true)
  }

  lemma BarrelIsThere(b: Board, net: string, j: nat) returns (p: nat)
    requires j < |b.vias| && b.vias[j].net == net
    ensures p < |CopperOf(b, net)| && CopperOf(b, net)[p] == Barrel(b.vias[j].at, Spanned(b.vias[j], b.copper))
  {
    hide CopperOf, Spanned;
    var c := Barrel(b.vias[j].at, Spanned(b.vias[j], b.copper));
    assert OfVia(b.vias, net, b.copper, j, c);
    InCopper(b, net, c);
    p :| 0 <= p < |CopperOf(b, net)| && CopperOf(b, net)[p] == c;
  }

  /** Every via of the net has a node near it on each of its layers, and edges of no length join those
      of one layer and the next. */
  lemma ViaJoins(b: Board, net: string, dist: Metric, tol: real, cells: Cells, points: seq<Node>, g: Edges,
                 chains: seq<seq<nat>>, m: nat, j: nat) returns (nodes: seq<nat>)
    requires IsNetGraph(b, net, dist, tol, cells, points, g, chains, m)
    requires j < |b.vias| && b.vias[j].net == net
    ensures AreViaNodes(b.vias[j], b.copper, dist, tol, points, g, nodes)
  {
    hide CopperOf, AllJoined, GraphOk, Placed, Spans, Rank, Near, Linked, Spanned;
    var v := b.vias[j];
    var p := BarrelIsThere(b, net, j);
    var chain := chains[p];
    assert ChainFits(points, dist, tol, CopperOf(b, net)[p], m, chain);
    nodes := seq(|v.layers|, i requires 0 <= i < |v.layers| => if Spans(v, b.copper, i) && Rank(v, b.copper, i) < |chain| then chain[Rank(v, b.copper, i)] else 0);
    forall i: nat | Spans(v, b.copper, i)
      ensures i < |v.layers| && Rank(v, b.copper, i) < |chain| && nodes[i] == chain[Rank(v, b.copper, i)] && Near(points, dist, tol, v.at, v.layers[i], nodes[i])
    {
      SpannedAt(v, b.copper, i);
      assert i < |v.layers| by { SpansInRange(v, b.copper, i); }
    }
    forall i: nat, k: nat | Adjoin(v, b.copper, i, k) ensures Linked(g, nodes[i], nodes[k], 0.0, v.layers[i], true) {
      AdjoinRanks(v, b.copper, i, k);
      SpannedAt(v, b.copper, i);
      PieceLinks(b, net, dist, tol, cells, points, g, chains, m, p, Rank(v, b.copper, k));
    }
  }

  lemma SpansInRange(v: Via, copper: seq<string>, i: nat)
    requires Spans(v, copper, i)
    ensures i < |v.layers|
  {
  }

  // ---------- walks along copper ----------

  /** Every edge of the walk is part of a via. */
  ghost predicate ByVias(w: Walk) {
    match w
    case At(_) => true
    case Then(u, e) => e.via && ByVias(u)
  }

  /** Between any two layers of the via a walk of via edges, of no length, leads from its node on one to
      its node on the other. */
  lemma {:induction false} ViaWalk(v: Via, copper: seq<string>, dist: Metric, tol: real, points: seq<Node>, g: Edges,
                                   nodes: seq<nat>, i: nat, j: nat) returns (w: Walk)
    requires AreViaNodes(v, copper, dist, tol, points, g, nodes)
    requires Spans(v, copper, i) && Spans(v, copper, j) && i <= j
    ensures IsWalk(g, [nodes[i]], w) && End(w) == nodes[j] && Weight(w) == 0.0 && ByVias(w)
    decreases j
  {
    hide Near;
    if i == j {
      w := At(nodes[i]);
    } else {
      var k := SpannedBefore(v, copper, i, j);
      w := ViaWalk(v, copper, dist, tol, points, g, nodes, i, k);
      assert Linked(g, nodes[k], nodes[j], 0.0, v.layers[k], true);
      if nodes[k] != nodes[j] {
        w := Then(w, Edge(nodes[j], 0.0, v.layers[k], true));
      }
    }
  }

  lemma {:induction false} SpannedBefore(v: Via, copper: seq<string>, i: nat, j: nat) returns (k: nat)
    requires Spans(v, copper, i) && Spans(v, copper, j) && i < j
    ensures i <= k && Adjoin(v, copper, k, j)
    decreases j - i
  {
    hide Spans;
    k := i;
    if x: nat :| i < x < j && Spans(v, copper, x) {
      k := SpannedBefore(v, copper, x, j);
    }
  }

  /** No edge of the walk is part of a via, and all are on the layer. */
  ghost predicate AlongLayer(w: Walk, layer: string) {
    match w
    case At(_) => true
    case Then(u, e) => !e.via && e.layer == layer && AlongLayer(u, layer)
  }

  ghost predicate Visits(w: Walk, x: nat) {
    End(w) == x || (w.Then? && Visits(w.walk, x))
  }

  lemma LineIsThere(b: Board, net: string, j: nat, i: nat) returns (p: nat)
    requires j < |b.tracks| && b.tracks[j].net == net && i + 1 < |b.tracks[j].pts|
    ensures p < |CopperOf(b, net)|
    ensures CopperOf(b, net)[p] == Line(b.tracks[j].pts[i], b.tracks[j].pts[i + 1], b.tracks[j].layer)
  {
    hide CopperOf;
    var t := b.tracks[j];
    var c := Line(t.pts[i], t.pts[i + 1], t.layer);
    assert OfTrack(b.tracks, net, j, i, c);
    InCopper(b, net, c);
    p :| 0 <= p < |CopperOf(b, net)| && CopperOf(b, net)[p] == c;
  }

  lemma LineLink(points: seq<Node>, dist: Metric, c: Copper, chain: seq<nat>, k: nat)
    requires Threaded(points, c, chain) && 0 < k < |chain| && c.Line?
    ensures chain[k - 1] < |points| && chain[k] < |points|
    ensures Link(points, dist, c, chain, k) == Edge(chain[k], dist(points[chain[k - 1]].at, points[chain[k]].at), c.layer, false)
  {
  }

  lemma {:induction false} WalkAlong(b: Board, net: string, dist: Metric, tol: real, cells: Cells, points: seq<Node>, g: Edges,
                                     chains: seq<seq<nat>>, m: nat, p: nat, k: nat) returns (w: Walk)
    requires IsNetGraph(b, net, dist, tol, cells, points, g, chains, m)
    requires p < |CopperOf(b, net)| && k < |chains[p]| && CopperOf(b, net)[p].Line?
    ensures IsWalk(g, [chains[p][0]], w) && End(w) == chains[p][k] && AlongLayer(w, CopperOf(b, net)[p].layer)
    ensures forall i :: 0 <= i <= k ==> Visits(w, chains[p][i])
    decreases k
  {
    hide Link, ChainFits, CopperOf, AllJoined, GraphOk, Placed;
    var chain := chains[p];
    if k == 0 {
      w := At(chain[0]);
    } else {
      w := WalkAlong(b, net, dist, tol, cells, points, g, chains, m, p, k - 1);
      LineLink(points, dist, CopperOf(b, net)[p], chain, k);
      PieceLinks(b, net, dist, tol, cells, points, g, chains, m, p, k);
      if chain[k - 1] != chain[k] {
        w := Then(w, Edge(chain[k], dist(points[chain[k - 1]].at, points[chain[k]].at), CopperOf(b, net)[p].layer, false));
      }
    }
  }

  /** The foot of p on the line through p0 and p1 is q, u of the way along it, and no further than d from p. */
  ghost predicate HasFoot(p: Point, p0: Point, p1: Point, u: real, q: Point, d: real, dist: Metric) {
    && q.0 == p0.0 + (p1.0 - p0.0) * u && q.1 == p0.1 + (p1.1 - p0.1) * u
    && (p.0 - q.0) * (p1.0 - p0.0) + (p.1 - q.1) * (p1.1 - p0.1) == 0.0 && dist(p, q) <= d
  }

  /** The node is beside the segment, within it lengthways and no further from it than sqrt(2) - 1/2
      tolerances. */
  ghost predicate Meets(n: Node, p0: Point, p1: Point, layer: string, dist: Metric, tol: real) {
    n.layer == layer && exists u, q, d :: 0.0 <= u <= 1.0 && 0.0 <= d && Sampling.Reached(d, tol) && HasFoot(n.at, p0, p1, u, q, d, dist)
  }

  lemma FootIsOnSegment(p: Point, p0: Point, p1: Point, u: real, q: Point, d: real, dist: Metric)
    requires IsEuclid(dist) && dist(p0, p1) > 0.0 && 0.0 <= u <= 1.0 && HasFoot(p, p0, p1, u, q, d, dist)
    ensures OnSegment(p, p0, p1, dist(p0, p1), dist, d)
  {
    hide Along, Lerp, IsEuclid;
    LerpIs(p0, p1, u);
    FootIsAlong(p, p0, p1, u, q, d, dist);
    FootIsClose(p, p0, p1, u, q, d, dist);
  }

  lemma FootIsClose(p: Point, p0: Point, p1: Point, u: real, q: Point, d: real, dist: Metric)
    requires HasFoot(p, p0, p1, u, q, d, dist)
    ensures dist(p, Lerp(p0, p1, u)) <= d
  {
    hide Lerp;
    LerpIs(p0, p1, u);
    var l := Lerp(p0, p1, u);
    assert l.0 == q.0 && l.1 == q.1;
  }

  lemma PlusScale(p: Point, d: Point, u: real)
    ensures Plus(p, Scale(d, u)) == (p.0 + d.0 * u, p.1 + d.1 * u)
  {
    var s := Scale(d, u);
    assert s.0 == d.0 * u && s.1 == d.1 * u;
    assert Plus(p, s) == (p.0 + s.0, p.1 + s.1);
  }

  lemma LerpIs(p0: Point, p1: Point, u: real)
    ensures Lerp(p0, p1, u) == (p0.0 + (p1.0 - p0.0) * u, p0.1 + (p1.1 - p0.1) * u)
  {
    hide Plus, Scale;
    PlusScale(p0, Minus(p1, p0), u);
    SameTimes(Minus(p1, p0).0, p1.0 - p0.0, u);
    SameTimes(Minus(p1, p0).1, p1.1 - p0.1, u);
    var q := Plus(p0, Scale(Minus(p1, p0), u));
    assert q.0 == p0.0 + (p1.0 - p0.0) * u;
    assert q.1 == p0.1 + (p1.1 - p0.1) * u;
  }

  lemma FootIsAlong(p: Point, p0: Point, p1: Point, u: real, q: Point, d: real, dist: Metric)
    requires IsEuclid(dist) && dist(p0, p1) > 0.0 && HasFoot(p, p0, p1, u, q, d, dist)
    ensures Along(p, p0, p1, dist(p0, p1)) == u
  {
    hide Along, Dot, Sq, HasFoot, Minus;
    var length := dist(p0, p1);
    assert length * length == Sq(p0, p1);
    LengthPositive(length, Sq(p0, p1));
    AlongTimes(p, p0, p1, length);
    HasFootDot(p, p0, p1, u, q, d, dist);
    SameFactor(Along(p, p0, p1, length), u, Sq(p0, p1));
  }

  lemma LengthPositive(a: real, s: real)
    requires a > 0.0 && a * a == s
    ensures s > 0.0
  {
    SquareLess(0.0, a);
  }

  lemma HasFootDot(p: Point, p0: Point, p1: Point, u: real, q: Point, d: real, dist: Metric)
    requires HasFoot(p, p0, p1, u, q, d, dist)
    ensures Dot(Minus(p, p0), Minus(p1, p0)) == u * Sq(p0, p1)
  {
    var x, y := p1.0 - p0.0, p1.1 - p0.1;
    FootDot(p.0 - p0.0, p.1 - p0.1, p.0 - q.0, p.1 - q.1, x, y, u);
    DotIs(Minus(p, p0), Minus(p1, p0), p.0 - p0.0, p.1 - p0.1, x, y);
    SqIs(p1, p0, x, y);
    SqSymmetric(p0, p1);
  }

  lemma DotIs(a: Point, e: Point, ax: real, ay: real, x: real, y: real)
    requires a == (ax, ay) && e == (x, y)
    ensures Dot(a, e) == ax * x + ay * y
  {
  }

  lemma SqIs(p: Point, q: Point, x: real, y: real)
    requires p.0 - q.0 == x && p.1 - q.1 == y
    ensures Sq(p, q) == x * x + y * y
  {
    SameTimes(p.0 - q.0, x, x);
    SameTimes(p.1 - q.1, y, y);
  }

  lemma SameTimes(a: real, b: real, s: real)
    requires a == b
    ensures a * s == b * s
  {
  }

  lemma FootDot(a: real, b: real, v: real, w: real, x: real, y: real, u: real)
    requires a == v + x * u && b == w + y * u && v * x + w * y == 0.0
    ensures a * x + b * y == u * (x * x + y * y)
  {
    SameTimes(a, v + x * u, x);
    SameTimes(b, w + y * u, y);
  }

  lemma SameFactor(a: real, b: real, s: real)
    requires s > 0.0 && a * s == b * s
    ensures a == b
  {
  }

  /** Each two consecutive points of a track have nodes within the tolerance of them on its layer, and a
      walk of its copper leads from one to the other. */
  lemma TrackJoins(b: Board, net: string, dist: Metric, tol: real, cells: Cells, points: seq<Node>, g: Edges,
                   chains: seq<seq<nat>>, m: nat, j: nat, i: nat) returns (u: nat, w: Walk)
    requires IsNetGraph(b, net, dist, tol, cells, points, g, chains, m)
    requires j < |b.tracks| && b.tracks[j].net == net && i + 1 < |b.tracks[j].pts|
    ensures Near(points, dist, tol, b.tracks[j].pts[i], b.tracks[j].layer, u)
    ensures IsWalk(g, [u], w) && AlongLayer(w, b.tracks[j].layer)
    ensures Near(points, dist, tol, b.tracks[j].pts[i + 1], b.tracks[j].layer, End(w))
    ensures b.tracks[j].pts[i] != b.tracks[j].pts[i + 1] ==> forall x: nat :: (x < m
      && Meets(points[x], b.tracks[j].pts[i], b.tracks[j].pts[i + 1], b.tracks[j].layer, dist, tol)) ==> Visits(w, x)
  {
    hide CopperOf, AllJoined, GraphOk, Placed, Near, Inner, Meets, Visits;
    var t := b.tracks[j];
    var p := LineIsThere(b, net, j, i);
    var chain := chains[p];
    assert ChainFits(points, dist, tol, CopperOf(b, net)[p], m, chain);
    u := chain[0];
    w := WalkAlong(b, net, dist, tol, cells, points, g, chains, m, p, |chain| - 1);
    forall x: nat | x < m && t.pts[i] != t.pts[i + 1] && Meets(points[x], t.pts[i], t.pts[i + 1], t.layer, dist, tol)
      ensures Visits(w, x)
    {
      OfGraph(cells, points, g, dist, tol);
      var k := MetIsOnChain(points, dist, tol, t.pts[i], t.pts[i + 1], t.layer, m, chain, x);
    }
  }

  lemma OfGraph(cells: Cells, points: seq<Node>, g: Edges, dist: Metric, tol: real)
    requires GraphOk(cells, points, g, dist, tol)
    ensures tol > 0.0 && IsEuclid(dist)
  {
  }

  lemma PlacesApart(dist: Metric, p: Point, q: Point)
    requires IsEuclid(dist) && p != q
    ensures dist(p, q) > 0.0
  {
    hide Sq;
    if dist(p, q) == 0.0 {
      SqPositive(p, q);
      assert dist(p, q) * dist(p, q) == Sq(p, q);
    }
  }

  lemma SqPositive(p: Point, q: Point)
    requires p != q
    ensures Sq(p, q) > 0.0
  {
    assert p.0 != q.0 || p.1 != q.1;
    SqIs(p, q, p.0 - q.0, p.1 - q.1);
    SumOfSquares(p.0 - q.0, p.1 - q.1, Sq(p, q));
  }

  lemma SumOfSquares(x: real, y: real, s: real)
    requires s == x * x + y * y && (x != 0.0 || y != 0.0)
    ensures s > 0.0
  {
    if x > 0.0 {
      SquareLess(0.0, x);
    } else if x < 0.0 {
      SquareLess(0.0, -x);
    } else if y > 0.0 {
      SquareLess(0.0, y);
    } else {
      SquareLess(0.0, -y);
    }
    NonNegSquare(x);
    NonNegSquare(y);
  }

  /** A node placed in the first pass that is beside the segment is one of its chain. */
  lemma MetIsOnChain(points: seq<Node>, dist: Metric, tol: real, p0: Point, p1: Point, layer: string, m: nat, chain: seq<nat>, x: nat)
    returns (k: nat)
    requires tol > 0.0 && IsEuclid(dist) && p0 != p1 && ChainFits(points, dist, tol, Line(p0, p1, layer), m, chain)
    requires x < m <= |points| && Meets(points[x], p0, p1, layer, dist, tol)
    ensures k < |chain| && chain[k] == x
  {
    hide Near, Sampled, OnSegment, HasFoot, Sampling.Reached, InOrder, IsEuclid;
    PlacesApart(dist, p0, p1);
    var u, q, d :| 0.0 <= u <= 1.0 && 0.0 <= d && Sampling.Reached(d, tol) && HasFoot(points[x].at, p0, p1, u, q, d, dist);
    FootIsOnSegment(points[x].at, p0, p1, u, q, d, dist);
    Sampling.ReachedIsSampled(points[x].at, p0, p1, dist, d, tol);
    Sampling.ReachedIsClose(d, tol);
    OnSegmentWider(points[x].at, p0, p1, dist, d, tol);
    var inner := chain[1..|chain| - 1];
    if x == chain[0] {
      k := 0;
    } else if x == chain[|chain| - 1] {
      k := |chain| - 1;
    } else {
      assert OnChain(points, dist, tol, p0, p1, layer, x);
      assert x in inner;
      var i :| 0 <= i < |inner| && inner[i] == x;
      k := i + 1;
    }
  }

  lemma OnSegmentWider(p: Point, p0: Point, p1: Point, dist: Metric, d: real, tol: real)
    requires dist(p0, p1) > 0.0 && d <= tol && OnSegment(p, p0, p1, dist(p0, p1), dist, d)
    ensures OnSegment(p, p0, p1, dist(p0, p1), dist, tol)
  {
  }

  // ---------- pours ----------

  /** A pad inside a pour of its net is joined to the node at the mean of the pour's corners, on the
      pour's own layer, by an edge of no length. */
  lemma PourJoinsPad(b: Board, net: string, dist: Metric, tol: real, cells: Cells, points: seq<Node>, g: Edges,
                     chains: seq<seq<nat>>, m: nat, j: nat, z: nat) returns (u: nat, w: nat)
    requires IsNetGraph(b, net, dist, tol, cells, points, g, chains, m) && Poured(b, net, j, z)
    ensures Near(points, dist, tol, b.pads[j].at, b.zones[z].layer, u)
    ensures Near(points, dist, tol, Centroid(b.zones[z].ring), "zone:" + b.zones[z].layer, w)
    ensures Edge(w, 0.0, b.zones[z].layer, false) in Out(g, u) && Edge(u, 0.0, b.zones[z].layer, false) in Out(g, w)
  {
    hide CopperOf, AllJoined, GraphOk, Placed, Centroid, EvenOdd.Inside;
    var c := Pour(b.pads[j].at, b.zones[z].layer, Centroid(b.zones[z].ring));
    assert IsPouredPiece(b, net, j, z, c);
    InCopper(b, net, c);
    var p :| 0 <= p < |CopperOf(b, net)| && CopperOf(b, net)[p] == c;
    assert ChainFits(points, dist, tol, CopperOf(b, net)[p], m, chains[p]);
    u, w := chains[p][0], chains[p][1];
    LayersDiffer(b.zones[z].layer);
    PieceLinks(b, net, dist, tol, cells, points, g, chains, m, p, 1);
  }

  lemma LayersDiffer(layer: string)
    ensures layer != "zone:" + layer
  {
    assert |"zone:" + layer| == |layer| + 5;
  }

  // ---------- no other edges ----------

  /** The edge is one between these two nodes. */
  ghost predicate Between(a: nat, e: Edge, u: nat, w: nat) {
    (a == u && e.to == w) || (a == w && e.to == u)
  }

  lemma EdgeIsOfPiece(b: Board, net: string, dist: Metric, tol: real, cells: Cells, points: seq<Node>, g: Edges,
                      chains: seq<seq<nat>>, m: nat, a: nat, e: Edge) returns (p: nat, k: nat)
    requires IsNetGraph(b, net, dist, tol, cells, points, g, chains, m) && e in Out(g, a)
    ensures p < |CopperOf(b, net)| && 0 < k < |chains[p]| && CopperOf(b, net)[p] in CopperOf(b, net)
    ensures ChainFits(points, dist, tol, CopperOf(b, net)[p], m, chains[p])
    ensures Between(a, e, chains[p][k - 1], chains[p][k]) && chains[p][k - 1] != chains[p][k]
    ensures var f := Link(points, dist, CopperOf(b, net)[p], chains[p], k); e.weight == f.weight && e.layer == f.layer && e.via == f.via
  {
    hide CopperOf, AllJoined, GraphOk, Placed, ChainFits, Link;
    var cs := CopperOf(b, net);
    EdgesAreLinks(points, dist, cs, chains, a, e);
    p, k :| 0 <= p < |cs| && LinkAt(points, dist, cs[p], chains[p], k, a, e);
  }

  lemma BarrelEdge(points: seq<Node>, dist: Metric, tol: real, c: Copper, m: nat, chain: seq<nat>, k: nat)
    requires tol > 0.0 && ChainFits(points, dist, tol, c, m, chain) && 0 < k < |chain|
    ensures Link(points, dist, c, chain, k).via <==> c.Barrel?
    ensures c.Barrel? ==>
      && Link(points, dist, c, chain, k) == Edge(chain[k], 0.0, c.layers[k - 1], true) && k < |c.layers|
      && Near(points, dist, tol, c.at, c.layers[k - 1], chain[k - 1]) && Near(points, dist, tol, c.at, c.layers[k], chain[k])
  {
    hide Near, Inner;
  }

  lemma OfVias(b: Board, net: string, c: Copper) returns (j: nat)
    requires c in CopperOf(b, net) && c.Barrel?
    ensures OfVia(b.vias, net, b.copper, j, c)
  {
    hide CopperOf, OfVia;
    InCopper(b, net, c);
    j :| OfVia(b.vias, net, b.copper, j, c);
  }

  /** Every edge of a via is between two nodes of one of the net's vias, near it on two layers that the
      via joins and none between them. */
  lemma ViaEdge(b: Board, net: string, dist: Metric, tol: real, cells: Cells, points: seq<Node>, g: Edges,
                chains: seq<seq<nat>>, m: nat, a: nat, e: Edge) returns (j: nat, i: nat, k: nat, u: nat, w: nat)
    requires IsNetGraph(b, net, dist, tol, cells, points, g, chains, m) && e in Out(g, a) && e.via
    ensures j < |b.vias| && b.vias[j].net == net && Adjoin(b.vias[j], b.copper, i, k) && k < |b.vias[j].layers|
    ensures Near(points, dist, tol, b.vias[j].at, b.vias[j].layers[i], u) && Near(points, dist, tol, b.vias[j].at, b.vias[j].layers[k], w)
    ensures Between(a, e, u, w) && e.weight == 0.0 && e.layer == b.vias[j].layers[i]
  {
    hide CopperOf, Near, ChainFits, Link, Spanned, AllJoined, GraphOk, Placed, Spans, Rank;
    var p, n := EdgeIsOfPiece(b, net, dist, tol, cells, points, g, chains, m, a, e);
    var c := CopperOf(b, net)[p];
    BarrelEdge(points, dist, tol, c, m, chains[p], n);
    j := OfVias(b, net, c);
    i, k := RanksAdjoin(b.vias[j], b.copper, n);
    SpannedAt(b.vias[j], b.copper, i);
    SpannedAt(b.vias[j], b.copper, k);
    SpansInRange(b.vias[j], b.copper, k);
    u, w := chains[p][n - 1], chains[p][n];
  }

  lemma OnSegmentHasFoot(p: Point, p0: Point, p1: Point, dist: Metric, d: real) returns (u: real, q: Point)
    requires IsEuclid(dist) && dist(p0, p1) > 0.0 && OnSegment(p, p0, p1, dist(p0, p1), dist, d)
    ensures 0.0 <= u <= 1.0 && HasFoot(p, p0, p1, u, q, d, dist)
  {
    hide Along, Lerp, Sampling.Perpendicular, Sampling.Cos, Sampling.Sin, Minus, Sq;
    var length := dist(p0, p1);
    u := Along(p, p0, p1, length);
    q := Lerp(p0, p1, u);
    LerpIs(p0, p1, u);
    assert length * length == Sq(p0, p1);
    Sampling.FootIsPerpendicular(p, p0, p1, length);
    FromUnit(p, q, p0, p1, length);
  }

  lemma FromUnit(p: Point, q: Point, p0: Point, p1: Point, length: real)
    requires length > 0.0 && Sampling.Perpendicular(Minus(p, q), Sampling.Cos(p0, p1, length), Sampling.Sin(p0, p1, length))
    ensures (p.0 - q.0) * (p1.0 - p0.0) + (p.1 - q.1) * (p1.1 - p0.1) == 0.0
  {
    DivMul(p1.0 - p0.0, length);
    DivMul(p1.1 - p0.1, length);
    DotLonger(p.0 - q.0, p.1 - q.1, Sampling.Cos(p0, p1, length), Sampling.Sin(p0, p1, length), length, p1.0 - p0.0, p1.1 - p0.1);
  }

  lemma DotLonger(v: real, w: real, c: real, s: real, length: real, x: real, y: real)
    requires c * length == x && s * length == y && v * c + w * s == 0.0
    ensures v * x + w * y == 0.0
  {
    assert (v * c + w * s) * length == v * (c * length) + w * (s * length);
  }

  /** The node is within the tolerance of an end of the segment, or beside it and within the tolerance of it. */
  ghost predicate Touches(n: Node, p0: Point, p1: Point, dist: Metric, tol: real) {
    || dist(n.at, p0) <= tol || dist(n.at, p1) <= tol
    || exists u, q :: 0.0 <= u <= 1.0 && HasFoot(n.at, p0, p1, u, q, tol, dist)
  }

  lemma LineEdge(points: seq<Node>, dist: Metric, tol: real, c: Copper, m: nat, chain: seq<nat>, k: nat)
    requires tol > 0.0 && IsEuclid(dist) && c.Line? && ChainFits(points, dist, tol, c, m, chain) && k < |chain|
    ensures chain[k] < |points| && points[chain[k]].layer == c.layer && Touches(points[chain[k]], c.p0, c.p1, dist, tol)
  {
    hide IsEuclid, OnSegment, Sampled, InOrder, HasFoot;
    if 0 < k < |chain| - 1 {
      var inner := chain[1..|chain| - 1];
      assert chain[k] == inner[k - 1];
      assert chain[k] in inner;
      var u, q := OnSegmentHasFoot(points[chain[k]].at, c.p0, c.p1, dist, tol);
    }
  }

  lemma OfTracks(b: Board, net: string, c: Copper) returns (j: nat, i: nat)
    requires c in CopperOf(b, net) && c.Line?
    ensures OfTrack(b.tracks, net, j, i, c)
  {
    hide CopperOf, OfTrack;
    InCopper(b, net, c);
    j, i :| OfTrack(b.tracks, net, j, i, c);
  }

  lemma OfPours(b: Board, net: string, c: Copper) returns (j: nat, z: nat)
    requires c in CopperOf(b, net) && c.Pour?
    ensures IsPouredPiece(b, net, j, z, c)
  {
    hide CopperOf, IsPouredPiece;
    InCopper(b, net, c);
    j, z :| IsPouredPiece(b, net, j, z, c);
  }

  lemma PourEdge(points: seq<Node>, dist: Metric, tol: real, c: Copper, m: nat, chain: seq<nat>, k: nat)
    requires tol > 0.0 && c.Pour? && ChainFits(points, dist, tol, c, m, chain) && 0 < k < |chain|
    ensures Near(points, dist, tol, c.at, c.layer, chain[k - 1]) && Near(points, dist, tol, c.centre, "zone:" + c.layer, chain[k])
    ensures Link(points, dist, c, chain, k) == Edge(chain[k], 0.0, c.layer, false)
  {
    hide Near;
  }

  /** Every other edge between two nodes of one layer is part of one of the net's tracks: it is as long as
      the nodes are apart, and both touch one of the track's segments. */
  lemma TrackEdge(b: Board, net: string, dist: Metric, tol: real, cells: Cells, points: seq<Node>, g: Edges,
                  chains: seq<seq<nat>>, m: nat, a: nat, e: Edge) returns (j: nat, i: nat)
    requires IsNetGraph(b, net, dist, tol, cells, points, g, chains, m) && e in Out(g, a) && !e.via
    requires a < |points| && e.to < |points| && points[a].layer == points[e.to].layer
    ensures j < |b.tracks| && b.tracks[j].net == net && i + 1 < |b.tracks[j].pts|
    ensures b.tracks[j].layer == points[a].layer == e.layer && e.weight == dist(points[a].at, points[e.to].at)
    ensures Touches(points[a], b.tracks[j].pts[i], b.tracks[j].pts[i + 1], dist, tol)
    ensures Touches(points[e.to], b.tracks[j].pts[i], b.tracks[j].pts[i + 1], dist, tol)
  {
    hide CopperOf, ChainFits, Link, AllJoined, GraphOk, Placed, Touches, Near;
    var p, n := EdgeIsOfPiece(b, net, dist, tol, cells, points, g, chains, m, a, e);
    var c := CopperOf(b, net)[p];
    OfGraph(cells, points, g, dist, tol);
    BarrelEdge(points, dist, tol, c, m, chains[p], n);
    if c.Pour? {
      PourEdge(points, dist, tol, c, m, chains[p], n);
      NotOneLayer(points, dist, tol, c.at, c.centre, c.layer, chains[p][n - 1], chains[p][n]);
    }
    LineEdge(points, dist, tol, c, m, chains[p], n - 1);
    LineEdge(points, dist, tol, c, m, chains[p], n);
    LineLink(points, dist, c, chains[p], n);
    DistSymmetric(dist, points[a].at, points[e.to].at);
    j, i := OfTracks(b, net, c);
  }

  lemma NotOneLayer(points: seq<Node>, dist: Metric, tol: real, at: Point, centre: Point, layer: string, u: nat, w: nat)
    requires Near(points, dist, tol, at, layer, u) && Near(points, dist, tol, centre, "zone:" + layer, w)
    ensures u < |points| && w < |points| && points[u].layer != points[w].layer
  {
    LayersDiffer(layer);
  }

  /** Every other edge between nodes of two layers joins a pad to a pour that it is inside of. */
  lemma PouredEdge(b: Board, net: string, dist: Metric, tol: real, cells: Cells, points: seq<Node>, g: Edges,
                   chains: seq<seq<nat>>, m: nat, a: nat, e: Edge) returns (j: nat, z: nat, u: nat, w: nat)
    requires IsNetGraph(b, net, dist, tol, cells, points, g, chains, m) && e in Out(g, a) && !e.via
    requires a < |points| && e.to < |points| && points[a].layer != points[e.to].layer
    ensures Poured(b, net, j, z) && Between(a, e, u, w) && e.weight == 0.0 && e.layer == b.zones[z].layer
    ensures Near(points, dist, tol, b.pads[j].at, b.zones[z].layer, u)
    ensures Near(points, dist, tol, Centroid(b.zones[z].ring), "zone:" + b.zones[z].layer, w)
  {
    hide CopperOf, ChainFits, Link, AllJoined, GraphOk, Placed, Touches, Near, Poured, Centroid;
    var p, n := EdgeIsOfPiece(b, net, dist, tol, cells, points, g, chains, m, a, e);
    var c := CopperOf(b, net)[p];
    OfGraph(cells, points, g, dist, tol);
    BarrelEdge(points, dist, tol, c, m, chains[p], n);
    if c.Line? {
      LineEdge(points, dist, tol, c, m, chains[p], n - 1);
      LineEdge(points, dist, tol, c, m, chains[p], n);
    }
    PourEdge(points, dist, tol, c, m, chains[p], n);
    j, z := OfPours(b, net, c);
    u, w := chains[p][n - 1], chains[p][n];
  }

  // ---------- the places of nodes ----------

  ghost predicate TrackSpot(tracks: seq<Track>, net: string, j: nat, i: nat, n: Node) {
    && j < |tracks| && tracks[j].net == net && i < |tracks[j].pts| && n == Node(tracks[j].pts[i], tracks[j].layer)
  }

  ghost predicate ViaSpot(vias: seq<Via>, net: string, j: nat, i: nat, n: Node) {
    && j < |vias| && vias[j].net == net && i < |vias[j].layers| && n == Node(vias[j].at, vias[j].layers[i])
  }

  ghost predicate PadSpot(pads: seq<Pad>, net: string, copper: seq<string>, j: nat, n: Node) {
    && j < |pads| && pads[j].net == net && n.at == pads[j].at && n.layer in pads[j].layers && n.layer in copper
  }

  lemma {:induction false} InTrackSpots(tracks: seq<Track>, net: string, n: Node)
    ensures n in TrackSpots(tracks, net) <==> exists j: nat, i: nat :: TrackSpot(tracks, net, j, i, n)
  {
    if tracks != [] {
      var k := |tracks| - 1;
      var t, front := tracks[k], tracks[..k];
      InTrackSpots(front, net, n);
      if j: nat, i: nat :| TrackSpot(front, net, j, i, n) {
        assert TrackSpot(tracks, net, j, i, n);
      }
      if j: nat, i: nat :| TrackSpot(tracks, net, j, i, n) {
        if j < k {
          assert TrackSpot(front, net, j, i, n);
        } else {
          assert Ends(t)[i] == n;
        }
      }
      if t.net == net && n in Ends(t) {
        var i :| 0 <= i < |t.pts| && Ends(t)[i] == n;
        assert TrackSpot(tracks, net, k, i, n);
      }
    }
  }

  lemma {:induction false} InViaSpots(vias: seq<Via>, net: string, n: Node)
    ensures n in ViaSpots(vias, net) <==> exists j: nat, i: nat :: ViaSpot(vias, net, j, i, n)
  {
    if vias != [] {
      var k := |vias| - 1;
      var v, front := vias[k], vias[..k];
      InViaSpots(front, net, n);
      if j: nat, i: nat :| ViaSpot(front, net, j, i, n) {
        assert ViaSpot(vias, net, j, i, n);
      }
      if j: nat, i: nat :| ViaSpot(vias, net, j, i, n) {
        if j < k {
          assert ViaSpot(front, net, j, i, n);
        } else {
          assert OnEach(v.at, v.layers)[i] == n;
        }
      }
      if v.net == net && n in OnEach(v.at, v.layers) {
        var i :| 0 <= i < |v.layers| && OnEach(v.at, v.layers)[i] == n;
        assert ViaSpot(vias, net, k, i, n);
      }
    }
  }

  lemma InOnEach(at: Point, layers: seq<string>, n: Node)
    ensures n in OnEach(at, layers) <==> n.at == at && n.layer in layers
  {
    if i :| 0 <= i < |layers| && layers[i] == n.layer {
      assert OnEach(at, layers)[i] == Node(at, n.layer);
    }
  }

  lemma {:induction false} InPadSpots(pads: seq<Pad>, net: string, copper: seq<string>, n: Node)
    ensures n in PadSpots(pads, net, copper) <==> exists j: nat :: PadSpot(pads, net, copper, j, n)
  {
    if pads != [] {
      var k := |pads| - 1;
      var front := pads[..k];
      InPadSpots(front, net, copper, n);
      InOnEach(pads[k].at, Among(pads[k].layers, copper), n);
      hide Among, OnEach;
      if j: nat :| PadSpot(front, net, copper, j, n) {
        assert PadSpot(pads, net, copper, j, n);
      }
      if j: nat :| PadSpot(pads, net, copper, j, n) {
        assert j < k ==> PadSpot(front, net, copper, j, n);
      }
      if pads[k].net == net && n in OnEach(pads[k].at, Among(pads[k].layers, copper)) {
        assert PadSpot(pads, net, copper, k, n);
      }
    }
  }

  /** A point of a track, a via on a layer it names, or a pad on a copper layer it names, all of the net. */
  ghost predicate IsSpot(b: Board, net: string, n: Node) {
    || (exists j: nat, i: nat :: TrackSpot(b.tracks, net, j, i, n))
    || (exists j: nat, i: nat :: ViaSpot(b.vias, net, j, i, n))
    || (exists j: nat :: PadSpot(b.pads, net, b.copper, j, n))
  }

  lemma InSpots(b: Board, net: string, n: Node)
    ensures n in SpotsOf(b, net) <==> IsSpot(b, net, n)
  {
    hide TrackSpots, ViaSpots, PadSpots, TrackSpot, ViaSpot, PadSpot;
    InTrackSpots(b.tracks, net, n);
    InViaSpots(b.vias, net, n);
    InPadSpots(b.pads, net, b.copper, n);
  }

  /** The nodes there are before any copper is laid are at the net's track points, vias and pads, and
      each of those has one within the tolerance. */
  lemma NodesAreSpots(b: Board, net: string, dist: Metric, tol: real, cells: Cells, points: seq<Node>, g: Edges,
                      chains: seq<seq<nat>>, m: nat)
    requires IsNetGraph(b, net, dist, tol, cells, points, g, chains, m)
    ensures forall x: nat :: x < m ==> IsSpot(b, net, points[x])
    ensures forall n: Node :: IsSpot(b, net, n) ==> exists x: nat :: x < m && Near(points, dist, tol, n.at, n.layer, x)
  {
    hide GraphOk, Built, SpotsOf, IsSpot, Near, Placed;
    forall x: nat | x < m ensures IsSpot(b, net, points[x]) {
      PlacedAtSpot(points, dist, tol, SpotsOf(b, net), m, x);
      InSpots(b, net, points[x]);
    }
    forall n: Node | IsSpot(b, net, n) ensures exists x: nat :: x < m && Near(points, dist, tol, n.at, n.layer, x) {
      InSpots(b, net, n);
      var x := SpotIsPlaced(points, dist, tol, SpotsOf(b, net), m, n);
    }
  }

  lemma PlacedAtSpot(points: seq<Node>, dist: Metric, tol: real, spots: seq<Spot>, m: nat, x: nat)
    requires x < m <= |points| && Placed(points[..m], dist, tol, spots)
    ensures points[x] in spots
  {
    assert points[..m][x] in spots;
  }

  lemma SpotIsPlaced(points: seq<Node>, dist: Metric, tol: real, spots: seq<Spot>, m: nat, n: Node) returns (x: nat)
    requires m <= |points| && Placed(points[..m], dist, tol, spots) && n in spots
    ensures x < m && Near(points, dist, tol, n.at, n.layer, x)
  {
    var k :| 0 <= k < |spots| && spots[k] == n;
    x :| Near(points[..m], dist, tol, n.at, n.layer, x);
  }

  // ---------- the middle of a pour ----------

  lemma {:induction false} SumConcat(xs: seq<real>, ys: seq<real>)
    ensures Sum(xs + ys) == Sum(xs) + Sum(ys)
  {
    if ys == [] {
      assert xs + ys == xs;
    } else {
      SumConcat(xs, ys[..|ys| - 1]);
      assert (xs + ys)[..|xs + ys| - 1] == xs + ys[..|ys| - 1];
    }
  }

  lemma CentroidTimes(ring: Pours.Ring)
    requires ring != []
    ensures Centroid(ring).0 * |ring| as real == Sum(Pours.Xs(ring)) && Centroid(ring).1 * |ring| as real == Sum(Pours.Ys(ring))
  {
    DivMul(Sum(Pours.Xs(ring)), |ring| as real);
    DivMul(Sum(Pours.Ys(ring)), |ring| as real);
  }

  /** The centroid of one corner is that corner, and two rings weigh in that of both by how many corners
      they have: it is the mean of the corners. */
  lemma CentroidIsMean(p: Point, r: Pours.Ring, s: Pours.Ring)
    requires r != [] && s != []
    ensures Centroid([p]) == p
    ensures Centroid(r + s).0 * |r + s| as real == Centroid(r).0 * |r| as real + Centroid(s).0 * |s| as real
    ensures Centroid(r + s).1 * |r + s| as real == Centroid(r).1 * |r| as real + Centroid(s).1 * |s| as real
  {
    CentroidOfOne(p);
    hide Centroid, Sum;
    CentroidTimes(r);
    CentroidTimes(s);
    CentroidTimes(r + s);
    assert Pours.Xs(r + s) == Pours.Xs(r) + Pours.Xs(s) && Pours.Ys(r + s) == Pours.Ys(r) + Pours.Ys(s);
    SumConcat(Pours.Xs(r), Pours.Xs(s));
    SumConcat(Pours.Ys(r), Pours.Ys(s));
  }

  lemma SumOne(x: real)
    ensures Sum([x]) == x
  {
    assert [x][..0] == [];
  }

  lemma CentroidOfOne(p: Point)
    ensures Centroid([p]) == p
  {
    assert Pours.Xs([p]) == [p.0] && Pours.Ys([p]) == [p.1];
    SumOne(p.0);
    SumOne(p.1);
    var c := Centroid([p]);
    assert c.0 == p.0 && c.1 == p.1;
  }

  // ---------- the pads ----------

  /** The pad is looked for on the layer: one it is on, or the first copper layer when it is on none. */
  ghost predicate IsSought(pad: Pad, copper: seq<string>, l: string) {
    IsOn(pad, copper, l) || ((forall k :: k in copper ==> !IsOn(pad, copper, k)) && copper != [] && l == copper[0])
  }

  lemma OnSoughtLayers(pad: Pad, copper: seq<string>, l: string)
    ensures l in SoughtOn(pad, copper) <==> IsSought(pad, copper, l)
  {
    hide PadLayers, IsOn;
    var layers := PadLayers(pad, copper);
    forall k ensures k in layers <==> IsOn(pad, copper, k) {
      OnPadLayers(pad, copper, k);
    }
    OnIsCopper(pad, copper);
    if layers != [] {
      assert IsOn(pad, copper, layers[0]);
    }
  }

  lemma OnIsCopper(pad: Pad, copper: seq<string>)
    ensures forall k :: IsOn(pad, copper, k) ==> k in copper
  {
  }

  /** What is looked for is the k-th of the net's pads. */
  ghost predicate IsPlaceOf(place: PadPlace, pad: Pad, copper: seq<string>) {
    && place.at == pad.at
    && (pad.ref == "" ==> place.key == pad.number) && (pad.ref != "" ==> place.key == pad.ref + "." + pad.number)
    && forall l :: l in place.layers <==> IsSought(pad, copper, l)
  }

  lemma PlaceOfPad(pad: Pad, copper: seq<string>)
    ensures IsPlaceOf(PadPlace(KeyOfPad(pad), pad.at, SoughtOn(pad, copper)), pad, copper)
  {
    hide SoughtOn, IsSought;
    forall l ensures l in SoughtOn(pad, copper) <==> IsSought(pad, copper, l) {
      OnSoughtLayers(pad, copper, l);
    }
  }

  ghost predicate Rising(ids: seq<nat>) {
    forall i, j :: 0 <= i < j < |ids| ==> ids[i] < ids[j]
  }

  /** The pads looked for are the net's, each once and in the board's order. */
  lemma {:induction false} PadsInOrder(pads: seq<Pad>, net: string, copper: seq<string>) returns (ids: seq<nat>)
    ensures Rising(ids) && forall i :: i in ids <==> 0 <= i < |pads| && pads[i].net == net
    ensures |ids| == |PadsOf(pads, net, copper)|
    ensures forall k :: 0 <= k < |ids| ==> ids[k] < |pads| && IsPlaceOf(PadsOf(pads, net, copper)[k], pads[ids[k]], copper)
  {
    hide IsPlaceOf, SoughtOn, KeyOfPad;
    if pads == [] {
      ids := [];
    } else {
      var n := |pads| - 1;
      ids := PadsInOrder(pads[..n], net, copper);
      assert forall k :: 0 <= k < |ids| ==> ids[k] in ids;
      if pads[n].net == net {
        PlaceOfPad(pads[n], copper);
        ids := ids + [n];
      }
    }
  }
}
