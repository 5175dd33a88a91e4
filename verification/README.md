# EMI analyser: connectivity, comparison and run protocol

A Dafny model of the parts of the EMI analyser whose answers are decided by algorithms and by
state, with proofs of what those parts are for. Four components are modelled, each in the form its
source has: loops over arrays and grids stay methods with loops, the objects that are updated in
place stay classes, and what each method computes is tied to a specification about which the
properties are proved.

1. **Copper connectivity** (`UnionFind`, `Components`, `Rasterize`, `EvenOdd`, `LabelSearch`,
   `LayerRaster`, `FilledLayer`): filling polygons into a mask, labelling its connected islands by row runs and
   union-find, and looking up the label near a point.
2. **Net topology** (`Geometry`, `Graph`, `Sampling`, `Pours`, `Build`, `BoardLaws`, `Dijkstra`, `Trace`,
   `Attach`, `Routes`, `Topology`, `PathLaws`, `Laps`, `SlackOrder`): a grid-indexed graph of one net's copper, a many-source
   shortest-path search with a slack, walking its predecessors back, and paths between pads found
   up front or through a cache of searches.
3. **Version comparison** (`Matching`, `Compare`, `CompareLaws`, `DiffMirror`, `DiffMeaning`): pairing the findings of two
   versions of a board.
4. **Runs, tokens and storage** (`Runs`, `Store`, `Service`, `Boards`, `RequestLaws`, `Keys`, `Blobs`,
   `KeyLaws`, `Protocol`, `Lifecycle`, `Deletion`, `Listings`, `Crowds`, `KeptVersions`, `LeftBehind`, `Timestamps`,
   `Calendar`, `TextSweep`, `WorkerQueue`, `WorkerRun`, `ClientTokens`): the statements on run rows, the requests that issue and accept run tokens, all
   of them as one state machine over which invariants of every run of the system are proved, object
   keys, deletion, stored timestamps, and the worker's side.

What each component computes is also stated without its own functions, in what a reader of the
source sees: in coordinates of points and cells (`FilledLayer`), in the tracks, vias, pads and zones of
the board (`BoardLaws`, `PathLaws`), in the places, titles and severities of findings (`DiffMeaning`), in
the columns of a run's row and the fields of a request (`RequestLaws`), in the parts of a path
(`KeyLaws`), and in years, months and days (`Calendar`).

`Numbers`, `Sets`, `Sorting` and `Options` hold shared helpers. Coordinates, lengths and weights are
`real`; time is an integer; a grid cell index truncates toward zero, as the sources' `int()` does.
`Sorting.Sort` stands for the library sorts, with the contract they promise. A distance function is
a parameter: for the graph any `dist` whose square is the sum of squares, for findings any `hypot`
that is never negative and zero only for no difference, and that ignores the sign of a difference
where versions are compared the other way round. New ids are fresh values of 32 hexadecimal
digits, and a run token is a record of its claims that only the server can make.

In the protocol one authenticated request, from the check of its token to the change of the rows, is
one step. Tokens once issued stay around: any of them may be presented at any time, in any order,
by anybody, so a worker that retries after a lost reply, or that lost its run, is included.

## Where the code and what it is for part ways

Each of these is a lemma with the input that shows it, next to the exact condition under which the
property does hold.

- A pair of crossings that ends two columns or more left of the raster wraps around, because a
  negative slice end counts from the right: a ring's row is right in rasters of every width exactly
  when none of its pairs does (`EvenOdd.LeftSquareWraps`, `EvenOdd.RowRightExactly`,
  `EvenOdd.FilledIffOnRing`, `Rasterize.SpanWritesItself`).
- The label search returns the nearest copper only up to three rings out: further out a diagonal
  cell of a near ring is chosen over a closer straight one of a later ring
  (`LabelSearch.DiagonalBeatsStraight`, `LabelSearch.NearestUpToThreeRings`).
- A node within the join tolerance of a segment can be missed: all nodes within d of all segments
  are found exactly up to d = (sqrt(2) - 1/2) tol, about 0.91 tol (`Sampling.NoneMissedExactly`,
  `Sampling.SomeMissed`).
- The length of a path can depend on the end it is asked from, by at most the slack for each hop:
  over the graphs built of all boards it never does if and only if the slack is zero. With a slack it
  does not where no two routes between the pads come that close without being equal
  (`SlackOrder.EndsAgreeExactly`, `SlackOrder.EndsDiffer`, `Routes.AnswersAgree`,
  `Routes.AnswersAgreeOverGap`).
- Findings are grouped by rule, net and layer joined with NUL characters: a finding is never grouped
  with one of another rule, net or layer exactly when its own have no NUL in them
  (`CompareLaws.KeySeparatesExactly`, `CompareLaws.NulMerges`).
- Near pairs of findings come before far pairs of one title exactly when the tolerance is not
  negative (`CompareLaws.NearBeatsFar`).
- Text order of stored timestamps is time order exactly for the years before 10000
  (`Timestamps.OrderedExactly`).
- Other texts than the stored one parse to an instant in the same layout, which lets an hour of one
  digit, a comma and a sign in the fraction pass (`Timestamps.OtherTextsParse`,
  `Timestamps.ParsedIsStoredExactly`).
- Normalising a bucket prefix twice changes nothing except for a prefix of slashes only, which
  becomes empty and then the default (`Blobs.NormalisedTwice`, `Blobs.SlashBecomesDefault`).
- No key is allowed for two organizations or two runs, except where one id lies inside the other
  (`Keys.AllowedKeysOverlapExactly`, `Keys.SlashedIdsOverlap`); generated ids have no slash.
- Deleting a version is refused while one of its runs is unfinished only as far as a listing of the
  newest 1000 runs shows: with 1001 runs in the project a version can go under its worker
  (`KeptVersions.KeptUpToExactly`, `KeptVersions.VersionKeptExactly`).
- Deleting a project clears the objects of the newest 1000 runs alone: with 1001 runs in it objects
  of the oldest stay in storage after all rows are gone, and so they do when a version is deleted
  (`LeftBehind.ClearedUpToExactly`, `LeftBehind.ProjectClearedExactly`,
  `LeftBehind.VersionClearedExactly`).
- A worker is to end whatever run is its own. It owns the run once its token is minted, but a claim
  that then fails in any other way than a reassignment is caught by nobody: the run is left in
  progress until the sweep. So is one whose mint was carried out but not answered (`WorkerRun.Execute`).

## Model

| member | source | states |
|---|---|---|
| Forest.UnionFind.Find | worker/emi_worker/raster.py:71-77 | returns the root of x and, while compressing the path, changes no element's root and keeps every parent at or below its child |
| Forest.UnionFind.Union | worker/emi_worker/raster.py:79-85 | merges exactly the two sets: elements of either get the smaller root, every other element keeps its root |
| Forest.UnionFind.Make | worker/emi_worker/raster.py:67-69 | adds one element that is its own root and leaves every root as it was |
| Forest.CompressKeepsRoot | worker/emi_worker/raster.py:75-76 | pointing an element at its own root changes no root in the forest |
| Forest.LinkMergesRoot | worker/emi_worker/raster.py:83-84 | linking a root below another gives the elements of the higher root the lower one, and no others |
| Components.Runs | worker/emi_worker/raster.py:88-99 | the spans of a row: maximal, disjoint, in order, and covering exactly its copper cells |
| Components.MergeAbove | worker/emi_worker/raster.py:119-124 | the label for one run after merging the labels of exactly the runs above that touch it, with the labelling of everything painted before kept right |
| Components.BreakIsSafe | worker/emi_worker/raster.py:121-122 | leaving the scan at the first run above that starts right of this one skips no run that touches it |
| Components.LabelRow | worker/emi_worker/raster.py:116-129 | after each row the rows so far are labelled as a mask of their own: exactly their copper cells have labels, neighbours share a root, and cells that share one are joined by copper in these rows; labels are made in reading order of their first cells, and no cell of a class comes before that of its name |
| Components.RowsAreDone | worker/emi_worker/raster.py:116-129 | after each row, two labelled cells have one root exactly when a path of copper among the labelled cells joins them |
| Components.ConnectedTrans | worker/emi_worker/raster.py:102-110 | being joined by a 4-connected path of copper is transitive, the specification labels are compared with |
| Components.RootsAreIslands | worker/emi_worker/raster.py:131-136 | once every row is painted, equal roots mean 4-connected and 4-connected means equal roots |
| Components.LabelComponents | worker/emi_worker/raster.py:102-142 | background is 0, two copper cells have equal labels exactly when a 4-connected path of copper joins them, every label from 1 to the count is used, and islands are numbered by their first cells in reading order |
| LabelSearch.LabelAt | worker/emi_worker/raster.py:154-187 | for a query on the raster or one cell outside it a label is found exactly when copper is within the search, and it is that of the nearest copper, first in reading order, of the innermost ring that holds any; further outside always 0 |
| LabelSearch.ChosenMeans | worker/emi_worker/raster.py:170-186 | the cell chosen has a label and lies in the innermost ring that has any; of those in its ring none is nearer by squared distance, and of those as near none is in an earlier row, or in its row and an earlier column |
| LabelSearch.NearestUpToThreeRings | worker/emi_worker/raster.py:170-186 | what the ring search finds is nearest by distance among all copper within the search for every raster, if and only if the search is at most three cells |
| LabelSearch.DiagonalBeatsStraight | worker/emi_worker/raster.py:182-186 | for every longer search there is a raster where a farther cell wins |
| LayerRasters.LayerRaster.constructor | worker/emi_worker/raster.py:148-152 | a layer holds the labelling of its mask |
| LayerRasters.LayerRaster.LabelAt | worker/emi_worker/raster.py:154-187 | for a point of the square from (ox + c res, oy + r res) to the next: the label of cell (r, c) when that is copper; with no search 0 when it is not; otherwise the label of copper no further than the search along either axis, and 0 only when there is none |
| LayerRasters.LayerRaster.SameLabelIsSameIsland | worker/emi_worker/raster.py:145-187 | two points are given equal labels exactly when a path of copper joins the cells the labels were read from |
| FilledLayers.SameLabel | worker/emi_worker/raster.py:102-187 | two points in squares of copper cells are given one label exactly when a path of copper joins the cells, whatever the searches |
| FilledLayers.InsideHasLabel | worker/emi_worker/raster.py:20-187 | in a layer of a mask filled from rings, a point at the height of a row that is inside a ring is given the label of its cell, which is not 0 |
| Rasterize.CrossingParity | worker/emi_worker/raster.py:43-50 | the half-open rule counts an even number of crossings up to a vertex exactly when it and the first vertex are on one side of the scanline |
| Rasterize.EvenCrossings | worker/emi_worker/raster.py:50-55 | a closed ring crosses every scanline an even number of times, so pairing leaves none over |
| Rasterize.RowsKept | worker/emi_worker/raster.py:45-52 | every row of the raster that the ring crosses lies between the clipped first and last row |
| Rasterize.SpanWritesItself | worker/emi_worker/raster.py:55-59 | a span sets exactly its own columns inside the row, if and only if it ends no further left than one cell before the raster, or so far left that the slice is empty |
| Rasterize.RasterizeRings | worker/emi_worker/raster.py:20-60 | a cell of the mask is set exactly when some ring of three points or more has a pair of sorted crossings whose span writes it |
| EvenOdd.PointInRing | worker/emi_worker/kicad/geometry.py:245-256 | the loop decides inside by toggling at each edge that crosses right of the point |
| FilledLayers.TriangleInside | worker/emi_worker/kicad/geometry.py:245-256 | a point on one side of all three edges of a triangle is inside, and one on different sides of two edges is outside |
| EvenOdd.InsideIsOdd | worker/emi_worker/kicad/geometry.py:245-256 | inside is an odd number of the scanline's crossings strictly right of the point |
| EvenOdd.InsideIsPaired | worker/emi_worker/raster.py:54-59 | inside by the even-odd rule is being within one of the pairs of sorted crossings |
| EvenOdd.FilledIffOnRing | worker/emi_worker/raster.py:20-60 | for any ring, wherever it lies, a cell of a row is set exactly when a point of its column on the scanline is inside the ring or on its outline, as long as each pair of crossings there ends no further left than column -1, or so far left that the slice is empty |
| EvenOdd.RowRightExactly | worker/emi_worker/raster.py:55-59 | a ring's row comes out right in rasters of every width, if and only if each of its pairs of crossings ends in column -1 or further right |
| EvenOdd.LeftSquareWraps | worker/emi_worker/raster.py:59 | a square of copper in columns -5 to -3 sets cell 7 of a row of ten, where none of it is |
| EvenOdd.FilledIffOnSomeRing | worker/emi_worker/raster.py:28-38 | even-odd within one ring, or across rings: under the same condition on each ring, the mask of several rings is what any one of them fills |
| FilledLayers.InsideIsSet | worker/emi_worker/raster.py:20-60 | the cell of a point at height oy + row res, from ox + c res up to the next, that is inside a ring of three points or more is set |
| FilledLayers.SetIsOnRing | worker/emi_worker/raster.py:20-60 | under the condition of the wrap, a cell that is set has in its column (in the first, from one cell further left) a point at that height that is inside a ring or on one of its edges |
| EvenOdd.RingOrderIsIrrelevant | worker/emi_worker/raster.py:28-38 | the rings may come in any order and any number of times |
| Geometry.CloseCells | worker/emi_worker/topology.py:140-142 | points within the tolerance are in the same or a neighbouring grid cell, although the index truncates toward zero |
| Geometry.CellSquare | worker/emi_worker/topology.py:151-152 | a grid cell is a square as wide as the tolerance, but twice as wide on an axis, where the index truncates from both sides |
| Sampling.OneBeside | worker/emi_worker/topology.py:164-181 | of two samples around the foot of a node that is no further off the segment than (sqrt(2) - 1/2) tol, one is within the tolerance of the node on both axes |
| Sampling.ReachedIsSampled | worker/emi_worker/topology.py:164-198 | so every such node that projects into the segment is in a cell the walk along it looks into |
| Sampling.SomeMissed | worker/emi_worker/topology.py:175-184 | for every greater distance up to the tolerance there are a segment and a node that far off it, beside none of its samples |
| Sampling.NoneMissedExactly | worker/emi_worker/topology.py:164-198 | for every d, the walk misses no node within d of any segment, if and only if (2 d + tol)^2 is at most 8 tol^2 |
| Graphs.NineCellsSuffice | worker/emi_worker/topology.py:151-158 | every node of the layer within the tolerance of a place is listed in one of the nine cells around it |
| Graphs.LookIsScan | worker/emi_worker/topology.py:151-158 | the grid look-up finds a node within the tolerance exactly when a scan of all nodes of the layer would |
| Graphs.LooksInTurn | worker/emi_worker/topology.py:151-158 | of several nodes within the tolerance the one found is that of the first cell, column by column; in one cell, the one placed first |
| Graphs.PlaceReuses | worker/emi_worker/topology.py:151-162 | a node is reused, and none added, exactly when one of the layer lies within the tolerance |
| Graphs.PlaceKeepsGraph | worker/emi_worker/topology.py:151-162 | adding a node keeps the grid index exact and all nodes of a layer more than the tolerance apart |
| Graphs.PlaceAgain | worker/emi_worker/topology.py:151-162 | asking for the same place again gives the same node |
| Graphs.PlaceOfNode | worker/emi_worker/topology.py:151-162 | looking up the place of an existing node gives that node |
| Graphs.Graph.AddNode | worker/emi_worker/topology.py:151-162 | node() in place: the node returned and the new points and cells are those of the placement, and the graph's invariant is kept |
| Graphs.PointsOn | worker/emi_worker/topology.py:164-198 | exactly the nodes of the layer that project into the segment, lie within the tolerance of it and are beside a sample; each once, strictly in order along the segment |
| Graphs.Graph.Connect | worker/emi_worker/topology.py:200-204 | nothing for a node and itself, otherwise one edge each way; every edge's weight stays that of its two nodes |
| Graphs.JoinKeeps | worker/emi_worker/topology.py:200-204 | joining two nodes keeps every edge mirrored and of its nodes' length, and loses no edge |
| Graphs.Graph.LaySegment | worker/emi_worker/topology.py:247-262 | the segment becomes a chain: a node at its start, strictly in order along it exactly the other nodes found on it, and a node at its end; the new edges are the old with each node of the chain joined to the next, in that order; and no node is added if its ends have nodes |
| Graphs.ChainAdds | worker/emi_worker/topology.py:258-262 | joining a chain adds, of all possible edges, exactly those between neighbours in it, each way |
| Graphs.ChainIsUnique | worker/emi_worker/topology.py:257-258 | the nodes at its ends determine a segment's chain |
| Pours.InsideInBox | worker/emi_worker/topology.py:292-312 | a point inside a ring by the even-odd rule is inside its bounding box, so testing the box first rejects nothing |
| Build.LayVia | worker/emi_worker/topology.py:264-273 | the via gets a node on each layer it spans, and the new edges are the old with each of them joined to the next by a via edge of no length; which layers those are is stated by BoardLaws.ViaJoins and BoardLaws.ViaEdge |
| Build.JoinPours | worker/emi_worker/topology.py:305-315 | the new edges are the old with the pad joined to exactly the pours of the layer that it is inside of, in order |
| Build.BuildNet | worker/emi_worker/topology.py:207-315 | every track point, via and pad of the net has a node before copper is laid; then the edges are exactly, in order and number, what laying the net's copper piece by piece makes, each segment along all of those nodes that lie on it, in order |
| Build.EdgesAreLinks | worker/emi_worker/topology.py:207-315 | an edge is in the built graph exactly when it is one between neighbours in the chain of some piece of copper |
| BoardLaws.NodesAreSpots | worker/emi_worker/topology.py:222-240 | before copper is laid every node is at a point of one of the net's tracks, at one of its vias on a layer it names or at one of its pads on a copper layer it names, and each of those has a node within the tolerance |
| BoardLaws.TrackJoins | worker/emi_worker/topology.py:243-262 | every two consecutive points of a track of the net have nodes within the tolerance on its layer, and a walk of the layer's copper leads from one to the other, through every placed node beside the segment up to (sqrt(2) - 1/2) tol |
| BoardLaws.TrackEdge | worker/emi_worker/topology.py:243-262 | conversely an edge that is no via's, between nodes of one layer, is as long as they are apart and part of a track of the net on that layer, one of whose segments both nodes touch |
| BoardLaws.ViaJoins | worker/emi_worker/topology.py:264-273 | every via of the net has a node within the tolerance on each of its copper layers, or on each of its layers when none is copper, and via edges of no length join those of one layer and the next |
| BoardLaws.ViaWalk | worker/emi_worker/topology.py:264-273 | so between any two of those layers a walk of via edges of no length leads from the via's node on one to its node on the other |
| BoardLaws.ViaEdge | worker/emi_worker/topology.py:264-273 | conversely every via edge is between the nodes near one via of the net on two of those layers, with none of them between |
| BoardLaws.PourJoinsPad | worker/emi_worker/topology.py:296-315 | a pad inside the ring of a pour of its net, on a copper layer it names, or on any when it goes through and names none, is joined to the node at the mean of the ring's corners on the layer's zone |
| BoardLaws.PouredEdge | worker/emi_worker/topology.py:296-315 | conversely every other edge between two layers is one between such a pad and such a pour |
| BoardLaws.CentroidIsMean | worker/emi_worker/topology.py:327-330 | the centroid of one corner is the corner, and that of two rings together weighs each by its number of corners |
| BoardLaws.PadsInOrder | worker/emi_worker/topology.py:296-303 | the pads looked for are the net's, in board order, each under its reference and number and on its copper layers, all of them when it goes through and names none, else the first |
| Attach.GraphIsSearchable | worker/emi_worker/topology.py:243-315 | on every graph that can be built an edge's weight is a function of its two nodes, vias weigh nothing, no weight is negative and every edge is mirrored |
| Attach.AttachAll | worker/emi_worker/topology.py:342-361 | each pad's anchors are exactly the nodes within the tolerance of it, on any of its layers, that have an edge, ascending; pads without any are unreachable |
| Attach.AnchoredIffReached | worker/emi_worker/topology.py:356-361 | a pad has anchors exactly when it is listed as reached |
| Attach.AnchoredByLast | worker/emi_worker/topology.py:342-361 | of several pads of one key the anchors kept are those of the last that copper reaches |
| Dijkstra.Run | worker/emi_worker/topology.py:383-398 | the loop ends, with the distances and predecessors of the turn-by-turn search |
| Dijkstra.SearchIsUnique | worker/emi_worker/topology.py:383-398 | that search has one outcome for given sources |
| Dijkstra.TurnTakesNext | worker/emi_worker/topology.py:388-392 | a turn takes the entry of least distance, and of those the one of the least node, off the heap; a stale one does nothing more, otherwise each edge is tried in order |
| Dijkstra.RelaxMeans | worker/emi_worker/topology.py:393-397 | an edge gives its far node a distance, a predecessor and an entry exactly when it is the first way there or shorter by more than the slack |
| Dijkstra.TurnKeeps | worker/emi_worker/topology.py:388-397 | every turn keeps the predecessor tree ordered by pop, the heap complete and settled nodes relaxed, and either settles a node or shortens the queue |
| Dijkstra.ReachesExactly | worker/emi_worker/topology.py:383-398 | a node has a distance exactly when some walk from a source reaches it |
| Dijkstra.DistanceIsWalked | worker/emi_worker/topology.py:383-398 | each distance is the weight of a real walk from a source, of fewer hops than there are nodes |
| Dijkstra.WalkBound | worker/emi_worker/topology.py:383-398 | no walk from a source is lighter than the distance of its end by more than the slack for each of its hops |
| Dijkstra.ExactWithoutSlack | worker/emi_worker/topology.py:394 | with no slack each distance is the least weight of any walk |
| Dijkstra.Predecessor | worker/emi_worker/topology.py:394-397 | a predecessor was popped before its node, also through edges of no length, and an edge of the right weight joins them |
| Traces.FirstHasLength | worker/emi_worker/topology.py:409-417 | the first matching edge need not be the one relaxed, but has its weight |
| Traces.BackWalkIsWalk | worker/emi_worker/topology.py:406-418 | the way back along the predecessors is a walk from a source, of the distance found |
| Traces.Trace | worker/emi_worker/topology.py:401-420 | ends, at a source anchor; reports one run for each layer walked, as they are met from the end back, with the length walked on it, and the vias crossed; the lengths sum to exactly the distance found |
| PathLaws.WalkTells | worker/emi_worker/topology.py:401-420 | what a path reports of a walk: as many vias as changes of layer, when the net has no pours; of each layer, and in all, the distance between the places it goes through |
| Routes.ReversedIsWalk | worker/emi_worker/topology.py:200-204 | every walk backwards is a walk of the same weight and hops |
| Routes.AnswersExactly | worker/emi_worker/topology.py:98-109 | a path is answered exactly when both pads are anchored and copper joins their anchors |
| Routes.AnswersAgree | worker/emi_worker/topology.py:98-109 | any two right answers for two pads, eager or on demand, cached or fresh, from either end, both exist or neither does, and differ in length by at most the slack over the hops; without slack not at all |
| Routes.AnswersAgreeOverGap | worker/emi_worker/topology.py:383-398 | whatever the slack, two right answers have one length when no two routes between the pads come as close as the slack over their hops without being equal |
| Laps.KeepsFirstWay | worker/emi_worker/topology.py:383-398 | around a ring of six nodes the search keeps the way it meets the end by first, unless the other is shorter by more than the slack |
| SlackOrder.TracksAreBuilt | worker/emi_worker/topology.py:207-315 | for every tolerance and slack, what is built of a board of four tracks between six places is that ring, 12 units one way and 12 units and three quarters of a slack the other |
| SlackOrder.EndsDiffer | worker/emi_worker/topology.py:394 | on it the search from one end keeps the longer way and the search from the other finds the shorter |
| SlackOrder.EndsAgreeExactly | worker/emi_worker/topology.py:383-398 | over the graphs built of all boards, with any tolerance, the searches from the two ends of a route agree on its length, if and only if there is no slack |
| Topology.NetTopology.constructor | worker/emi_worker/topology.py:333-380 | pads and anchors are those of the graph; a signal net stores, for every two pads, a right path or has none because nothing joins them |
| Topology.NetTopology.PathBetween | worker/emi_worker/topology.py:98-109 | for two pads the answer is right, eager or on demand; for one pad twice none on demand; only the path found is remembered |
| Topology.NetTopology.Search | worker/emi_worker/topology.py:127-134 | what is returned is what a fresh search finds, and it becomes the most recent of at most eight |
| Topology.TouchKeepsCache | worker/emi_worker/topology.py:127-134 | using the cache keeps it at eight entries or fewer, one for each pad, every one a right search |
| PathLaws.UsedLast | worker/emi_worker/topology.py:127-134 | a search that is used comes last; the others keep their order, all of them when there are at most seven, and otherwise the seven used last |
| Topology.CachedIsFresh | worker/emi_worker/topology.py:127-134 | every cached search equals a search made afresh |
| Matching.TakenIsStable | server/compare/compare.go:163-169 | of the candidates in order, each is taken or clashes with one taken before it |
| Matching.TakenIsMatching | server/compare/compare.go:161-169 | no finding of either version is taken twice |
| Matching.StableIsUnique | server/compare/compare.go:152-169 | any matching that is stable in this sense takes the same candidates |
| Compare.CollectedMember | server/compare/compare.go:136-151 | collected are exactly the near pairs, keyed by distance, and the far pairs of one title, keyed by tolerance plus distance |
| Compare.SortedIsTryOrder | server/compare/compare.go:152-160 | sorting gives every candidate once, ascending by key and then by places |
| Compare.TakeInOrder | server/compare/compare.go:161-169 | the loop over the sorted pairs with its two arrays of used marks takes the greedy matching, and the marks are exactly its ends |
| Compare.GroupFindings | server/compare/compare.go:107-127 | each key met is listed once, in the order of meeting, with exactly its findings of either version in order |
| Compare.ListedAsMet | server/compare/compare.go:107-127 | a key listed before another was met before every finding of the other |
| Compare.FindChanges | server/compare/compare.go:106-180 | every finding of either version is in exactly one change with the status that fits; a candidate pair that is not matched has an end matched by a pair no later in (key, i, j) order; and the changes come group by group as first met, in each the unchanged in (key, i, j) order, then the fixed, then the new, as they stand in the lists |
| CompareLaws.DiffFindings | server/compare/compare.go:106-197 | the changes are such a diff in that order, the counts are theirs by status and severity, and unchanged plus fixed is all of the older version, unchanged plus new all of the newer |
| DiffMeaning.UnchangedMayBeOne | server/compare/compare.go:86-151 | two findings reported unchanged are of one group, and both on the board, with the hypotenuse of the differences of x and of y within the tolerance or with one title, or neither on the board |
| DiffMeaning.LeftCannotBeOne | server/compare/compare.go:163-180 | no finding reported fixed and none reported new could be one in this sense |
| DiffMeaning.ClosestFirst | server/compare/compare.go:152-169 | of two findings of a group within the tolerance one is matched nearer by, or as near by in a pair found first |
| DiffMeaning.TitlesNext | server/compare/compare.go:143-169 | of two findings of a group and title further apart one is matched within the tolerance, or under the title nearer by, or as near by in a pair found first |
| DiffMeaning.SummariesByTitle | server/compare/compare.go:86-95 | of two findings of a group and title that are not on the board one is matched under the title, in a pair found first |
| DiffMeaning.NoToleranceSamePlace | server/compare/compare.go:86-151 | without a tolerance and without equal titles only findings at one place are unchanged |
| DiffMeaning.ListedInOrder | server/compare/compare.go:152-180 | the changes of one group are listed unchanged first, from the closest pair on, those within the tolerance before the others and equals as they were found; then fixed and then new, each as in its version |
| DiffMeaning.GroupsAsMet | server/compare/compare.go:107-131 | the changes of a group come before those of another only if it was met first, in the older version and then in the newer |
| DiffMeaning.StatusCounted | server/compare/compare.go:182-197 | of each status, the counts are the numbers of changes whose finding, as it now is or else as it last was, is critical, a warning or information, and the total is that of all its changes |
| CompareLaws.PairsAreDetermined | server/compare/compare.go:152-169 | any two diffs in this sense of the same versions pair the same findings, so the outcome is fixed by stability alone |
| CompareLaws.Conserved | server/compare/compare.go:163-180 | no finding is lost or invented between the versions |
| CompareLaws.NearBeatsFar | server/compare/compare.go:136-151 | every near pair comes strictly before every far pair of one title, if and only if the tolerance is not negative |
| CompareLaws.KeySeparatesExactly | server/compare/compare.go:110-119 | a finding shares its group with none of another rule, net or layer, if and only if its own rule, net and layer have no NUL character in them |
| CompareLaws.NulMerges | server/compare/compare.go:110-119 | for every finding with a NUL in any of them there is one of another group with the same key |
| CompareLaws.ReorderedIsUnchanged | server/compare/compare.go:86-180 | findings in another order, with other ids, severities, details and advice, are all unchanged, for every tolerance, duplicates at one place included |
| DiffMirror.MirrorIsDiff | server/compare/compare.go:106-180 | a diff of two versions, mirrored, is a diff of them the other way round: ties between pairs that share a finding are broken alike |
| DiffMirror.PairsMirrored | server/compare/compare.go:106-180 | whichever way two versions are compared, the same findings are paired |
| DiffMirror.LeftMirrored | server/compare/compare.go:106-180 | what is new one way is fixed the other way, and what is fixed is new |
| DiffMirror.CountsMirrored | server/compare/compare.go:106-197 | so the counts of new and fixed change places, and as many are unchanged |
| CompareLaws.QuietHeadline | server/compare/compare.go:246-259 | the headline is "No change" exactly when nothing is fixed and nothing is new |
| DiffMeaning.HeadlineSays | server/compare/compare.go:246-259 | the headline names how many findings are fixed, then how many are new, each only if there is any |
| DiffMeaning.DecimalReads | server/compare/compare.go:246-259 | a number in it is written in decimal: read as one it gives the number back, without a zero in front |
| Runs.RowsStayOk | server/emi/pgstore.go:584-741 | every statement, under the status it requires, keeps what the status says of the row: claimable means no owner, token id or claim time, running means all three, finished exactly when terminal |
| Stores.Store.ClaimRun | server/emi/pgstore.go:584-600 | claims a claimable run and changes nothing else, or reports a conflict and changes nothing; every row goes on fitting its status |
| Stores.Store.CompleteRun | server/emi/pgstore.go:634-689 | for a running run its row, its artifacts by name and its parsed board change together; otherwise a conflict, and nothing does; what they become is stated by RequestLaws.FinishRow, FinishArtifact and FinishBoard |
| Stores.Store.RequestStop | server/emi/pgstore.go:697-713 | a running run is asked to stop, a queued one fails at once, any other conflicts |
| Stores.Store.RetryRun | server/emi/pgstore.go:717-731 | a failed or timed-out run is queued again with owner, token id, claim time, finish time, error and progress cleared |
| Stores.Store.SweepTimedOut | server/emi/pgstore.go:733-741 | times out exactly the running runs claimed before the deadline, and counts them; none is left |
| RequestLaws.SweepTimesOut | server/emi/pgstore.go:733-741 | exactly the rows in progress or stopping that were claimed before the deadline become timed out and finished now, with all else as before |
| Stores.Store.FailInterrupted | server/local/sqlitestore.go:728-739 | fails exactly the running runs, and counts them; none is left |
| RequestLaws.RestartFails | server/local/sqlitestore.go:728-739 | exactly the rows in progress or stopping become failed and finished now, with the reason |
| Stores.Store.ListRuns | server/emi/pgstore.go:533-543 | the project's runs, as many as there are up to the limit, each once, newest first, none left out that is newer than one listed |
| Stores.Store.DeleteProject | server/emi/pgstore.go:138-147 | the project goes with exactly its boards, runs and their artifacts |
| Stores.Store.DeleteBoard | server/emi/pgstore.go:263-282 | the version goes with exactly its runs and their artifacts, or nothing does |
| Service.AcceptsIffCurrent | server/emi/auth.go:178-214 | a token is accepted exactly in date and while its id is that of its run's row |
| Service.MintRunToken | server/emi/api_agent.go:116-165 | claims a claimable run under the new id, re-issues the current id to the key that holds the run, and refuses everybody else, in the order of the checks |
| RequestLaws.MintIffAllowed | server/emi/api_agent.go:116-165 | a token is minted exactly for a key that is shared or of the organization of the run's project and has the feature, when the run is queued or in that key's hands; it is for that run and organization, under the row's token id, for six hours; refusals are 404, 403 and 409 |
| RequestLaws.MintClaims | server/emi/api_agent.go:146-165 | minting for a queued run makes it in progress, owned by the key, under the new id, claimed and updated now, and started now unless it was before; any other mint changes nothing |
| Service.RefreshRunToken | server/emi/api_agent.go:183-208 | a token of the current id for the key that holds the run, else the refusal |
| RequestLaws.RefreshIffHeld | server/emi/api_agent.go:183-208 | a refresh is answered with a token exactly for the key that has the run in hand |
| Service.CompleteRun | server/emi/api_agent.go:400-524 | the whole request: token, body, keys, names, storage, then the transaction; which requests take effect is stated by RequestLaws.FinishIffGood, and what of by RequestLaws.FinishRow |
| RequestLaws.FinishIffGood | server/emi/api_agent.go:400-524 | a completion is answered 200 exactly with the run's current token in date, for a run being worked on, with status done or failed, good artifacts and a good board; otherwise nothing changes |
| RequestLaws.FinishCodes | server/emi/api_agent.go:400-524 | it is refused with 401 for a lapsed token, 403 for one of another run, 404 when the run is gone, 409 when the token is superseded or the run not worked on, 400 or 413 for its body |
| RequestLaws.FinishRow | server/emi/pgstore.go:634-661 | after a 200 the row has the body's status and error, its summary and estimate where it has them and the old ones otherwise, and is finished now; owner, token id, claim time, start and progress are as before, and so are all other rows |
| RequestLaws.FinishArtifact | server/emi/pgstore.go:662-672 | under each name is recorded the last artifact of that name, with its key, the type and size that storage knows, or else those of the body |
| RequestLaws.FinishOtherArtifacts | server/emi/pgstore.go:662-672 | artifacts of other names and of other runs are as before |
| RequestLaws.FinishBoard | server/emi/pgstore.go:673-688 | the run's version gets the layers, nets and digest reported, and the key when there is one; other versions are as before |
| RequestLaws.DoneStaysDone | server/emi/pgstore.go:634-689 | from every reachable state, a run answered 200 for "done" is done after every continuation in which it still exists |
| Service.RunProgress | server/emi/api_agent.go:247-270 | token, stage, then the row of a running run; nothing else changes |
| RequestLaws.ProgressNotes | server/emi/api_agent.go:247-270 | progress is noted exactly with an admitted token and a stage while the run is worked on; only the progress and the time of the update change |
| RequestLaws.ProgressCodes | server/emi/api_agent.go:247-270 | which refusal a progress report gets |
| Service.StopRun | server/emi/api_user.go:757-784 | a finished run is refused, any other is stopped or asked to stop |
| RequestLaws.StopAsks | server/emi/api_user.go:757-784 | a run in progress becomes stopping and is not finished; a queued one fails at once with the reason; any other is refused |
| Service.RetryRun | server/emi/api_user.go:786-810 | only failed and timed-out runs are queued again |
| RequestLaws.RetryQueues | server/emi/api_user.go:786-810 | a failed or timed-out run becomes queued again, of nobody, with no error, progress or finish; start, summary and estimate stay |
| Service.PreparedIsOwn | server/emi/api_agent.go:429-516 | a completion that is not refused ends the run as done or failed, names artifacts under the run's own prefix only, and a parsed board that is the run's own |
| Service.DoneIsStored | server/emi/api_agent.go:478-494 | when a request to complete a run as done is answered with 200, every artifact it named is recorded, under a key that storage has, none over the limit |
| Boards.CreateBoard | server/emi/api_user.go:239-304 | a version is recorded, with its first run, only for an upload of the project's organization that is in storage and within the limit |
| RequestLaws.ProjectIsCreated | server/emi/api_user.go:17-52 | a project is recorded under its organization, and nothing else changes; or it is refused with what checking it gave |
| RequestLaws.BoardIsCreated | server/emi/api_user.go:239-304 | a version and a queued run of nobody are recorded exactly for a clean key under the organization's uploads that storage has, within the limit and of the digest announced |
| RequestLaws.RunIsCreated | server/emi/api_user.go:613-700 | a further run is queued exactly for a version of the project |
| Boards.DeleteProject | server/emi/api_user.go:393-443 | the orphaned keys are exactly those of the project's boards that no other project's board was uploaded under; the rows go, and from storage exactly those objects and what the listed runs' prefixes cover |
| RequestLaws.ProjectRowsGo | server/emi/pgstore.go:138-147 | what is left is the rows of other projects, as they were |
| RequestLaws.ProjectOrphans | server/emi/api_user.go:409-422 | a key is orphaned exactly when a version of the project was uploaded or parsed under it and none of another project was uploaded under it |
| Boards.DeleteBoard | server/emi/api_user.go:464-550 | refused for the last version and while a listed run of it is unfinished; otherwise its rows go, and from storage exactly its unshared keys and what its runs' prefixes cover |
| RequestLaws.VersionRowsGo | server/emi/pgstore.go:263-282 | what is left is the rows of other versions and of runs of no version of this project, as they were |
| RequestLaws.VersionOrphans | server/emi/api_user.go:510-531 | a key is orphaned exactly when it is the version's, no other version was uploaded under it and none of the project parsed under it |
| RequestLaws.VersionRefused | server/emi/api_user.go:489-508 | a version is refused exactly as the project's last, or for a listed run of it that has not ended |
| Keys.CleanIffPlain | server/emi/objectkeys.go:19-32 | a key is clean exactly when it has no backslash and no segment is empty, "." or ".." |
| Keys.StaysInside | server/emi/blob_s3.go:128-136 | for every string the mapped key is empty or made of plain segments, so it cannot leave its namespace |
| Keys.BlobKeyIdempotent | server/local/fileblob.go:111-116 | mapping a mapped key changes nothing |
| KeyLaws.MapsPartByPart | server/emi/blob_s3.go:128-136 | a key is mapped part by part from the root: a name is added, an empty part or one dot is dropped, two dots take the last name away |
| Keys.CleanKeyIsItsObject | server/emi/objectkeys.go:8-15 | a clean key names the object of that very name |
| KeyLaws.CleanKeyNames | server/emi/blob_s3.go:128-136 | in a bucket the object of a clean key is named by the bucket's prefix and the key |
| Keys.AllowedKeysAreDisjoint | server/emi/objectkeys.go:39-48 | no key is allowed for two runs or two organizations whose ids have no slash |
| Keys.RunKeyIsNoUpload | server/emi/objectkeys.go:39-48 | no key is allowed both for a run and as an upload |
| Keys.SlashedIdsOverlap | server/emi/objectkeys.go:39-42 | every key of organization "a/b" is also one of "a" |
| Keys.AllowedKeysOverlapExactly | server/emi/objectkeys.go:39-48 | some key is allowed for both of two ids, as an upload or for a run, if and only if the ids are clean and are equal or one starts with the other and a slash |
| Keys.SanitiseArtifactName | server/emi/api_agent.go:534-552 | accepted is exactly a clean name of at most 200 bytes, once trimmed, that does not begin with two dots |
| Keys.SanitisedAgain | server/emi/api_agent.go:534-552 | an accepted name is accepted again as it is |
| KeyLaws.TrimsSpaceOnly | server/emi/api_agent.go:534-552 | trimming takes white space off both ends and nothing else |
| KeyLaws.BytesAdd | server/emi/api_agent.go:534-552 | the length is in bytes of UTF-8: those of the characters, one to four each by their ranges |
| Keys.DefaultKeyAllowed | server/emi/api_agent.go:450-467 | the default key of an accepted name is allowed for its run, if and only if the run's id is a clean key |
| Blobs.NormalisedPrefix | server/emi/blob_s3.go:116-126 | a slash more before or after a prefix does not matter, and a result is empty or ends in exactly one slash and starts with none |
| KeyLaws.TrimsSlashesOnly | server/emi/blob_s3.go:116-126 | of a prefix that is not all slashes the slashes at both ends are taken off and one is put behind |
| Blobs.NormalisedTwice | server/emi/blob_s3.go:116-126 | normalising twice is normalising once, if and only if the prefix is empty or has anything but slashes in it |
| Blobs.SlashBecomesDefault | server/emi/blob_s3.go:116-126 | "/" becomes empty, and normalised again the default |
| Blobs.RunPrefixLosesSlash | server/emi/blob_s3.go:134-136 | cleaning drops the slash a run's prefix ends with |
| Blobs.PrefixCoversOwnRun | server/emi/blob_s3.go:167-196 | deleting a run's prefix removes, of all keys allowed for any run, exactly that run's, in a bucket and in a directory |
| Blobs.PrefixSparesUploads | server/local/fileblob.go:83-95 | deleting a run's prefix removes no upload |
| KeyLaws.WholeIsRefused | server/emi/blob_s3.go:167-196 | deleting by prefix is refused exactly when the prefix maps to the whole namespace |
| KeyLaws.PrefixTakes | server/emi/blob_s3.go:167-196 | otherwise it takes, in a bucket, every object named with the bucket's prefix and the mapped one in front; in a directory, the file of that name or all below it |
| Protocol.RowMoves | server/emi/pgstore.go:584-741 | whatever step is taken, a run's row is left as it was or moved by one statement that its status allows |
| Protocol.EventTells | server/emi/api_agent.go:116-165 | a claim, completion or retry is recorded exactly when the row was moved by it |
| Protocol.HeldStays | server/emi/auth.go:196-209 | every step keeps each row's token id that of the run's current claim |
| Protocol.CompletedOnceStays | server/emi/pgstore.go:634-652 | every step keeps no claim completed twice, and no running run's claim completed at all |
| Lifecycle.Reachable | server/emi/pgstore.go:584-741 | in every reachable state rows fit their status, token ids are those of the current claims and no claim was completed twice |
| Lifecycle.AcceptedIffCurrentClaim | server/emi/auth.go:196-209 | in every such state a token is accepted exactly while in date and of the run's current claim |
| Lifecycle.SupersededForever | server/emi/auth.go:196-209 | once its claim is over, a token is never accepted again over any continuation |
| Lifecycle.RetryRevokes | server/emi/pgstore.go:715-731 | a retry ends the claim: no token of it is accepted again, whoever claims the run next |
| Lifecycle.RefreshKeepsTokens | server/emi/api_agent.go:167-208 | a refresh leaves older tokens of the claim as usable as before, and the new one is accepted and of the same claim |
| Lifecycle.MintAgainIsRefresh | server/emi/api_agent.go:146-150 | minting for a run the key already holds changes no row and issues what a refresh would |
| Lifecycle.IssuedToHolder | server/emi/api_agent.go:116-215 | whoever is issued a token holds the run from then on under that token's id |
| Lifecycle.OneCompletionEach | server/emi/pgstore.go:634-689 | over every run of the system each claim is completed at most once |
| Lifecycle.CompletedClaimIsOver | worker/emi_worker/runner.py:310-327 | after a completion took effect no later request with a token of that claim completes the run, whatever happened in between |
| Lifecycle.DoneIsFinal | server/emi/pgstore.go:634-689 | a done run's row and artifacts never change again until it is deleted |
| Lifecycle.RankMoves | server/emi/pgstore.go:584-741 | every change of status but a retry takes the rank down |
| Lifecycle.ChangesAreBounded | server/emi/pgstore.go:584-741 | over any path a run changes status at most its rank and four times for each retry |
| Lifecycle.NoRunIsStuck | server/emi/pgstore.go:691-741 | an unfinished run can be claimed, or has a claim time and is ended by a sweep after its time limit |
| Deletion.ParsedKeyIsOwn | server/emi/api_agent.go:441-446 | what one version's parsed board is kept under no other version names |
| Deletion.StepSpares | server/emi/api_user.go:409-440 | whatever step is taken, an object that a remaining version names as input or parsed board stays in storage |
| Deletion.KeysStay | server/emi/api_agent.go:441-516 | every step keeps inputs under the organization's uploads and parsed boards under a run of the same version |
| Deletion.InputsAreNeverLost | server/emi/api_user.go:393-550 | in every reachable state every version's input object is in storage |
| Deletion.NoStepTakesNamed | server/emi/api_user.go:510-547 | from every reachable state no step takes an object that a version left after it names |
| LeftBehind.ProjectLeaves | server/emi/api_user.go:393-443 | deleting a project leaves, of every run's objects and all uploads, exactly those whose run was not listed and whose key is not orphaned: some version of the project names it, and none of another project was uploaded under it |
| LeftBehind.VersionLeaves | server/emi/api_user.go:489-547 | deleting a version leaves exactly those that are not of a listed run of that version and whose key is not named by that version alone |
| LeftBehind.ProjectClearedExactly | server/emi/api_user.go:399-434 | in every state with the invariant: no deletion of the project leaves an object of one of its runs, if and only if for each run that holds one fewer than 1000 others were created no earlier |
| LeftBehind.VersionClearedExactly | server/emi/api_user.go:489-543 | no deletion that takes a version leaves an object of one of its runs, if and only if it is the last, or for each such run fewer than 1000 others were created no earlier than it and all the unfinished ones |
| LeftBehind.CrowdIsNotCleared | server/emi/api_user.go:399-434 | in such a reachable state, with 1000 later runs and an object of the oldest in storage, some deletion of the project leaves the object, and so does some deletion of its version |
| LeftBehind.ClearedUpToExactly | server/emi/api_user.go:393-443 | for every n: in all reachable states deleting a project of at most n runs leaves no object allowed under any of its runs, and deleting a version of one none of the version's, if and only if n is at most 1000 |
| KeptVersions.VersionKeptExactly | server/emi/api_user.go:485-508 | in every state, every deletion asked for leaves the version, whichever runs created at one time are listed first, if and only if it is the project's last, or it has unfinished runs and fewer than 1000 other runs of the project were created no earlier than all of those |
| Listings.LeftOutExactly | server/emi/pgstore.go:533-543 | some listing of a project's newest 1000 runs leaves all of these out, if and only if there are none of these or 1000 others were created no earlier than any |
| Crowds.CrowdIsReached | server/emi/api_user.go:239-304 | for every k a state is reachable in which one version has one unfinished run, and another k + 1 runs created later |
| KeptVersions.KeptUpToExactly | server/emi/api_user.go:493-508 | for every n: in all reachable states with at most n runs in the project a version with an unfinished run is never deleted, if and only if n is at most 1000 |
| Timestamps.TextOrder | server/local/sqlitestore.go:66-70 | for instants of the years 0 to 9999 the stored texts compare as the instants do (the ordering property of section 5.1 of RFC 3339) |
| Timestamps.OrderedExactly | server/local/sqlitestore.go:66-70 | text order is time order below a limit if and only if the limit is no later than the start of the year 10000 |
| Timestamps.ParsesBack | server/local/sqlitestore.go:70-87 | what is stored parses back to the same instant; which day and time of day that is, is stated by Calendar.ReadsCalendar and Calendar.StoresCalendar |
| Calendar.ReadsCalendar | server/local/sqlitestore.go:70-87 | a text of the stored layout is read exactly when its month is 1 to 12, its day one that month has in that year by the Gregorian rule, and its time one of a day; it is read as the nanosecond so many years, months and days after the start of year 0 |
| Calendar.ReadsDay | server/local/sqlitestore.go:78-87 | whatever the form of a text that is read in the layout, it begins with such a day: never with 02-29 outside a leap year, nor with the 31st of April, June, September or November |
| Calendar.StoresCalendar | server/local/sqlitestore.go:66-70 | every instant before the year 10000 is stored as the text of the layout that names its day and time |
| Calendar.CalendarCycle | server/local/sqlitestore.go:66-70 | 400 years in a row have 146097 days; from a multiple of 400 the centuries have 36525, 36524, 36524 and 36524; four years from a multiple of four have 1461, or 1460 when they start a century that is no multiple of 400 |
| Calendar.Epoch | server/local/sqlitestore.go:66-70 | 719528 days after the start of year 0 is stored as the start of 1970 |
| Timestamps.ParsedIsStoredExactly | server/local/sqlitestore.go:66-87 | a text that parses in the layout is what is stored for its instant, if and only if it is 30 characters long with a period at place 19 and a digit at place 20 |
| Timestamps.OtherTextsParse | server/local/sqlitestore.go:79-80 | other texts that parse to an instant: with a comma for the period, always; with an hour of one digit, before ten o'clock; with a plus for the first digit of the fraction, in the first tenth of a second |
| TextSweep.TextSweepIsTimeSweep | server/local/sqlitestore.go:711-720 | comparing stored texts sweeps exactly the runs that comparing times would |
| WorkerQueue.StepKeepsSound | worker/emi_worker/runner.py:212-234 | every step of any thread keeps noted, queued and executing runs all different and exactly those seen |
| WorkerQueue.StepMoves | worker/emi_worker/runner.py:212-234 | what each step does place by place: a run seen is not noted again, runs are queued behind the others and taken from the front |
| WorkerQueue.NeverTwice | worker/emi_worker/runner.py:200-234 | over every interleaving a run is in the queue or in execution at most once in all, so no two threads execute one run together |
| WorkerQueue.Runner.NoteRun | worker/emi_worker/runner.py:214-217 | a run is noted exactly when it was not already seen |
| WorkerQueue.Runner.PutRun | worker/emi_worker/runner.py:218 | the run noted is queued last, and nothing else moves |
| WorkerQueue.Runner.TakeRun | worker/emi_worker/runner.py:223-229 | the run taken is the first queued, and is then executing in this thread alone |
| WorkerQueue.Runner.ReleaseRun | worker/emi_worker/runner.py:232-234 | a run let go is no longer seen and may be announced again |
| WorkerRun.Execute | worker/emi_worker/runner.py:236-327 | a run the server gave to the worker is reported as ended, or the worker was told that it lost it, if and only if the claim was answered or refused as reassigned; it is reported as done only for finished work, otherwise as failed, and as failed after done only when the reply to "done" was lost |
| ClientTokens.RunToken.Bearer | worker/emi_worker/client.py:133-146 | the token sent is the refreshed one when a refresh was due and came through, the old one when it failed, none when the run was reassigned; what is sent is in date exactly when no refresh was due, or it came through, or the old token still is |
| ClientTokens.RefreshInTime | worker/emi_worker/client.py:226-232 | a refresh falls due at half the life of a token or an hour before its end, whichever is later, so before its end; a token with no life left is never refreshed |

## Left out

- Build.BuildNet: builds the graph of one net; that the source fills all nets' graphs in the same loops is not modelled, since the graphs share nothing. In which order nodes are numbered is not stated; it decides ties only.
- Stores.Store.ListRuns: among runs created at one time, which come first or are left out is left open.
- Timestamps.ParsesBack: the fallback to the general RFC 3339 form for rows written by hand is not modelled.
- Routes.AnswersAgree: with a slack the difference is bounded, not decided; which routes lie within the slack of each other depends on the whole graph.
- Lifecycle.RefreshKeepsTokens: signing and decoding of tokens is not modelled; a token is its claims.
- Floating-point rounding: everything is over reals, the search's slack a parameter.
- Requests split into smaller steps: a token check and the statement after it are one step.
- `topology.py`: `delay_ps`, `kind`, `paths_from`, `longest_path`, `total_copper_mm` and the net classes, which read what is proved here.
- `compare.go`: `GroupByRule` and `DiffNets`, which sort and list.
- `UpdateBoardParsed`, `CreateArtifact` and `SetRunEstimate`: no request calls them.
- Run kinds, parameters, estimates at creation, feature switches (a parameter here), hub dispatch and worker registration.
- User authentication and the check that a user's organization owns the project or run.
- The digest check of a parsed board or an upload (its outcome is a parameter), ids and times of artifact rows, board outline and stackup.
- Presigned URLs and what is written through them; storage is a set of object names, to which an upload may add any key's.
- Store and storage errors other than a missing row or a lost race.
- The worker's WebSocket, scratch directories and stop requests; only queueing, execution's end and the run token are modelled.
- HTTP, SQL text, JSON, zip files, the web application, the KiCad plugin, field solvers and cost estimates.
