/** Connected-component labelling of a copper mask (worker/emi_worker/raster.py).

    The code works on runs of a row and a union-find of run labels; the specification is
    4-connectivity of single cells. */
module Components {
  import opened Forest

  type Mask = seq<seq<bool>>
  type Cell = (nat, nat)

  // ---------- the specification ----------

  ghost predicate IsMask(mask: Mask, height: nat, width: nat) {
    |mask| == height && forall r :: 0 <= r < height ==> |mask[r]| == width
  }

  ghost predicate Copper(mask: Mask, c: Cell) {
    c.0 < |mask| && c.1 < |mask[c.0]| && mask[c.0][c.1]
  }

  ghost predicate Adjacent(a: Cell, b: Cell) {
    || (a.0 == b.0 && (a.1 == b.1 + 1 || b.1 == a.1 + 1))
    || (a.1 == b.1 && (a.0 == b.0 + 1 || b.0 == a.0 + 1))
  }

  ghost predicate IsPath(mask: Mask, path: seq<Cell>) {
    && |path| > 0
    && (forall i :: 0 <= i < |path| ==> Copper(mask, path[i]))
    && forall i :: 0 < i < |path| ==> Adjacent(path[i - 1], path[i])
  }

  ghost predicate Joins(mask: Mask, path: seq<Cell>, a: Cell, b: Cell) {
    IsPath(mask, path) && path[0] == a && path[|path| - 1] == b
  }

  /** Some 4-connected path of copper leads from a to b. */
  ghost predicate Connected(mask: Mask, a: Cell, b: Cell) {
    exists path :: Joins(mask, path, a, b)
  }

  lemma ConnectedSelf(mask: Mask, a: Cell)
    requires Copper(mask, a)
    ensures Connected(mask, a, a)
  {
    assert Joins(mask, [a], a, a);
  }

  lemma ConnectedStep(mask: Mask, a: Cell, b: Cell)
    requires Copper(mask, a) && Copper(mask, b) && Adjacent(a, b)
    ensures Connected(mask, a, b)
  {
    assert Joins(mask, [a, b], a, b);
  }

  lemma ConnectedTrans(mask: Mask, a: Cell, b: Cell, c: Cell)
    requires Connected(mask, a, b) && Connected(mask, b, c)
    ensures Connected(mask, a, c)
  {
    var p :| Joins(mask, p, a, b);
    var q :| Joins(mask, q, b, c);
    var r := p + q[1..];
    forall i | 0 < i < |r| ensures Adjacent(r[i - 1], r[i]) {
      if i >= |p| {
        assert r[i] == q[i - |p| + 1];
        assert r[i - 1] == q[i - |p|];
      }
    }
    assert Joins(mask, r, a, c);
  }

  lemma ConnectedSym(mask: Mask, a: Cell, b: Cell)
    requires Connected(mask, a, b)
    ensures Connected(mask, b, a)
  {
    var p :| Joins(mask, p, a, b);
    var r := seq(|p|, i requires 0 <= i < |p| => p[|p| - 1 - i]);
    forall i | 0 < i < |r| ensures Adjacent(r[i - 1], r[i]) {
      assert Adjacent(p[|p| - 1 - i], p[|p| - i]);
    }
    assert Joins(mask, r, b, a);
  }

  lemma {:induction false} RunConnected(mask: Mask, row: nat, start: nat, col: nat)
    requires row < |mask| && start <= col < |mask[row]|
    requires forall c :: start <= c <= col ==> mask[row][c]
    ensures Connected(mask, (row, start), (row, col))
    decreases col
  {
    if start == col {
      ConnectedSelf(mask, (row, col));
    } else {
      RunConnected(mask, row, start, col - 1);
      ConnectedStep(mask, (row, col - 1), (row, col));
      ConnectedTrans(mask, (row, start), (row, col - 1), (row, col));
    }
  }

  // ---------- runs of one row ----------

  type Span = (nat, nat)

  /** The maximal runs of True in one row, left to right, ends inclusive. */
  ghost predicate AreRuns(row: seq<bool>, runs: seq<Span>) {
    && (forall k :: 0 <= k < |runs| ==> runs[k].0 <= runs[k].1 < |row|)
    && (forall k, l :: 0 <= k < l < |runs| ==> runs[k].1 + 1 < runs[l].0)
    && (forall k, c :: 0 <= k < |runs| && runs[k].0 <= c <= runs[k].1 ==> row[c])
    && (forall c :: 0 <= c < |row| && row[c] ==> exists k :: 0 <= k < |runs| && runs[k].0 <= c <= runs[k].1)
  }

  ghost predicate Spanned(starts: seq<nat>, ends: seq<nat>, c: nat) {
    exists k :: 0 <= k < |ends| && k < |starts| && starts[k] <= c <= ends[k]
  }

  /** The runs that end before column `upto`, and the one still open there if any. */
  ghost predicate RunsSoFar(row: seq<bool>, starts: seq<nat>, ends: seq<nat>, upto: nat)
    requires upto < |row|
  {
    && |starts| == |ends| + (if row[upto] then 1 else 0)
    && (forall k :: 0 <= k < |ends| ==> starts[k] <= ends[k] < upto)
    && (forall k :: 0 <= k < |starts| ==> starts[k] <= upto)
    && (forall k, l :: 0 <= k < l < |starts| ==> ends[k] + 1 < starts[l])
    && (forall k, c :: 0 <= k < |ends| && starts[k] <= c <= ends[k] ==> row[c])
    && (row[upto] ==> forall c :: starts[|ends|] <= c <= upto ==> row[c])
    && (forall c: nat :: c <= upto && row[c] ==>
          Spanned(starts, ends, c) || (row[upto] && starts[|ends|] <= c))
  }

  lemma SpannedGrows(starts: seq<nat>, ends: seq<nat>, starts': seq<nat>, ends': seq<nat>, c: nat)
    requires starts <= starts' && ends <= ends' && Spanned(starts, ends, c)
    ensures Spanned(starts', ends', c)
  {
    var k :| 0 <= k < |ends| && k < |starts| && starts[k] <= c <= ends[k];
    assert starts'[k] == starts[k] && ends'[k] == ends[k];
  }

  lemma OpenRun(row: seq<bool>, starts: seq<nat>, ends: seq<nat>, i: nat)
    requires i + 1 < |row| && RunsSoFar(row, starts, ends, i)
    requires !row[i] && row[i + 1]
    ensures RunsSoFar(row, starts + [i + 1], ends, i + 1)
  {
    forall c: nat | c <= i && row[c] ensures Spanned(starts + [i + 1], ends, c) {
      SpannedGrows(starts, ends, starts + [i + 1], ends, c);
    }
  }

  lemma CloseRun(row: seq<bool>, starts: seq<nat>, ends: seq<nat>, i: nat)
    requires i < |row| && RunsSoFar(row, starts, ends, i) && row[i]
    ensures forall c: nat :: c <= i && row[c] ==> Spanned(starts, ends + [i], c)
    ensures i + 1 < |row| && !row[i + 1] ==> RunsSoFar(row, starts, ends + [i], i + 1)
  {
    forall c: nat | c <= i && row[c] ensures Spanned(starts, ends + [i], c) {
      if Spanned(starts, ends, c) {
        SpannedGrows(starts, ends, starts, ends + [i], c);
      } else {
        assert (ends + [i])[|ends|] == i;
      }
    }
  }

  lemma SameRun(row: seq<bool>, starts: seq<nat>, ends: seq<nat>, i: nat)
    requires i + 1 < |row| && RunsSoFar(row, starts, ends, i)
    requires row[i] == row[i + 1]
    ensures RunsSoFar(row, starts, ends, i + 1)
  {
  }

  function Zip(starts: seq<nat>, ends: seq<nat>): (runs: seq<Span>)
    requires |starts| == |ends|
  {
    seq(|ends|, k requires 0 <= k < |ends| => (starts[k], ends[k]))
  }

  lemma ZipRuns(row: seq<bool>, starts: seq<nat>, ends: seq<nat>)
    requires |starts| == |ends|
    requires forall k :: 0 <= k < |ends| ==> starts[k] <= ends[k] < |row|
    requires forall k, l :: 0 <= k < l < |starts| ==> ends[k] + 1 < starts[l]
    requires forall k, c :: 0 <= k < |ends| && starts[k] <= c <= ends[k] ==> row[c]
    requires forall c: nat :: c < |row| && row[c] ==> Spanned(starts, ends, c)
    ensures AreRuns(row, Zip(starts, ends))
  {
    var runs := Zip(starts, ends);
    forall c | 0 <= c < |row| && row[c]
      ensures exists k :: 0 <= k < |runs| && runs[k].0 <= c <= runs[k].1
    {
      assert Spanned(starts, ends, c);
      var k :| 0 <= k < |ends| && k < |starts| && starts[k] <= c <= ends[k];
      assert runs[k] == (starts[k], ends[k]);
    }
  }

  lemma LastRun(row: seq<bool>, starts: seq<nat>, ends: seq<nat>)
    requires |row| > 0 && RunsSoFar(row, starts, ends, |row| - 1)
    ensures var all := if row[|row| - 1] then ends + [|row| - 1] else ends;
      |starts| == |all| && AreRuns(row, Zip(starts, all))
  {
    if row[|row| - 1] {
      CloseRun(row, starts, ends, |row| - 1);
      ZipRuns(row, starts, ends + [|row| - 1]);
    } else {
      ZipRuns(row, starts, ends);
    }
  }

  predicate Any(row: seq<bool>) {
    exists i :: 0 <= i < |row| && row[i]
  }

  lemma FirstColumn(row: seq<bool>, starts: seq<nat>)
    requires |row| > 0 && starts == if row[0] then [0] else []
    ensures RunsSoFar(row, starts, [], 0)
  {
  }

  /** The columns where a run starts and those where one ends. */
  method Edges(row: seq<bool>) returns (starts: seq<nat>, ends: seq<nat>)
    requires |row| > 0
    ensures RunsSoFar(row, starts, ends, |row| - 1)
  {
    starts, ends := [], [];
    if row[0] {
      starts := [0];
    }
    FirstColumn(row, starts);
    hide RunsSoFar;
    var i: nat := 0;
    while i < |row| - 1
      invariant i < |row|
      invariant RunsSoFar(row, starts, ends, i)
    {
      if !row[i] && row[i + 1] {
        OpenRun(row, starts, ends, i);
        starts := starts + [i + 1];
      } else if row[i] && !row[i + 1] {
        CloseRun(row, starts, ends, i);
        ends := ends + [i];
      } else {
        SameRun(row, starts, ends, i);
      }
      i := i + 1;
    }
  }

  method Runs(row: seq<bool>) returns (runs: seq<Span>)
    ensures AreRuns(row, runs)
  {
    if !Any(row) {
      return [];
    }
    var starts, ends := Edges(row);
    LastRun(row, starts, ends);
    if row[|row| - 1] {
      ends := ends + [|row| - 1];
    }
    runs := Zip(starts, ends);
  }

  // ---------- labelling ----------

  /** The labels written so far, by cell. */
  type Painted = map<Cell, nat>

  /** Exactly the copper left of column `col` in row `row`, and in every row above, has a label. */
  ghost predicate PaintedUpTo(mask: Mask, paint: Painted, row: nat, col: nat) {
    forall c: Cell :: c in paint <==> Copper(mask, c) && (c.0 < row || (c.0 == row && c.1 < col))
  }

  ghost predicate LabelsIn(paint: Painted, p: seq<nat>) {
    forall c :: c in paint ==> 0 < paint[c] < |p|
  }

  ghost function RootAt(p: seq<nat>, paint: Painted, c: Cell): (r: nat)
    requires IsForest(p) && LabelsIn(paint, p) && c in paint
    ensures 0 < r < |p|
  {
    Root(p, paint[c])
  }

  /** One root is never shared by two separate islands. */
  ghost predicate Sound(mask: Mask, p: seq<nat>, paint: Painted)
    requires IsForest(p) && LabelsIn(paint, p)
  {
    forall a, b :: a in paint && b in paint && RootAt(p, paint, a) == RootAt(p, paint, b) ==> Connected(mask, a, b)
  }

  /** Neighbours share a root. */
  ghost predicate Complete(p: seq<nat>, paint: Painted)
    requires IsForest(p) && LabelsIn(paint, p)
  {
    forall a, b :: a in paint && b in paint && Adjacent(a, b) ==> RootAt(p, paint, a) == RootAt(p, paint, b)
  }

  ghost predicate Labelled(mask: Mask, p: seq<nat>, paint: Painted) {
    IsForest(p) && LabelsIn(paint, p) && Sound(mask, p, paint) && Complete(p, paint)
  }

  datatype LabelledRun = LabelledRun(start: nat, end: nat, id: nat)

  /** `above` lists the runs of one row with the labels their cells were given. */
  ghost predicate RowAbove(mask: Mask, paint: Painted, above: seq<LabelledRun>, row: int) {
    && (forall k, l :: 0 <= k < l < |above| ==> above[k].end < above[l].start)
    && (forall k :: 0 <= k < |above| ==> above[k].start <= above[k].end)
    && (row < 0 ==> above == [])
    && (row >= 0 ==>
          && (forall k, c: nat :: 0 <= k < |above| && above[k].start <= c <= above[k].end ==>
                (row, c) in paint && paint[(row, c)] == above[k].id)
          && (forall c: nat :: Copper(mask, (row, c)) ==> InSomeRun(above, c)))
  }

  ghost predicate InSomeRun(above: seq<LabelledRun>, c: nat) {
    exists k :: 0 <= k < |above| && above[k].start <= c <= above[k].end
  }

  ghost predicate Overlaps(r: LabelledRun, start: nat, end: nat) {
    r.start <= end && r.end >= start
  }

  /** What one run has learnt from the runs above it that were visited: `id` is 0 while none
      overlapped; after that it is the one root of all that did, and everything carrying that
      root is joined to this run. */
  ghost predicate Merged(mask: Mask, p: seq<nat>, paint: Painted, above: seq<LabelledRun>, row: nat,
                         start: nat, end: nat, id: nat)
    requires IsForest(p) && LabelsIn(paint, p) && (forall k :: 0 <= k < |above| ==> above[k].id < |p|)
  {
    && id < |p| && Root(p, id) == id
    && (id == 0 <==> forall k :: 0 <= k < |above| ==> !Overlaps(above[k], start, end))
    && (forall k :: 0 <= k < |above| && Overlaps(above[k], start, end) ==> Root(p, above[k].id) == id)
    && (id != 0 ==> forall c :: c in paint && RootAt(p, paint, c) == id ==> Connected(mask, c, (row, start)))
  }

  /** Every column of the run start..end of `row` is copper, and the row continues that run on
      neither side. */
  ghost predicate RunOf(mask: Mask, row: nat, start: nat, end: nat) {
    && row < |mask| && start <= end < |mask[row]|
    && (forall c :: start <= c <= end ==> mask[row][c])
    && (start > 0 ==> !mask[row][start - 1])
    && (end + 1 < |mask[row]| ==> !mask[row][end + 1])
  }

  /** The cells above an overlapping run lead down into this one. */
  lemma OverlapJoins(mask: Mask, p: seq<nat>, paint: Painted, above: seq<LabelledRun>, k: nat, row: nat,
                     start: nat, end: nat, c: Cell)
    requires Labelled(mask, p, paint) && RowAbove(mask, paint, above, row - 1) && PaintedUpTo(mask, paint, row, start)
    requires RunOf(mask, row, start, end)
    requires k < |above| && above[k].id < |p| && Overlaps(above[k], start, end)
    requires c in paint && RootAt(p, paint, c) == Root(p, above[k].id)
    ensures Connected(mask, c, (row, start))
  {
    var col := if above[k].start < start then start else above[k].start;
    var up: Cell := (row - 1, col);
    assert up in paint && paint[up] == above[k].id;
    assert Connected(mask, c, up);
    RunConnected(mask, row, start, col);
    ConnectedSym(mask, (row, start), (row, col));
    ConnectedStep(mask, up, (row, col));
    ConnectedTrans(mask, c, up, (row, col));
    ConnectedTrans(mask, c, (row, col), (row, start));
  }

  /** q merges the class of `other`, and that of `id` if there is one, under `id'`. */
  ghost predicate MergesInto(p: seq<nat>, q: seq<nat>, other: nat, id: nat, id': nat) {
    && IsForest(p) && IsForest(q) && |q| == |p| && other < |p|
    && (id' == Root(p, other) || (id != 0 && id' == id))
    && forall i: nat :: i < |p| ==>
         Root(q, i) == if Root(p, i) == Root(p, other) || (id != 0 && Root(p, i) == id) then id' else Root(p, i)
  }

  /** Merging the class of one more overlapping run keeps every invariant. */
  lemma MergeStep(mask: Mask, p: seq<nat>, q: seq<nat>, paint: Painted, above: seq<LabelledRun>, k: nat,
                  row: nat, start: nat, end: nat, id: nat, id': nat)
    requires Labelled(mask, p, paint) && RowAbove(mask, paint, above, row - 1) && PaintedUpTo(mask, paint, row, start)
    requires RunOf(mask, row, start, end) && k < |above|
    requires forall l :: 0 <= l < |above| ==> 0 < above[l].id < |p|
    requires Merged(mask, p, paint, above[..k], row, start, end, id)
    requires Overlaps(above[k], start, end) && MergesInto(p, q, above[k].id, id, id')
    ensures Labelled(mask, q, paint)
    ensures Merged(mask, q, paint, above[..k + 1], row, start, end, id')
  {
    forall c | c in paint && RootAt(q, paint, c) == id' ensures Connected(mask, c, (row, start)) {
      if RootAt(p, paint, c) == Root(p, above[k].id) {
        OverlapJoins(mask, p, paint, above, k, row, start, end, c);
      }
    }
    MergeKeepsLabelled(mask, p, q, paint, above[k].id, id, id', (row, start));
    assert above[..k + 1] == above[..k] + [above[k]];
    forall l | 0 <= l < k && Overlaps(above[l], start, end) ensures Root(q, above[l].id) == id' {
      assert above[..k][l] == above[l];
    }
    assert above[..k + 1][k] == above[k];
  }

  lemma MergeKeepsLabelled(mask: Mask, p: seq<nat>, q: seq<nat>, paint: Painted, other: nat, id: nat, id': nat, hub: Cell)
    requires Labelled(mask, p, paint) && MergesInto(p, q, other, id, id')
    requires forall c :: c in paint && RootAt(q, paint, c) == id' ==> Connected(mask, c, hub)
    ensures Labelled(mask, q, paint)
  {
    forall a, b | a in paint && b in paint && RootAt(q, paint, a) == RootAt(q, paint, b)
      ensures Connected(mask, a, b)
    {
      if RootAt(q, paint, a) == id' {
        ConnectedSym(mask, b, hub);
        ConnectedTrans(mask, a, hub, b);
      } else {
        assert RootAt(p, paint, a) == RootAt(p, paint, b);
      }
    }
    forall a, b | a in paint && b in paint && Adjacent(a, b)
      ensures RootAt(q, paint, a) == RootAt(q, paint, b)
    {
      assert RootAt(p, paint, a) == RootAt(p, paint, b);
    }
  }

  lemma MergedNone(mask: Mask, p: seq<nat>, paint: Painted, above: seq<LabelledRun>, row: nat, start: nat, end: nat)
    requires IsForest(p) && LabelsIn(paint, p) && (forall l :: 0 <= l < |above| ==> above[l].id < |p|)
    ensures Merged(mask, p, paint, above[..0], row, start, end, 0)
  {
  }

  lemma MergedSkip(mask: Mask, p: seq<nat>, paint: Painted, above: seq<LabelledRun>, k: nat, row: nat,
                   start: nat, end: nat, id: nat)
    requires IsForest(p) && LabelsIn(paint, p) && (forall l :: 0 <= l < |above| ==> above[l].id < |p|)
    requires k < |above| && Merged(mask, p, paint, above[..k], row, start, end, id)
    requires !Overlaps(above[k], start, end)
    ensures Merged(mask, p, paint, above[..k + 1], row, start, end, id)
  {
    assert above[..k + 1] == above[..k] + [above[k]];
  }

  lemma LabelledFacts(mask: Mask, p: seq<nat>, paint: Painted)
    requires Labelled(mask, p, paint)
    ensures IsForest(p) && LabelsIn(paint, p)
  {
  }

  /** No class has a later name in q than in p. */
  ghost predicate Lowers(p: seq<nat>, q: seq<nat>) {
    && IsForest(p) && IsForest(q) && |q| == |p|
    && forall i: nat :: i < |p| ==> Root(q, i) <= Root(p, i)
  }

  lemma LowersSelf(p: seq<nat>)
    requires IsForest(p)
    ensures Lowers(p, p)
  {
  }

  lemma LowersTrans(p: seq<nat>, q: seq<nat>, r: seq<nat>)
    requires Lowers(p, q) && Lowers(q, r)
    ensures Lowers(p, r)
  {
  }

  /** Whichever of two names a merged class gets, it is not the later one. */
  lemma MergeLowers(p: seq<nat>, q: seq<nat>, other: nat, id: nat, id': nat)
    requires MergesInto(p, q, other, id, id')
    ensures Lowers(p, q)
  {
    forall i: nat | i < |p| ensures Root(q, i) <= Root(p, i) {
      var r := Root(p, i);
      assert Root(p, r) == r;
      assert Root(q, i) == Root(q, r) <= r;
    }
  }

  /** The label of one more overlapping run, merged with the label so far. */
  method MergeOne(uf: UnionFind, other: nat, id: nat) returns (id': nat)
    requires uf.Valid() && 0 < other < |uf.parent| && (id != 0 ==> id < |uf.parent| && Root(uf.parent, id) == id)
    modifies uf
    ensures uf.Valid() && MergesInto(old(uf.parent), uf.parent, other, id, id')
  {
    if id == 0 {
      id' := uf.Find(other);
    } else {
      id' := uf.Union(id, other);
    }
  }

  /** After the first k runs above: the labels painted before are still right, what overlaps is merged,
      and no class has a later name than in p0. */
  ghost predicate MergedSoFar(p0: seq<nat>, p: seq<nat>, mask: Mask, paint: Painted, above: seq<LabelledRun>, k: nat,
                              row: nat, start: nat, end: nat, id: nat) {
    && Labelled(mask, p, paint) && Lowers(p0, p) && k <= |above|
    && (forall l :: 0 <= l < |above| ==> 0 < above[l].id < |p|)
    && Merged(mask, p, paint, above[..k], row, start, end, id)
  }

  lemma StartMerging(p: seq<nat>, mask: Mask, paint: Painted, above: seq<LabelledRun>, row: nat, start: nat, end: nat)
    requires Labelled(mask, p, paint) && forall l :: 0 <= l < |above| ==> 0 < above[l].id < |p|
    ensures MergedSoFar(p, p, mask, paint, above, 0, row, start, end, 0)
  {
    hide Sound, Complete;
    LowersSelf(p);
    MergedNone(mask, p, paint, above, row, start, end);
  }

  lemma OneMoreMerged(p0: seq<nat>, p: seq<nat>, q: seq<nat>, mask: Mask, paint: Painted, above: seq<LabelledRun>, k: nat,
                      row: nat, start: nat, end: nat, id: nat, id': nat)
    requires MergedSoFar(p0, p, mask, paint, above, k, row, start, end, id) && k < |above|
    requires RowAbove(mask, paint, above, row - 1) && PaintedUpTo(mask, paint, row, start) && RunOf(mask, row, start, end)
    requires Overlaps(above[k], start, end) && MergesInto(p, q, above[k].id, id, id')
    ensures MergedSoFar(p0, q, mask, paint, above, k + 1, row, start, end, id')
  {
    hide Labelled, Merged, RowAbove, PaintedUpTo, RunOf, Overlaps;
    MergeFacts(p, q, above[k].id, id, id');
    MergeLowers(p, q, above[k].id, id, id');
    LowersTrans(p0, p, q);
    MergeStep(mask, p, q, paint, above, k, row, start, end, id, id');
  }

  lemma OneSkipped(p0: seq<nat>, p: seq<nat>, mask: Mask, paint: Painted, above: seq<LabelledRun>, k: nat,
                   row: nat, start: nat, end: nat, id: nat)
    requires MergedSoFar(p0, p, mask, paint, above, k, row, start, end, id) && k < |above| && !Overlaps(above[k], start, end)
    ensures MergedSoFar(p0, p, mask, paint, above, k + 1, row, start, end, id)
  {
    hide Merged, Sound, Complete, Overlaps, Lowers;
    MergedSkip(mask, p, paint, above, k, row, start, end, id);
  }

  /** The label so far is the name of a class. */
  lemma SoFarFacts(p0: seq<nat>, p: seq<nat>, mask: Mask, paint: Painted, above: seq<LabelledRun>, k: nat,
                   row: nat, start: nat, end: nat, id: nat)
    requires MergedSoFar(p0, p, mask, paint, above, k, row, start, end, id)
    ensures IsForest(p) && LabelsIn(paint, p) && |p| == |p0| && id < |p| && Root(p, id) == id
    ensures forall l :: 0 <= l < |above| ==> 0 < above[l].id < |p|
  {
    hide Sound, Complete;
  }

  lemma MergingDone(p0: seq<nat>, p: seq<nat>, mask: Mask, paint: Painted, above: seq<LabelledRun>, k: nat,
                    row: nat, start: nat, end: nat, id: nat)
    requires MergedSoFar(p0, p, mask, paint, above, k, row, start, end, id) && RowAbove(mask, paint, above, row - 1)
    requires k < |above| ==> above[k].start > end
    ensures Labelled(mask, p, paint) && Lowers(p0, p) && LabelsIn(paint, p)
    ensures (forall l :: 0 <= l < |above| ==> 0 < above[l].id < |p|) && Merged(mask, p, paint, above, row, start, end, id)
  {
    SoFarFacts(p0, p, mask, paint, above, k, row, start, end, id);
    hide Labelled, Merged, RowAbove, Overlaps, Lowers, LabelsIn;
    AboveIsSorted(mask, paint, above, row - 1);
    BreakIsSafe(above, k, start, end);
    MergedAll(mask, p, paint, above, k, row, start, end, id);
  }

  /** One more of the runs above, merged with the label so far if it touches the run. */
  method MergeNext(uf: UnionFind, above: seq<LabelledRun>, k: nat, start: nat, end: nat, id: nat,
                   ghost p0: seq<nat>, ghost mask: Mask, ghost paint: Painted, ghost row: nat) returns (id': nat)
    requires uf.Valid() && k < |above| && above[k].start <= end
    requires RowAbove(mask, paint, above, row - 1) && PaintedUpTo(mask, paint, row, start) && RunOf(mask, row, start, end)
    requires MergedSoFar(p0, uf.parent, mask, paint, above, k, row, start, end, id)
    modifies uf
    ensures uf.Valid() && MergedSoFar(p0, uf.parent, mask, paint, above, k + 1, row, start, end, id')
  {
    hide Merged, Labelled, LabelsIn, RowAbove, RunOf, PaintedUpTo, MergesInto, Lowers, MergedSoFar, IsForest, Root;
    ghost var p := uf.parent;
    id' := id;
    if above[k].end >= start {
      SoFarFacts(p0, p, mask, paint, above, k, row, start, end, id);
      id' := MergeOne(uf, above[k].id, id);
      OneMoreMerged(p0, p, uf.parent, mask, paint, above, k, row, start, end, id, id');
    } else {
      OneSkipped(p0, p, mask, paint, above, k, row, start, end, id);
    }
  }

  /** Finds the label of one run: 0 if no run above touches it. */
  method MergeAbove(uf: UnionFind, above: seq<LabelledRun>, start: nat, end: nat,
                    ghost mask: Mask, ghost paint: Painted, ghost row: nat) returns (id: nat)
    requires uf.Valid() && Labelled(mask, uf.parent, paint)
    requires RowAbove(mask, paint, above, row - 1) && PaintedUpTo(mask, paint, row, start)
    requires RunOf(mask, row, start, end)
    requires forall l :: 0 <= l < |above| ==> 0 < above[l].id < |uf.parent|
    modifies uf
    ensures uf.Valid() && |uf.parent| == |old(uf.parent)| && Labelled(mask, uf.parent, paint)
    ensures Merged(mask, uf.parent, paint, above, row, start, end, id) && Lowers(old(uf.parent), uf.parent)
  {
    StartMerging(uf.parent, mask, paint, above, row, start, end);
    hide Merged, Labelled, LabelsIn, RowAbove, RunOf, PaintedUpTo, Lowers, MergedSoFar, IsForest, Root;
    ghost var p0 := uf.parent;
    id := 0;
    var k := 0;
    while k < |above| && above[k].start <= end
      invariant 0 <= k <= |above|
      invariant uf.Valid() && MergedSoFar(p0, uf.parent, mask, paint, above, k, row, start, end, id)
    {
      id := MergeNext(uf, above, k, start, end, id, p0, mask, paint, row);
      k := k + 1;
    }
    SoFarFacts(p0, uf.parent, mask, paint, above, k, row, start, end, id);
    MergingDone(p0, uf.parent, mask, paint, above, k, row, start, end, id);
  }

  lemma MergeFacts(p: seq<nat>, q: seq<nat>, other: nat, id: nat, id': nat)
    requires MergesInto(p, q, other, id, id')
    ensures |q| == |p|
  {
  }

  lemma AboveIsSorted(mask: Mask, paint: Painted, above: seq<LabelledRun>, row: int)
    requires RowAbove(mask, paint, above, row)
    ensures forall i, j :: 0 <= i < j < |above| ==> above[i].end < above[j].start
    ensures forall i :: 0 <= i < |above| ==> above[i].start <= above[i].end
  {
  }

  /** The runs above are sorted, so the first that starts right of this run ends the search. */
  lemma BreakIsSafe(above: seq<LabelledRun>, k: nat, start: nat, end: nat)
    requires forall i, j :: 0 <= i < j < |above| ==> above[i].end < above[j].start
    requires forall i :: 0 <= i < |above| ==> above[i].start <= above[i].end
    requires k <= |above| && (k < |above| ==> above[k].start > end)
    ensures forall l :: k <= l < |above| ==> !Overlaps(above[l], start, end)
  {
  }

  lemma MergedAll(mask: Mask, p: seq<nat>, paint: Painted, above: seq<LabelledRun>, k: nat, row: nat,
                  start: nat, end: nat, id: nat)
    requires IsForest(p) && LabelsIn(paint, p) && (forall l :: 0 <= l < |above| ==> above[l].id < |p|)
    requires k <= |above| && Merged(mask, p, paint, above[..k], row, start, end, id)
    requires forall l :: k <= l < |above| ==> !Overlaps(above[l], start, end)
    ensures Merged(mask, p, paint, above, row, start, end, id)
  {
    forall l | 0 <= l < |above| && Overlaps(above[l], start, end) ensures Root(p, above[l].id) == id && id != 0 {
      assert above[l] == above[..k][l];
    }
    if id != 0 {
      var l :| 0 <= l < k && Overlaps(above[..k][l], start, end);
      assert Overlaps(above[l], start, end);
    }
  }

  // ---------- writing one run's label ----------

  ghost function Paint(paint: Painted, row: nat, start: nat, end: nat, id: nat): (r: Painted) {
    paint + (map c | start <= c <= end :: (row, c) := id)
  }

  /** paint' is paint with the run's cells added under one label. */
  ghost predicate Extends(paint: Painted, paint': Painted, row: nat, start: nat, end: nat, id: nat) {
    && (forall c: Cell :: c in paint' <==> c in paint || (c.0 == row && start <= c.1 <= end))
    && (forall c: Cell :: c in paint' ==> paint'[c] == if c in paint then paint[c] else id)
  }

  lemma PaintExtends(mask: Mask, paint: Painted, row: nat, start: nat, end: nat, id: nat)
    requires PaintedUpTo(mask, paint, row, start) && RunOf(mask, row, start, end)
    ensures Extends(paint, Paint(paint, row, start, end, id), row, start, end, id)
    ensures PaintedUpTo(mask, Paint(paint, row, start, end, id), row, end + 1)
  {
  }

  lemma PaintSound(mask: Mask, p: seq<nat>, paint: Painted, row: nat, start: nat, end: nat, id: nat, paint': Painted)
    requires Labelled(mask, p, paint) && RunOf(mask, row, start, end)
    requires 0 < id < |p| && Root(p, id) == id
    requires Extends(paint, paint', row, start, end, id)
    requires forall c :: c in paint && RootAt(p, paint, c) == id ==> Connected(mask, c, (row, start))
    ensures LabelsIn(paint', p) && Sound(mask, p, paint')
  {
    forall c | c in paint' && RootAt(p, paint', c) == id ensures Connected(mask, c, (row, start)) {
      if c in paint {
        assert RootAt(p, paint, c) == id;
      } else {
        RunConnected(mask, row, start, c.1);
        ConnectedSym(mask, (row, start), c);
      }
    }
    forall a, b | a in paint' && b in paint' && RootAt(p, paint', a) == RootAt(p, paint', b)
      ensures Connected(mask, a, b)
    {
      if RootAt(p, paint', a) == id {
        ConnectedSym(mask, b, (row, start));
        ConnectedTrans(mask, a, (row, start), b);
      } else {
        assert RootAt(p, paint, a) == RootAt(p, paint, b);
      }
    }
  }

  lemma PaintComplete(mask: Mask, p: seq<nat>, paint: Painted, above: seq<LabelledRun>, row: nat,
                      start: nat, end: nat, id: nat, paint': Painted)
    requires IsForest(p) && LabelsIn(paint, p) && LabelsIn(paint', p) && Complete(p, paint)
    requires RowAbove(mask, paint, above, row - 1) && PaintedUpTo(mask, paint, row, start)
    requires RunOf(mask, row, start, end) && 0 < id < |p| && Root(p, id) == id
    requires forall l :: 0 <= l < |above| ==> 0 < above[l].id < |p|
    requires forall l :: 0 <= l < |above| && Overlaps(above[l], start, end) ==> Root(p, above[l].id) == id
    requires Extends(paint, paint', row, start, end, id)
    ensures Complete(p, paint')
  {
    forall a, b | a in paint' && b in paint' && Adjacent(a, b)
      ensures RootAt(p, paint', a) == RootAt(p, paint', b)
    {
      if a in paint && b in paint {
        assert RootAt(p, paint, a) == RootAt(p, paint, b);
      } else if a in paint {
        UpperNeighbour(mask, p, paint, above, row, start, end, id, a, b);
      } else if b in paint {
        UpperNeighbour(mask, p, paint, above, row, start, end, id, b, a);
      }
    }
  }

  /** A labelled neighbour of the run can only be the cell straight above one of its own. */
  lemma UpperNeighbour(mask: Mask, p: seq<nat>, paint: Painted, above: seq<LabelledRun>, row: nat,
                       start: nat, end: nat, id: nat, upper: Cell, lower: Cell)
    requires IsForest(p) && LabelsIn(paint, p)
    requires RowAbove(mask, paint, above, row - 1) && PaintedUpTo(mask, paint, row, start)
    requires RunOf(mask, row, start, end)
    requires forall l :: 0 <= l < |above| ==> 0 < above[l].id < |p|
    requires forall l :: 0 <= l < |above| && Overlaps(above[l], start, end) ==> Root(p, above[l].id) == id
    requires upper in paint && lower.0 == row && start <= lower.1 <= end && Adjacent(upper, lower)
    ensures RootAt(p, paint, upper) == id
  {
    assert upper == (row - 1, lower.1);
    assert InSomeRun(above, lower.1);
    var k :| 0 <= k < |above| && above[k].start <= lower.1 <= above[k].end;
    assert Overlaps(above[k], start, end);
    assert paint[upper] == above[k].id;
  }

  /** A fresh label starts a class of its own. */
  lemma FreshLabel(mask: Mask, p: seq<nat>, q: seq<nat>, paint: Painted)
    requires Labelled(mask, p, paint)
    requires q == p + [|p|] && IsForest(q)
    requires forall i: nat :: i < |p| ==> Root(q, i) == Root(p, i)
    ensures Labelled(mask, q, paint)
    ensures forall c :: c in paint ==> RootAt(q, paint, c) == RootAt(p, paint, c)
  {
    forall a, b | a in paint && b in paint && RootAt(q, paint, a) == RootAt(q, paint, b)
      ensures Connected(mask, a, b)
    {
      assert RootAt(p, paint, a) == RootAt(p, paint, b);
    }
    forall a, b | a in paint && b in paint && Adjacent(a, b)
      ensures RootAt(q, paint, a) == RootAt(q, paint, b)
    {
      assert RootAt(p, paint, a) == RootAt(p, paint, b);
    }
  }

  // ---------- where each label was first used ----------

  /** Reading order: row by row from the top, each from the left. */
  predicate Earlier(a: Cell, b: Cell) {
    a.0 < b.0 || (a.0 == b.0 && a.1 < b.1)
  }

  /** The cell each label was made for: it has the label, and the labels are made in reading order. */
  ghost predicate Made(n: nat, paint: Painted, firsts: seq<Cell>) {
    && |firsts| == n
    && (forall x: nat :: 0 < x < n ==> firsts[x] in paint && paint[firsts[x]] == x)
    && (forall x: nat, y: nat :: 0 < x < y < n ==> Earlier(firsts[x], firsts[y]))
  }

  /** No cell comes before the one its class's name was made for. */
  ghost predicate Founded(p: seq<nat>, paint: Painted, firsts: seq<Cell>)
    requires IsForest(p) && LabelsIn(paint, p)
  {
    Made(|p|, paint, firsts) && forall c :: c in paint ==> !Earlier(c, firsts[RootAt(p, paint, c)])
  }

  lemma MadeInOrder(n: nat, paint: Painted, firsts: seq<Cell>, x: nat, y: nat)
    requires Made(n, paint, firsts) && 0 < x <= y < n
    ensures x == y || Earlier(firsts[x], firsts[y])
  {
  }

  lemma LoweredIsFounded(p: seq<nat>, q: seq<nat>, paint: Painted, firsts: seq<Cell>)
    requires Lowers(p, q) && LabelsIn(paint, p) && Founded(p, paint, firsts)
    ensures LabelsIn(paint, q) && Founded(q, paint, firsts)
  {
    assert |firsts| == |p|;
    hide Made, IsForest;
    forall c | c in paint ensures !Earlier(c, firsts[RootAt(q, paint, c)]) {
      assert RootAt(q, paint, c) <= RootAt(p, paint, c);
      MadeInOrder(|p|, paint, firsts, RootAt(q, paint, c), RootAt(p, paint, c));
    }
  }

  lemma MadeStays(n: nat, mask: Mask, paint: Painted, firsts: seq<Cell>, row: nat, start: nat, end: nat, id: nat, paint': Painted)
    requires Made(n, paint, firsts) && PaintedUpTo(mask, paint, row, start) && Extends(paint, paint', row, start, end, id)
    ensures Made(n, paint', firsts)
    ensures start <= end && id == n > 0 ==> Made(n + 1, paint', firsts + [(row, start)])
  {
  }

  /** A run that takes over a class's name comes after that class's first cell. */
  lemma PaintedIsFounded(mask: Mask, p: seq<nat>, paint: Painted, firsts: seq<Cell>, row: nat, start: nat, end: nat, id: nat, paint': Painted)
    requires IsForest(p) && LabelsIn(paint, p) && LabelsIn(paint', p) && Founded(p, paint, firsts)
    requires PaintedUpTo(mask, paint, row, start) && Extends(paint, paint', row, start, end, id)
    requires 0 < id < |p| && Root(p, id) == id
    ensures Founded(p, paint', firsts)
  {
    MadeStays(|p|, mask, paint, firsts, row, start, end, id, paint');
    assert Earlier(firsts[id], (row, start));
    hide IsForest, Made, PaintedUpTo;
    forall c | c in paint' ensures !Earlier(c, firsts[RootAt(p, paint', c)]) {
      if c in paint {
        assert RootAt(p, paint', c) == RootAt(p, paint, c);
      }
    }
  }

  /** A new label is later than all before it. */
  lemma FreshIsFounded(mask: Mask, p: seq<nat>, q: seq<nat>, paint: Painted, firsts: seq<Cell>, row: nat, start: nat, end: nat, paint': Painted)
    requires IsForest(p) && LabelsIn(paint, p) && Founded(p, paint, firsts) && q == p + [|p|] && IsForest(q)
    requires Root(q, |p|) == |p| && forall i: nat :: i < |p| ==> Root(q, i) == Root(p, i)
    requires PaintedUpTo(mask, paint, row, start) && start <= end && Extends(paint, paint', row, start, end, |p|)
    requires LabelsIn(paint', q)
    ensures Founded(q, paint', firsts + [(row, start)])
  {
    MadeStays(|p|, mask, paint, firsts, row, start, end, |p|, paint');
    hide Made, PaintedUpTo;
    var firsts' := firsts + [(row, start)];
    forall c | c in paint' ensures !Earlier(c, firsts'[RootAt(q, paint', c)]) {
      FreshAt(p, q, paint, firsts, row, start, end, paint', c);
    }
  }

  lemma FreshAt(p: seq<nat>, q: seq<nat>, paint: Painted, firsts: seq<Cell>, row: nat, start: nat, end: nat, paint': Painted, c: Cell)
    requires IsForest(p) && LabelsIn(paint, p) && Founded(p, paint, firsts) && q == p + [|p|] && IsForest(q)
    requires Root(q, |p|) == |p| && forall i: nat :: i < |p| ==> Root(q, i) == Root(p, i)
    requires Extends(paint, paint', row, start, end, |p|) && LabelsIn(paint', q) && c in paint' && |firsts| == |p|
    ensures !Earlier(c, (firsts + [(row, start)])[RootAt(q, paint', c)])
  {
    hide IsForest, Made;
    if c in paint {
      assert RootAt(q, paint', c) == RootAt(p, paint, c);
    } else {
      assert RootAt(q, paint', c) == |p|;
    }
  }

  /** Gives one run its label, and the invariants for its cells. */
  method LabelRun(uf: UnionFind, above: seq<LabelledRun>, start: nat, end: nat,
                  ghost mask: Mask, ghost paint: Painted, ghost firsts: seq<Cell>, ghost row: nat)
    returns (id: nat, ghost paint': Painted, ghost firsts': seq<Cell>)
    requires uf.Valid() && Labelled(mask, uf.parent, paint) && Founded(uf.parent, paint, firsts)
    requires RowAbove(mask, paint, above, row - 1) && PaintedUpTo(mask, paint, row, start)
    requires RunOf(mask, row, start, end)
    requires forall l :: 0 <= l < |above| ==> 0 < above[l].id < |uf.parent|
    modifies uf
    ensures uf.Valid() && |uf.parent| >= |old(uf.parent)|
    ensures Labelled(mask, uf.parent, paint') && Founded(uf.parent, paint', firsts')
    ensures 0 < id < |uf.parent|
    ensures Extends(paint, paint', row, start, end, id)
    ensures PaintedUpTo(mask, paint', row, end + 1)
  {
    hide Founded;
    id := MergeAbove(uf, above, start, end, mask, paint, row);
    ghost var p := uf.parent;
    LoweredIsFounded(old(uf.parent), p, paint, firsts);
    ghost var made := id == 0;
    if id == 0 {
      id := uf.Make();
      FreshLabel(mask, p, uf.parent, paint);
    }
    paint' := Paint(paint, row, start, end, id);
    PaintExtends(mask, paint, row, start, end, id);
    PaintSound(mask, uf.parent, paint, row, start, end, id, paint');
    PaintComplete(mask, uf.parent, paint, above, row, start, end, id, paint');
    if made {
      FreshIsFounded(mask, p, uf.parent, paint, firsts, row, start, end, paint');
      firsts' := firsts + [(row, start)];
    } else {
      PaintedIsFounded(mask, p, paint, firsts, row, start, end, id, paint');
      firsts' := firsts;
    }
  }

  ghost predicate ShownBy(labels: array2<nat>, paint: Painted)
    reads labels
  {
    forall r: nat, c: nat :: r < labels.Length0 && c < labels.Length1 ==>
      labels[r, c] == if (r, c) in paint then paint[(r, c)] else 0
  }

  /** The runs of this row that have their labels. */
  ghost predicate RowSoFar(paint: Painted, current: seq<LabelledRun>, runs: seq<Span>, row: nat) {
    && |current| <= |runs|
    && forall k :: 0 <= k < |current| ==>
         && current[k].start == runs[k].0 && current[k].end == runs[k].1
         && forall c: nat :: runs[k].0 <= c <= runs[k].1 ==> (row, c) in paint && paint[(row, c)] == current[k].id
  }

  lemma RunIsMaximal(mask: Mask, row: nat, runs: seq<Span>, k: nat)
    requires row < |mask| && AreRuns(mask[row], runs) && k < |runs|
    ensures RunOf(mask, row, runs[k].0, runs[k].1)
  {
    var start: int, end: int := runs[k].0, runs[k].1;
    forall l | 0 <= l < |runs|
      ensures !(runs[l].0 <= start - 1 <= runs[l].1) && !(runs[l].0 <= end + 1 <= runs[l].1)
    {
      if l < k {
        assert runs[l].1 + 1 < start;
      } else if l > k {
        assert end + 1 < runs[l].0;
      }
    }
  }

  /** Between two runs of a row there is no copper to paint. */
  lemma SkipGap(mask: Mask, paint: Painted, row: nat, runs: seq<Span>, k: nat)
    requires row < |mask| && AreRuns(mask[row], runs) && k <= |runs|
    requires PaintedUpTo(mask, paint, row, if k == 0 then 0 else runs[k - 1].1 + 1)
    ensures k < |runs| ==> PaintedUpTo(mask, paint, row, runs[k].0)
    ensures k == |runs| ==> PaintedUpTo(mask, paint, row + 1, 0)
  {
    var done := if k == 0 then 0 else runs[k - 1].1 + 1;
    assert forall l :: 0 <= l < k ==> runs[l].1 < done;
    forall c: nat | done <= c < |mask[row]| && mask[row][c]
      ensures k < |runs| && runs[k].0 <= c
    {
      var l :| 0 <= l < |runs| && runs[l].0 <= c <= runs[l].1;
      assert l >= k;
      assert runs[k].0 <= runs[l].0;
    }
  }

  lemma RowFinished(mask: Mask, paint: Painted, current: seq<LabelledRun>, runs: seq<Span>, row: nat)
    requires row < |mask| && AreRuns(mask[row], runs)
    requires RowSoFar(paint, current, runs, row) && |current| == |runs|
    ensures RowAbove(mask, paint, current, row)
  {
    forall c: nat | Copper(mask, (row, c)) ensures InSomeRun(current, c) {
      var k :| 0 <= k < |runs| && runs[k].0 <= c <= runs[k].1;
      assert current[k].start <= c <= current[k].end;
    }
  }

  lemma RowAboveStays(mask: Mask, paint: Painted, paint': Painted, above: seq<LabelledRun>, row: nat,
                      start: nat, end: nat, id: nat)
    requires RowAbove(mask, paint, above, row - 1) && Extends(paint, paint', row, start, end, id)
    ensures RowAbove(mask, paint', above, row - 1)
  {
  }

  lemma RowSoFarGrows(mask: Mask, paint: Painted, paint': Painted, current: seq<LabelledRun>, runs: seq<Span>,
                      row: nat, id: nat)
    requires RowSoFar(paint, current, runs, row) && |current| < |runs|
    requires PaintedUpTo(mask, paint, row, runs[|current|].0)
    requires Extends(paint, paint', row, runs[|current|].0, runs[|current|].1, id)
    ensures RowSoFar(paint', current + [LabelledRun(runs[|current|].0, runs[|current|].1, id)], runs, row)
  {
  }

  /** The first `row` rows are labelled, as a mask of their own: two of their cells share a root exactly
      when a path of copper in these rows joins them. */
  ghost predicate RowsDone(mask: Mask, row: nat, p: seq<nat>, paint: Painted, firsts: seq<Cell>, above: seq<LabelledRun>) {
    && row <= |mask| && Labelled(mask[..row], p, paint) && PaintedUpTo(mask[..row], paint, row, 0)
    && RowAbove(mask[..row], paint, above, row - 1) && Founded(p, paint, firsts)
    && forall l :: 0 <= l < |above| ==> 0 < above[l].id < |p|
  }

  lemma PathStays(mask: Mask, row: nat, a: Cell, b: Cell)
    requires row < |mask| && Connected(mask[..row], a, b)
    ensures Connected(mask[..row + 1], a, b)
  {
    var path :| Joins(mask[..row], path, a, b);
    assert Joins(mask[..row + 1], path, a, b);
  }

  /** The labels of the rows above are right with one more row below them. */
  lemma OneMoreRow(mask: Mask, row: nat, p: seq<nat>, paint: Painted, firsts: seq<Cell>, above: seq<LabelledRun>)
    requires row < |mask| && RowsDone(mask, row, p, paint, firsts, above)
    ensures Labelled(mask[..row + 1], p, paint) && PaintedUpTo(mask[..row + 1], paint, row, 0)
    ensures RowAbove(mask[..row + 1], paint, above, row - 1)
  {
    forall a, b | a in paint && b in paint && RootAt(p, paint, a) == RootAt(p, paint, b) ensures Connected(mask[..row + 1], a, b) {
      PathStays(mask, row, a, b);
    }
  }

  lemma RowsAreDone(mask: Mask, row: nat, p: seq<nat>, paint: Painted, firsts: seq<Cell>, above: seq<LabelledRun>, a: Cell, b: Cell)
    requires RowsDone(mask, row, p, paint, firsts, above) && a in paint && b in paint
    ensures RootAt(p, paint, a) == RootAt(p, paint, b) <==> Connected(mask[..row], a, b)
  {
    hide Labelled, RowAbove, Founded;
    LabelledFacts(mask[..row], p, paint);
    RootsAreIslands(mask[..row], p, paint, a, b);
  }

  /** The first k runs of the row are labelled too. */
  ghost predicate RunsDone(rows: Mask, row: nat, p: seq<nat>, paint: Painted, firsts: seq<Cell>, above: seq<LabelledRun>,
                           current: seq<LabelledRun>, runs: seq<Span>, k: nat) {
    && |current| == k <= |runs|
    && Labelled(rows, p, paint) && Founded(p, paint, firsts)
    && PaintedUpTo(rows, paint, row, if k == 0 then 0 else runs[k - 1].1 + 1)
    && RowAbove(rows, paint, above, row - 1) && RowSoFar(paint, current, runs, row)
    && (forall l :: 0 <= l < |above| ==> 0 < above[l].id < |p|)
    && (forall l :: 0 <= l < |current| ==> 0 < current[l].id < |p|)
  }

  /** One more run of the row. */
  method LabelNext(mask: Mask, row: nat, uf: UnionFind, labels: array2<nat>, above: seq<LabelledRun>, current: seq<LabelledRun>,
                   runs: seq<Span>, k: nat, ghost paint: Painted, ghost firsts: seq<Cell>)
    returns (current': seq<LabelledRun>, ghost paint': Painted, ghost firsts': seq<Cell>)
    requires row < |mask| && labels.Length0 == |mask| && labels.Length1 == |mask[row]|
    requires uf.Valid() && k < |runs| && AreRuns(mask[row], runs) && ShownBy(labels, paint)
    requires RunsDone(mask[..row + 1], row, uf.parent, paint, firsts, above, current, runs, k)
    modifies uf, labels
    ensures uf.Valid() && ShownBy(labels, paint')
    ensures RunsDone(mask[..row + 1], row, uf.parent, paint', firsts', above, current', runs, k + 1)
  {
    hide Labelled, PaintedUpTo, RowAbove, RowSoFar, AreRuns, Copper, RunOf, Extends, Founded;
    ghost var rows := mask[..row + 1];
    var (start, end) := runs[k];
    SkipGap(rows, paint, row, runs, k);
    RunIsMaximal(rows, row, runs, k);
    LabelledFacts(rows, uf.parent, paint);
    var id;
    id, paint', firsts' := LabelRun(uf, above, start, end, rows, paint, firsts, row);
    RowAboveStays(rows, paint, paint', above, row, start, end, id);
    RowSoFarGrows(rows, paint, paint', current, runs, row, id);
    WriteRun(labels, rows, paint, paint', row, start, end, id);
    LabelledFacts(rows, uf.parent, paint');
    current' := current + [LabelledRun(start, end, id)];
  }

  method LabelRow(mask: Mask, row: nat, uf: UnionFind, labels: array2<nat>, above: seq<LabelledRun>, ghost paint0: Painted, ghost firsts0: seq<Cell>)
    returns (current: seq<LabelledRun>, ghost paint: Painted, ghost firsts: seq<Cell>)
    requires row < |mask| && labels.Length0 == |mask| && labels.Length1 == |mask[row]|
    requires uf.Valid() && RowsDone(mask, row, uf.parent, paint0, firsts0, above) && ShownBy(labels, paint0)
    modifies uf, labels
    ensures uf.Valid() && RowsDone(mask, row + 1, uf.parent, paint, firsts, current) && ShownBy(labels, paint)
  {
    var runs := Runs(mask[row]);
    RowStarts(mask, row, uf.parent, paint0, firsts0, above, runs);
    hide RowsDone, RunsDone, AreRuns;
    current, paint, firsts := [], paint0, firsts0;
    var k := 0;
    while k < |runs|
      invariant 0 <= k <= |runs| && uf.Valid() && ShownBy(labels, paint)
      invariant RunsDone(mask[..row + 1], row, uf.parent, paint, firsts, above, current, runs, k)
    {
      current, paint, firsts := LabelNext(mask, row, uf, labels, above, current, runs, k, paint, firsts);
      k := k + 1;
    }
    RowEnds(mask, row, uf.parent, paint, firsts, above, current, runs);
  }

  lemma RowStarts(mask: Mask, row: nat, p: seq<nat>, paint: Painted, firsts: seq<Cell>, above: seq<LabelledRun>, runs: seq<Span>)
    requires row < |mask| && RowsDone(mask, row, p, paint, firsts, above)
    ensures RunsDone(mask[..row + 1], row, p, paint, firsts, above, [], runs, 0)
  {
    OneMoreRow(mask, row, p, paint, firsts, above);
    hide Labelled, PaintedUpTo, RowAbove, Founded;
    EmptyRow(paint, runs, row);
  }

  lemma RowEnds(mask: Mask, row: nat, p: seq<nat>, paint: Painted, firsts: seq<Cell>, above: seq<LabelledRun>, current: seq<LabelledRun>,
                runs: seq<Span>)
    requires row < |mask| && AreRuns(mask[row], runs)
    requires RunsDone(mask[..row + 1], row, p, paint, firsts, above, current, runs, |runs|)
    ensures RowsDone(mask, row + 1, p, paint, firsts, current)
  {
    hide Labelled, PaintedUpTo, RowAbove, RowSoFar, AreRuns, Founded;
    SkipGap(mask[..row + 1], paint, row, runs, |runs|);
    RowFinished(mask[..row + 1], paint, current, runs, row);
  }

  lemma EmptyRow(paint: Painted, runs: seq<Span>, row: nat)
    ensures RowSoFar(paint, [], runs, row)
  {
  }

  method WriteRun(labels: array2<nat>, ghost mask: Mask, ghost paint: Painted, ghost paint': Painted,
                  row: nat, start: nat, end: nat, id: nat)
    requires row < labels.Length0 && end < labels.Length1
    requires PaintedUpTo(mask, paint, row, start)
    requires ShownBy(labels, paint) && Extends(paint, paint', row, start, end, id)
    modifies labels
    ensures ShownBy(labels, paint')
  {
    forall c | start <= c <= end {
      labels[row, c] := id;
    }
  }

  // ---------- numbering the islands 1..count ----------

  /** With every cell painted, two copper cells share a root exactly when copper joins them. */
  lemma RootsAreIslands(mask: Mask, p: seq<nat>, paint: Painted, a: Cell, b: Cell)
    requires Labelled(mask, p, paint) && PaintedUpTo(mask, paint, |mask|, 0)
    requires Copper(mask, a) && Copper(mask, b)
    ensures RootAt(p, paint, a) == RootAt(p, paint, b) <==> Connected(mask, a, b)
  {
    if Connected(mask, a, b) {
      var path :| Joins(mask, path, a, b);
      RootAlongPath(mask, p, paint, path, |path| - 1);
    }
  }

  lemma {:induction false} RootAlongPath(mask: Mask, p: seq<nat>, paint: Painted, path: seq<Cell>, i: nat)
    requires Labelled(mask, p, paint) && PaintedUpTo(mask, paint, |mask|, 0)
    requires IsPath(mask, path) && i < |path|
    ensures RootAt(p, paint, path[0]) == RootAt(p, paint, path[i])
  {
    if i > 0 {
      RootAlongPath(mask, p, paint, path, i - 1);
      assert Adjacent(path[i - 1], path[i]);
    }
  }

  ghost predicate Occurs(grid: array2<nat>, v: nat)
    reads grid
  {
    exists r: nat, c: nat :: r < grid.Length0 && c < grid.Length1 && grid[r, c] == v
  }

  /** What the two arrays of labels must mean for the mask. */
  ghost predicate IsLabelling(mask: Mask, labels: array2<nat>, count: nat)
    requires labels.Length0 == |mask| && IsMask(mask, |mask|, labels.Length1)
    reads labels
  {
    && (forall r: nat, c: nat :: r < |mask| && c < labels.Length1 ==>
          labels[r, c] <= count && (labels[r, c] == 0 <==> !mask[r][c]))
    && (forall k: nat :: 1 <= k <= count ==> Occurs(labels, k))
    && (forall r: nat, c: nat, r': nat, c': nat | Copper(mask, (r, c)) && Copper(mask, (r', c')) ::
          labels[r, c] == labels[r', c'] <==> Connected(mask, (r, c), (r', c')))
  }

  /** The distinct nonzero values of a grid, ascending. */
  ghost predicate IsUnique(grid: array2<nat>, used: seq<nat>)
    reads grid
  {
    && (forall i, j :: 0 <= i < j < |used| ==> used[i] < used[j])
    && (forall v: nat :: v in used <==> v != 0 && Occurs(grid, v))
  }

  method Unique(grid: array2<nat>, bound: nat) returns (used: seq<nat>)
    requires forall r: nat, c: nat :: r < grid.Length0 && c < grid.Length1 ==> grid[r, c] < bound
    ensures IsUnique(grid, used)
  {
    used := [];
    var v := 1;
    while v < bound
      invariant 1 <= v && (v <= bound || used == [])
      invariant forall i, j :: 0 <= i < j < |used| ==> used[i] < used[j]
      invariant forall i :: 0 <= i < |used| ==> used[i] < v
      invariant forall u: nat :: u in used <==> 0 < u < v && Occurs(grid, u)
    {
      if exists r: nat, c: nat | r < grid.Length0 && c < grid.Length1 :: grid[r, c] == v {
        used := used + [v];
      }
      v := v + 1;
    }
  }

  method Roots(uf: UnionFind) returns (roots: seq<nat>)
    requires uf.Valid()
    modifies uf
    ensures uf.Valid() && SameRoots(uf.parent, old(uf.parent))
    ensures |roots| == |uf.parent| && forall i: nat :: i < |roots| ==> roots[i] == Root(uf.parent, i)
  {
    roots := [0];
    var i: nat := 1;
    while i < |uf.parent|
      invariant 1 <= i <= |uf.parent| && |roots| == i
      invariant uf.Valid() && SameRoots(uf.parent, old(uf.parent))
      invariant forall j: nat :: j < i ==> roots[j] == Root(uf.parent, j)
    {
      var root := uf.Find(i);
      roots := roots + [root];
      i := i + 1;
    }
  }

  /** `n` is the 1-based place of v in the ascending list, and 0 for 0. */
  ghost predicate RankOf(n: nat, used: seq<nat>, v: nat) {
    if v == 0 then n == 0 else 0 < n <= |used| && used[n - 1] == v
  }

  method RemapOf(ghost grid: array2<nat>, used: seq<nat>) returns (remap: array<nat>)
    requires IsUnique(grid, used)
    ensures fresh(remap)
    ensures remap.Length == if used == [] then 1 else used[|used| - 1] + 1
    ensures remap[0] == 0
    ensures forall k :: 0 <= k < |used| ==> used[k] < remap.Length && remap[used[k]] == k + 1
  {
    var top := if used == [] then 0 else used[|used| - 1];
    remap := new nat[top + 1](_ => 0);
    var k := 0;
    while k < |used|
      invariant 0 <= k <= |used| && remap[0] == 0
      invariant forall i :: 0 <= i < k ==> used[i] < remap.Length && remap[used[i]] == i + 1
    {
      assert used[k] <= top && used[k] in used;
      remap[used[k]] := k + 1;
      k := k + 1;
    }
  }

  /** Renumbering by rank keeps "same island" and leaves no gaps. */
  lemma RankIsLabelling(mask: Mask, p: seq<nat>, paint: Painted, resolved: array2<nat>, used: seq<nat>, labels: array2<nat>)
    requires IsMask(mask, |mask|, labels.Length1)
    requires resolved.Length0 == labels.Length0 == |mask| && resolved.Length1 == labels.Length1
    requires Labelled(mask, p, paint) && PaintedUpTo(mask, paint, |mask|, 0)
    requires forall r: nat, c: nat :: r < |mask| && c < labels.Length1 ==>
      resolved[r, c] == if (r, c) in paint then RootAt(p, paint, (r, c)) else 0
    requires IsUnique(resolved, used)
    requires forall r: nat, c: nat :: r < |mask| && c < labels.Length1 ==>
      RankOf(labels[r, c], used, resolved[r, c])
    ensures IsLabelling(mask, labels, |used|)
  {
    forall k: nat | 1 <= k <= |used| ensures Occurs(labels, k) {
      assert used[k - 1] in used;
      var r: nat, c: nat :| r < resolved.Length0 && c < resolved.Length1 && resolved[r, c] == used[k - 1];
      assert labels[r, c] == k;
    }
    forall r: nat, c: nat, r': nat, c': nat | Copper(mask, (r, c)) && Copper(mask, (r', c'))
      ensures labels[r, c] == labels[r', c'] <==> Connected(mask, (r, c), (r', c'))
    {
      RootsAreIslands(mask, p, paint, (r, c), (r', c'));
      assert labels[r, c] == labels[r', c'] <==> resolved[r, c] == resolved[r', c'];
    }
  }

  /** Some cell of label k comes before every cell of label m. */
  ghost predicate ComesFirst(labels: array2<nat>, k: nat, m: nat)
    reads labels
  {
    exists r: nat, c: nat :: r < labels.Length0 && c < labels.Length1 && labels[r, c] == k && LeadsAll(labels, r, c, m)
  }

  ghost predicate LeadsAll(labels: array2<nat>, r: nat, c: nat, m: nat)
    reads labels
  {
    forall r': nat, c': nat :: r' < labels.Length0 && c' < labels.Length1 && labels[r', c'] == m ==> Earlier((r, c), (r', c'))
  }

  /** The islands are numbered by where they are first met, in reading order. */
  ghost predicate InReadingOrder(labels: array2<nat>, count: nat)
    reads labels
  {
    forall k: nat, m: nat :: 1 <= k < m <= count ==> ComesFirst(labels, k, m)
  }

  lemma NamedAt(p: seq<nat>, paint: Painted, firsts: seq<Cell>, c: Cell)
    requires IsForest(p) && LabelsIn(paint, p) && Founded(p, paint, firsts) && c in paint
    ensures var x := RootAt(p, paint, c); firsts[x] in paint && RootAt(p, paint, firsts[x]) == x
  {
  }

  /** Ranking the classes by name ranks the islands by their first cells. */
  lemma RankIsReadingOrder(mask: Mask, p: seq<nat>, paint: Painted, firsts: seq<Cell>, resolved: array2<nat>, used: seq<nat>, labels: array2<nat>)
    requires IsMask(mask, |mask|, labels.Length1)
    requires resolved.Length0 == labels.Length0 == |mask| && resolved.Length1 == labels.Length1
    requires IsForest(p) && LabelsIn(paint, p) && PaintedUpTo(mask, paint, |mask|, 0) && Founded(p, paint, firsts)
    requires forall r: nat, c: nat :: r < |mask| && c < labels.Length1 ==>
      resolved[r, c] == if (r, c) in paint then RootAt(p, paint, (r, c)) else 0
    requires IsUnique(resolved, used)
    requires forall r: nat, c: nat :: r < |mask| && c < labels.Length1 ==> RankOf(labels[r, c], used, resolved[r, c])
    ensures InReadingOrder(labels, |used|)
  {
    hide IsForest;
    forall k: nat, m: nat | 1 <= k < m <= |used| ensures ComesFirst(labels, k, m) {
      var x, y := used[k - 1], used[m - 1];
      assert x in used && y in used && x < y;
      var r: nat, c: nat :| r < resolved.Length0 && c < resolved.Length1 && resolved[r, c] == x;
      NamedAt(p, paint, firsts, (r, c));
      var (r0, c0) := firsts[x];
      assert resolved[r0, c0] == x;
      RankUnique(labels[r0, c0], k, used, x);
      forall r': nat, c': nat | r' < labels.Length0 && c' < labels.Length1 && labels[r', c'] == m
        ensures Earlier((r0, c0), (r', c'))
      {
        assert RootAt(p, paint, (r', c')) == y;
        assert Earlier(firsts[x], firsts[y]);
      }
      assert LeadsAll(labels, r0, c0, m);
    }
  }

  lemma RankUnique(n: nat, k: nat, used: seq<nat>, v: nat)
    requires (forall i, j :: 0 <= i < j < |used| ==> used[i] < used[j]) && v != 0
    requires RankOf(n, used, v) && 1 <= k <= |used| && used[k - 1] == v
    ensures n == k
  {
  }

  /** label_components: two copper cells get one label exactly when 4-connected copper joins
      them, the background is 0, and the labels are 1..count, by where each is first met. */
  method LabelComponents(mask: Mask, width: nat) returns (labels: array2<nat>, count: nat)
    requires IsMask(mask, |mask|, width)
    ensures labels.Length0 == |mask| && labels.Length1 == width
    ensures IsLabelling(mask, labels, count) && InReadingOrder(labels, count)
  {
    hide Copper, Founded, RowAbove;
    var height := |mask|;
    labels := new nat[height, width]((_, _) => 0);
    var uf := new UnionFind();
    var prev: seq<LabelledRun> := [];
    ghost var paint: Painted, firsts: seq<Cell> := map[], [(0, 0)];
    NothingPainted(mask, uf.parent);
    hide RowsDone, Labelled;
    var row := 0;
    while row < height
      invariant 0 <= row <= height
      invariant fresh(uf) && fresh(labels) && labels.Length0 == |mask| && labels.Length1 == width
      invariant uf.Valid() && RowsDone(mask, row, uf.parent, paint, firsts, prev) && ShownBy(labels, paint)
    {
      prev, paint, firsts := LabelRow(mask, row, uf, labels, prev, paint, firsts);
      row := row + 1;
    }
    AllRowsDone(mask, uf.parent, paint, firsts, prev);
    if uf.parent == [0] {
      NoLabelsNoCopper(mask, uf.parent, paint, labels);
      return labels, 0;
    }
    labels, count := Renumber(mask, width, uf, labels, paint, firsts);
  }

  lemma AllRowsDone(mask: Mask, p: seq<nat>, paint: Painted, firsts: seq<Cell>, above: seq<LabelledRun>)
    requires RowsDone(mask, |mask|, p, paint, firsts, above)
    ensures Labelled(mask, p, paint) && PaintedUpTo(mask, paint, |mask|, 0) && Founded(p, paint, firsts)
  {
    hide Labelled, PaintedUpTo, Founded;
    assert mask[..|mask|] == mask;
  }

  lemma NothingPainted(mask: Mask, p: seq<nat>)
    requires p == [0] && IsForest(p)
    ensures RowsDone(mask, 0, p, map[], [(0, 0)], [])
  {
  }

  lemma NoLabelsNoCopper(mask: Mask, p: seq<nat>, paint: Painted, labels: array2<nat>)
    requires labels.Length0 == |mask| && IsMask(mask, |mask|, labels.Length1)
    requires p == [0] && Labelled(mask, p, paint) && PaintedUpTo(mask, paint, |mask|, 0)
    requires ShownBy(labels, paint)
    ensures IsLabelling(mask, labels, 0)
  {
    forall c: Cell ensures c !in paint {
    }
    forall r: nat, c: nat | r < |mask| && c < labels.Length1 ensures labels[r, c] == 0 && !mask[r][c] {
      assert !Copper(mask, (r, c));
    }
  }

  method Resolve(labels: array2<nat>, roots: seq<nat>, ghost p: seq<nat>, ghost paint: Painted)
    returns (resolved: array2<nat>)
    requires IsForest(p) && LabelsIn(paint, p) && ShownBy(labels, paint)
    requires |roots| == |p| && forall i: nat :: i < |p| ==> roots[i] == Root(p, i)
    ensures fresh(resolved) && resolved.Length0 == labels.Length0 && resolved.Length1 == labels.Length1
    ensures forall r: nat, c: nat :: r < labels.Length0 && c < labels.Length1 ==>
      resolved[r, c] == if (r, c) in paint then RootAt(p, paint, (r, c)) else 0
  {
    resolved := new nat[labels.Length0, labels.Length1];
    forall r: nat, c: nat | r < labels.Length0 && c < labels.Length1 ensures labels[r, c] < |roots| {
      assert (r, c) in paint ==> 0 < paint[(r, c)] < |p|;
    }
    forall r: nat, c: nat | r < labels.Length0 && c < labels.Length1 {
      resolved[r, c] := roots[labels[r, c]];
    }
  }

  lemma UsedBelow(resolved: array2<nat>, used: seq<nat>, r: nat, c: nat)
    requires IsUnique(resolved, used) && r < resolved.Length0 && c < resolved.Length1
    ensures resolved[r, c] != 0 ==> exists k :: 0 <= k < |used| && used[k] == resolved[r, c]
    ensures resolved[r, c] <= if used == [] then 0 else used[|used| - 1]
  {
    var v := resolved[r, c];
    if v != 0 {
      assert Occurs(resolved, v);
      assert v in used;
      var k :| 0 <= k < |used| && used[k] == v;
      assert k < |used| - 1 ==> used[k] < used[|used| - 1];
    }
  }

  method Renumber(mask: Mask, width: nat, uf: UnionFind, labels: array2<nat>, ghost paint: Painted, ghost firsts: seq<Cell>)
    returns (renumbered: array2<nat>, count: nat)
    requires labels.Length0 == |mask| && labels.Length1 == width && IsMask(mask, |mask|, width)
    requires uf.Valid() && Labelled(mask, uf.parent, paint) && PaintedUpTo(mask, paint, |mask|, 0)
    requires ShownBy(labels, paint) && Founded(uf.parent, paint, firsts)
    modifies uf
    ensures renumbered.Length0 == |mask| && renumbered.Length1 == width
    ensures IsLabelling(mask, renumbered, count) && InReadingOrder(renumbered, count)
  {
    hide IsLabelling, IsUnique, PaintedUpTo, Sound, Complete, Founded, InReadingOrder;
    ghost var p := uf.parent;
    var roots := Roots(uf);
    var resolved := Resolve(labels, roots, p, paint);
    forall r: nat, c: nat | r < |mask| && c < width ensures resolved[r, c] < |roots| {
      assert (r, c) in paint ==> RootAt(p, paint, (r, c)) < |p|;
    }
    var used := Unique(resolved, |roots|);
    var remap := RemapOf(resolved, used);
    forall r: nat, c: nat | r < |mask| && c < width
      ensures resolved[r, c] < remap.Length
    {
      UsedBelow(resolved, used, r, c);
    }
    renumbered := new nat[|mask|, width];
    forall r: nat, c: nat | r < |mask| && c < width {
      renumbered[r, c] := remap[resolved[r, c]];
    }
    count := |used|;
    forall r: nat, c: nat | r < |mask| && c < width
      ensures RankOf(renumbered[r, c], used, resolved[r, c])
    {
      UsedBelow(resolved, used, r, c);
    }
    RankIsLabelling(mask, p, paint, resolved, used, renumbered);
    RankIsReadingOrder(mask, p, paint, firsts, resolved, used, renumbered);
  }
}
