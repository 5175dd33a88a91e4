/** LayerRaster.label_at (worker/emi_worker/raster.py): the label at a point, or of copper near it. */
module LabelSearch {
  import opened Numbers

  type Grid = seq<seq<nat>>

  ghost function Rows(labels: array2<nat>): (g: Grid)
    reads labels
    ensures |g| == labels.Length0
    ensures forall r :: 0 <= r < |g| ==> |g[r]| == labels.Length1
    ensures forall r, c :: 0 <= r < |g| && 0 <= c < labels.Length1 ==> g[r][c] == labels[r, c]
  {
    seq(labels.Length0, r requires 0 <= r < labels.Length0 reads labels =>
      seq(labels.Length1, c requires 0 <= c < labels.Length1 reads labels => labels[r, c]))
  }

  ghost predicate HasLabel(g: Grid, r: int, c: int) {
    0 <= r < |g| && 0 <= c < |g[r]| && g[r][c] != 0
  }

  /** How many pixel rings out a cell is. */
  function Ring(row: int, col: int, r: int, c: int): (n: int) {
    Max(Abs(r - row), Abs(c - col))
  }

  function Dist2(row: int, col: int, r: int, c: int): (n: int) {
    (r - row) * (r - row) + (c - col) * (c - col)
  }

  /** Cell (r, c) comes first: nearer, or as near and earlier in reading order. */
  ghost predicate Before(row: int, col: int, r: int, c: int, r': int, c': int) {
    var d, d' := Dist2(row, col, r, c), Dist2(row, col, r', c');
    d < d' || (d == d' && (r < r' || (r == r' && c <= c')))
  }

  /** The copper cell label_at settles on: in the innermost ring that holds any, the nearest. */
  ghost predicate Chosen(g: Grid, row: int, col: int, r: int, c: int) {
    && HasLabel(g, r, c)
    && forall r', c' :: HasLabel(g, r', c') ==>
         || Ring(row, col, r', c') > Ring(row, col, r, c)
         || (Ring(row, col, r', c') == Ring(row, col, r, c) && Before(row, col, r, c, r', c'))
  }

  ghost predicate LabelWithin(g: Grid, row: int, col: int, n: int) {
    exists r, c :: HasLabel(g, r, c) && Ring(row, col, r, c) <= n
  }

  /** It has a label, in no ring further out than any other that has; of those in its ring none is
      nearer, and of those as near none comes earlier, row by row. */
  lemma ChosenMeans(g: Grid, row: int, col: int, r: int, c: int)
    ensures Chosen(g, row, col, r, c) <==>
      (HasLabel(g, r, c) && forall r', c' :: HasLabel(g, r', c') ==>
         var (n, n') := (Max(Abs(r - row), Abs(c - col)), Max(Abs(r' - row), Abs(c' - col)));
         var (d, d') := ((r - row) * (r - row) + (c - col) * (c - col), (r' - row) * (r' - row) + (c' - col) * (c' - col));
         n < n' || (n == n' && (d < d' || (d == d' && (r < r' || (r == r' && c <= c'))))))
  {
  }

  /** At most one pixel outside the raster. Any further out and the search gives up at once. */
  predicate AtRaster(h: nat, w: nat, row: int, col: int) {
    -1 <= row <= h && -1 <= col <= w
  }

  ghost predicate InWindow(labels: array2<nat>, r0: int, r1: int, c0: int, c1: int, r: int, c: int)
    reads labels
  {
    r0 <= r < r1 && c0 <= c < c1 && HasLabel(Rows(labels), r, c)
  }

  /** (r, c) comes first among the copper of the window. */
  ghost predicate FirstOf(labels: array2<nat>, r0: int, r1: int, c0: int, c1: int, row: int, col: int, r: int, c: int)
    reads labels
  {
    && InWindow(labels, r0, r1, c0, c1, r, c)
    && forall r', c' :: InWindow(labels, r0, r1, c0, c1, r', c') ==> Before(row, col, r, c, r', c')
  }

  ghost predicate NoneIn(labels: array2<nat>, r0: int, r1: int, c0: int, c1: int)
    reads labels
  {
    forall r, c :: !InWindow(labels, r0, r1, c0, c1, r, c)
  }

  /** Joins the answer for the rows above with the answer for the row below them. */
  lemma NextRow(labels: array2<nat>, r0: int, i: int, c0: int, c1: int, row: int, col: int,
                found: bool, r: int, c: int, found': bool, r': int, c': int)
    requires r0 <= i
    requires if found then FirstOf(labels, r0, i, c0, c1, row, col, r, c) else NoneIn(labels, r0, i, c0, c1)
    requires if found' then FirstOf(labels, i, i + 1, c0, c1, row, col, r', c') else NoneIn(labels, i, i + 1, c0, c1)
    ensures if found' && (!found || Dist2(row, col, r', c') < Dist2(row, col, r, c))
      then FirstOf(labels, r0, i + 1, c0, c1, row, col, r', c')
      else if found then FirstOf(labels, r0, i + 1, c0, c1, row, col, r, c) else NoneIn(labels, r0, i + 1, c0, c1)
  {
    hide Dist2, HasLabel;
    var better := found' && (!found || Dist2(row, col, r', c') < Dist2(row, col, r, c));
    var next := i + 1;
    forall x, y | InWindow(labels, r0, next, c0, c1, x, y)
      ensures better ==> Before(row, col, r', c', x, y)
      ensures !better && found ==> Before(row, col, r, c, x, y)
    {
      if x < i {
        assert InWindow(labels, r0, i, c0, c1, x, y);
      } else {
        assert InWindow(labels, i, i + 1, c0, c1, x, y);
      }
    }
    if !better && !found {
      var below := i + 1;
      forall x, y ensures !InWindow(labels, r0, below, c0, c1, x, y) {
        assert !InWindow(labels, r0, i, c0, c1, x, y) && !InWindow(labels, i, i + 1, c0, c1, x, y);
      }
    }
  }

  lemma NextColumn(labels: array2<nat>, i: int, c0: int, j: int, row: int, col: int, found: bool, c: int)
    requires 0 <= i < labels.Length0 && 0 <= c0 <= j < labels.Length1
    requires if found then FirstOf(labels, i, i + 1, c0, j, row, col, i, c) else NoneIn(labels, i, i + 1, c0, j)
    ensures if labels[i, j] != 0 && (!found || Dist2(row, col, i, j) < Dist2(row, col, i, c))
      then FirstOf(labels, i, i + 1, c0, j + 1, row, col, i, j)
      else if found then FirstOf(labels, i, i + 1, c0, j + 1, row, col, i, c) else NoneIn(labels, i, i + 1, c0, j + 1)
  {
    hide Dist2;
    var better := labels[i, j] != 0 && (!found || Dist2(row, col, i, j) < Dist2(row, col, i, c));
    forall x, y | InWindow(labels, i, i + 1, c0, j + 1, x, y)
      ensures better ==> Before(row, col, i, j, x, y)
      ensures !better && found ==> Before(row, col, i, c, x, y)
    {
      if y < j {
        assert InWindow(labels, i, i + 1, c0, j, x, y);
      } else {
        assert Rows(labels)[i][j] == labels[i, j];
      }
    }
    if !better && !found {
      var below, right := i + 1, j + 1;
      forall x, y ensures !InWindow(labels, i, below, c0, right, x, y) {
        assert !InWindow(labels, i, i + 1, c0, j, x, y) && Rows(labels)[i][j] == labels[i, j];
      }
    }
  }

  /** The first of the nearest copper cells of one row. */
  method NearestInRow(labels: array2<nat>, i: int, c0: int, c1: int, row: int, col: int) returns (found: bool, c: int)
    requires 0 <= i < labels.Length0 && 0 <= c0 <= c1 <= labels.Length1
    ensures if found then FirstOf(labels, i, i + 1, c0, c1, row, col, i, c) else NoneIn(labels, i, i + 1, c0, c1)
  {
    found, c := false, 0;
    var j := c0;
    while j < c1
      invariant c0 <= j <= c1
      invariant if found then FirstOf(labels, i, i + 1, c0, j, row, col, i, c) else NoneIn(labels, i, i + 1, c0, j)
    {
      NextColumn(labels, i, c0, j, row, col, found, c);
      hide FirstOf, NoneIn, Dist2;
      if labels[i, j] != 0 && (!found || Dist2(row, col, i, j) < Dist2(row, col, i, c)) {
        found, c := true, j;
      }
      j := j + 1;
    }
  }

  /** Nearest copper of a window in reading order (argwhere, then argmin). */
  method NearestInWindow(labels: array2<nat>, r0: int, r1: int, c0: int, c1: int, row: int, col: int)
    returns (found: bool, r: int, c: int)
    requires 0 <= r0 <= r1 <= labels.Length0 && 0 <= c0 <= c1 <= labels.Length1
    ensures if found then FirstOf(labels, r0, r1, c0, c1, row, col, r, c) else NoneIn(labels, r0, r1, c0, c1)
  {
    found, r, c := false, 0, 0;
    var i := r0;
    while i < r1
      invariant r0 <= i <= r1
      invariant if found then FirstOf(labels, r0, i, c0, c1, row, col, r, c) else NoneIn(labels, r0, i, c0, c1)
    {
      var here, j := NearestInRow(labels, i, c0, c1, row, col);
      NextRow(labels, r0, i, c0, c1, row, col, found, r, c, here, i, j);
      hide FirstOf, NoneIn, Dist2;
      if here && (!found || Dist2(row, col, i, j) < Dist2(row, col, r, c)) {
        found, r, c := true, i, j;
      }
      i := i + 1;
    }
  }

  /** label_at for the pixel a point falls on. */
  method LabelAt(labels: array2<nat>, row: int, col: int, search: int) returns (id: nat)
    ensures !AtRaster(labels.Length0, labels.Length1, row, col) ==> id == 0
    ensures AtRaster(labels.Length0, labels.Length1, row, col) ==>
      (id != 0 <==> LabelWithin(Rows(labels), row, col, Max(search, 0)))
    ensures id != 0 ==> exists r, c ::
      Chosen(Rows(labels), row, col, r, c) && Ring(row, col, r, c) <= Max(search, 0) && id == labels[r, c]
  {
    var h, w := labels.Length0, labels.Length1;
    if 0 <= row < h && 0 <= col < w && labels[row, col] != 0 {
      assert Chosen(Rows(labels), row, col, row, col);
      return labels[row, col];
    }
    assert !LabelWithin(Rows(labels), row, col, 0);
    if search <= 0 {
      return 0;
    }
    var radius := 1;
    while radius < search + 1
      invariant 1 <= radius <= search + 1
      invariant !LabelWithin(Rows(labels), row, col, radius - 1)
      invariant radius > 1 ==> AtRaster(h, w, row, col) && h > 0 && w > 0
    {
      var r0, r1 := Max(0, row - radius), Min(h, row + radius + 1);
      var c0, c1 := Max(0, col - radius), Min(w, col + radius + 1);
      if r0 >= r1 || c0 >= c1 {
        return 0;
      }
      var found, r, c := NearestInWindow(labels, r0, r1, c0, c1, row, col);
      WindowIsRing(labels, row, col, radius, r0, r1, c0, c1);
      if found {
        ChosenInWindow(labels, row, col, radius, r0, r1, c0, c1, r, c);
        return labels[r, c];
      }
      radius := radius + 1;
    }
    id := 0;
  }

  lemma WindowIsRing(labels: array2<nat>, row: int, col: int, radius: int, r0: int, r1: int, c0: int, c1: int)
    requires radius >= 0
    requires r0 == Max(0, row - radius) && r1 == Min(labels.Length0, row + radius + 1)
    requires c0 == Max(0, col - radius) && c1 == Min(labels.Length1, col + radius + 1)
    ensures forall r, c :: InWindow(labels, r0, r1, c0, c1, r, c) <==>
      HasLabel(Rows(labels), r, c) && Ring(row, col, r, c) <= radius
  {
  }

  lemma ChosenInWindow(labels: array2<nat>, row: int, col: int, radius: int,
                       r0: int, r1: int, c0: int, c1: int, r: int, c: int)
    requires forall r', c' :: InWindow(labels, r0, r1, c0, c1, r', c') <==>
      HasLabel(Rows(labels), r', c') && Ring(row, col, r', c') <= radius
    requires FirstOf(labels, r0, r1, c0, c1, row, col, r, c)
    requires !LabelWithin(Rows(labels), row, col, radius - 1)
    ensures Ring(row, col, r, c) == radius && Chosen(Rows(labels), row, col, r, c)
  {
  }

  // ---------- is it the nearest copper? ----------

  /** No copper within `search` rings is strictly nearer. */
  ghost predicate Nearest(g: Grid, row: int, col: int, search: int, r: int, c: int) {
    forall r', c' :: HasLabel(g, r', c') && Ring(row, col, r', c') <= search ==>
      Dist2(row, col, r, c) <= Dist2(row, col, r', c')
  }

  /** The answer to a search of `search` rings is the nearest copper in it, whatever the board. */
  ghost predicate AlwaysNearest(search: int) {
    forall g: Grid, row, col, r, c :: Chosen(g, row, col, r, c) && Ring(row, col, r, c) <= search ==>
      Nearest(g, row, col, search, r, c)
  }

  lemma RingBounds(row: int, col: int, r: int, c: int)
    ensures var n := Ring(row, col, r, c); n * n <= Dist2(row, col, r, c) <= 2 * n * n
  {
  }

  /** A board where a search of four rings or more takes copper on the diagonal of ring 3 and
      passes over nearer copper straight out in ring 4. */
  function Diagonal(): (g: Grid) {
    [[0, 0, 0, 0, 0], [0, 0, 0, 0, 0], [0, 0, 0, 0, 0], [0, 0, 0, 1, 0], [2, 0, 0, 0, 0]]
  }

  lemma DiagonalBeatsStraight(search: int)
    requires search >= 4
    ensures Chosen(Diagonal(), 0, 0, 3, 3) && !Nearest(Diagonal(), 0, 0, search, 3, 3)
  {
    var g := Diagonal();
    assert HasLabel(g, 4, 0) && Ring(0, 0, 4, 0) == 4;
    assert Dist2(0, 0, 3, 3) == 18 && Dist2(0, 0, 4, 0) == 16;
    forall r, c | HasLabel(g, r, c) ensures (r == 3 && c == 3) || (r == 4 && c == 0) {
      assert r == 0 || r == 1 || r == 2 || r == 3 || r == 4;
    }
  }

  /** The search takes the nearest copper exactly when it is at most three rings wide. */
  lemma NearestUpToThreeRings(search: int)
    ensures AlwaysNearest(search) <==> search <= 3
  {
    if search <= 3 {
      forall g: Grid, row, col, r, c | Chosen(g, row, col, r, c) && Ring(row, col, r, c) <= search
        ensures Nearest(g, row, col, search, r, c)
      {
        forall r', c' | HasLabel(g, r', c') && Ring(row, col, r', c') <= search
          ensures Dist2(row, col, r, c) <= Dist2(row, col, r', c')
        {
          RingBounds(row, col, r, c);
          RingBounds(row, col, r', c');
          var n, n' := Ring(row, col, r, c), Ring(row, col, r', c');
          if n < n' {
            SmallRings(n, n');
          }
        }
      }
    } else {
      DiagonalBeatsStraight(search);
    }
  }

  lemma SmallRings(n: int, n': int)
    requires 0 <= n < n' <= 3
    ensures 2 * n * n <= n' * n'
  {
  }
}
