/** One layer's labelled copper and the mapping from board coordinates to it
    (worker/emi_worker/raster.py). */
module LayerRasters {
  import opened Numbers
  import Components
  import LabelSearch
  import Rasterize

  /** The point lies in the cell: in coordinates, the cell's own square, its left and upper edges with it. */
  ghost predicate InCell(x: real, y: real, ox: real, oy: real, res: real, r: int, c: int) {
    && ox + c as real * res <= x < ox + (c + 1) as real * res
    && oy + r as real * res <= y < oy + (r + 1) as real * res
  }

  lemma PlaceOf(x: real, o: real, res: real, c: nat)
    requires res > 0.0 && o + c as real * res <= x < o + (c + 1) as real * res
    ensures Rasterize.Column(x, o, res) == c
  {
    QuotientLeq(x - o, res, c as real);
    QuotientLeq(x - o, res, (c + 1) as real);
  }

  class LayerRaster {
    const mask: Components.Mask
    const ox: real
    const oy: real
    const res: real
    const labels: array2<nat>
    const count: nat

    ghost predicate Valid()
      reads this, labels
    {
      && res > 0.0
      && labels.Length0 == |mask| && Components.IsMask(mask, |mask|, labels.Length1)
      && Components.IsLabelling(mask, labels, count)
    }

    constructor (mask: Components.Mask, width: nat, ox: real, oy: real, res: real)
      requires Components.IsMask(mask, |mask|, width) && res > 0.0
      ensures Valid() && this.mask == mask && this.ox == ox && this.oy == oy && this.res == res
      ensures labels.Length1 == width
    {
      this.mask, this.ox, this.oy, this.res := mask, ox, oy, res;
      var islands, n := Components.LabelComponents(mask, width);
      labels, count := islands, n;
    }

    function Row(y: real): (r: int)
      requires res > 0.0
    {
      Rasterize.Column(y, oy, res)
    }

    function Col(x: real): (c: int)
      requires res > 0.0
    {
      Rasterize.Column(x, ox, res)
    }

    /** The copper cell that the label of a point is read from. */
    ghost predicate ReadsFrom(x: real, y: real, search: int, cell: Components.Cell)
      requires res > 0.0
      reads this, labels
    {
      && cell.0 < labels.Length0 && cell.1 < labels.Length1
      && LabelSearch.Chosen(LabelSearch.Rows(labels), Row(y), Col(x), cell.0, cell.1)
      && LabelSearch.Ring(Row(y), Col(x), cell.0, cell.1) <= Max(search, 0)
    }

    method LabelAt(x: real, y: real, search: int) returns (id: nat)
      requires Valid()
      ensures id <= count
      ensures LabelSearch.AtRaster(labels.Length0, labels.Length1, Row(y), Col(x)) ==>
        (id != 0 <==> LabelSearch.LabelWithin(LabelSearch.Rows(labels), Row(y), Col(x), Max(search, 0)))
      ensures !LabelSearch.AtRaster(labels.Length0, labels.Length1, Row(y), Col(x)) ==> id == 0
      ensures id != 0 ==> exists cell: Components.Cell :: ReadsFrom(x, y, search, cell) && id == labels[cell.0, cell.1]
      ensures ReadsInCell(x, y, search, id)
    {
      id := LabelSearch.LabelAt(labels, Row(y), Col(x), search);
      if id != 0 {
        ghost var r, c :| LabelSearch.Chosen(LabelSearch.Rows(labels), Row(y), Col(x), r, c)
          && LabelSearch.Ring(Row(y), Col(x), r, c) <= Max(search, 0) && id == labels[r, c];
        assert r >= 0 && c >= 0;
        assert ReadsFrom(x, y, search, (r, c));
      }
      InItsCell(x, y, search, id);
    }

    /** What the label of a point has to do with the square of the raster that the point lies in. */
    ghost predicate ReadsInCell(x: real, y: real, search: int, id: nat)
      requires labels.Length0 == |mask| && Components.IsMask(mask, |mask|, labels.Length1)
      reads labels
    {
      forall r: nat, c: nat :: r < labels.Length0 && c < labels.Length1 && InCell(x, y, ox, oy, res, r, c) ==>
        && (mask[r][c] ==> id == labels[r, c] != 0)
        && (!mask[r][c] && search <= 0 ==> id == 0)
        && (id != 0 ==> CopperNear(r, c, Max(search, 0), id))
        && (id == 0 ==> NoCopperNear(r, c, Max(search, 0)))
    }

    /** The label is that of copper at most n cells away, along either axis. */
    ghost predicate CopperNear(r: nat, c: nat, n: int, id: nat)
      reads labels
    {
      exists r': nat, c': nat :: r' < labels.Length0 && c' < labels.Length1 && labels[r', c'] == id
        && -n <= r' - r <= n && -n <= c' - c <= n
    }

    ghost predicate NoCopperNear(r: nat, c: nat, n: int)
    {
      forall r': nat, c': nat :: r' < |mask| && c' < |mask[r']| && -n <= r' - r <= n && -n <= c' - c <= n ==> !mask[r'][c']
    }

    /** Copper in the point's own cell is what its label is read from. */
    lemma OwnCell(r: nat, c: nat, cell: Components.Cell)
      requires Valid() && r < labels.Length0 && c < labels.Length1 && mask[r][c]
      requires LabelSearch.Chosen(LabelSearch.Rows(labels), r, c, cell.0, cell.1)
      ensures cell == (r, c)
    {
      assert Components.Copper(mask, (r, c));
      assert LabelSearch.HasLabel(LabelSearch.Rows(labels), r, c);
      assert cell == (cell.0, cell.1);
    }

    lemma NoneWithin(r: nat, c: nat, n: int, r': nat, c': nat)
      requires Valid() && r < labels.Length0 && c < labels.Length1
      requires !LabelSearch.LabelWithin(LabelSearch.Rows(labels), r, c, n)
      requires r' < |mask| && c' < |mask[r']| && -n <= r' - r <= n && -n <= c' - c <= n
      ensures !mask[r'][c']
    {
      CopperHasLabel((r', c'));
      assert LabelSearch.HasLabel(LabelSearch.Rows(labels), r', c') <==> mask[r'][c'];
      assert LabelSearch.Ring(r, c, r', c') <= n;
    }

    lemma CopperHasLabel(cell: Components.Cell)
      requires Valid() && cell.0 < labels.Length0 && cell.1 < labels.Length1
      ensures mask[cell.0][cell.1] <==> labels[cell.0, cell.1] != 0
    {
      assert Components.Copper(mask, cell) <==> mask[cell.0][cell.1];
      assert cell == (cell.0, cell.1);
    }

    lemma ReadsInThisCell(x: real, y: real, search: int, id: nat, r: nat, c: nat)
      requires Valid() && r < labels.Length0 && c < labels.Length1 && Row(y) == r && Col(x) == c
      requires id != 0 <==> LabelSearch.LabelWithin(LabelSearch.Rows(labels), r, c, Max(search, 0))
      requires id != 0 ==> exists cell: Components.Cell :: ReadsFrom(x, y, search, cell) && id == labels[cell.0, cell.1]
      ensures (mask[r][c] ==> id == labels[r, c] != 0) && (!mask[r][c] && search <= 0 ==> id == 0)
      ensures (id != 0 ==> CopperNear(r, c, Max(search, 0), id)) && (id == 0 ==> NoCopperNear(r, c, Max(search, 0)))
    {
      hide LabelSearch.LabelWithin, LabelSearch.Chosen, LabelSearch.Rows, Rasterize.Column, Components.IsLabelling;
      var n: int := Max(search, 0);
      if id != 0 {
        var cell: Components.Cell :| ReadsFrom(x, y, search, cell) && id == labels[cell.0, cell.1];
        CopperHasLabel(cell);
        if mask[r][c] {
          OwnCell(r, c, cell);
        }
      } else {
        forall r': nat, c': nat | r' < |mask| && c' < |mask[r']| && -n <= r' - r <= n && -n <= c' - c <= n
          ensures !mask[r'][c']
        {
          NoneWithin(r, c, n, r', c');
        }
      }
    }

    lemma InItsCell(x: real, y: real, search: int, id: nat)
      requires Valid()
      requires LabelSearch.AtRaster(labels.Length0, labels.Length1, Row(y), Col(x)) ==>
        (id != 0 <==> LabelSearch.LabelWithin(LabelSearch.Rows(labels), Row(y), Col(x), Max(search, 0)))
      requires id != 0 ==> exists cell: Components.Cell :: ReadsFrom(x, y, search, cell) && id == labels[cell.0, cell.1]
      ensures ReadsInCell(x, y, search, id)
    {
      hide LabelSearch.LabelWithin, LabelSearch.Chosen, LabelSearch.Rows, Rasterize.Column, Components.IsLabelling, ReadsFrom;
      forall r: nat, c: nat | r < labels.Length0 && c < labels.Length1 && InCell(x, y, ox, oy, res, r, c)
        ensures (mask[r][c] ==> id == labels[r, c] != 0) && (!mask[r][c] && search <= 0 ==> id == 0)
        ensures (id != 0 ==> CopperNear(r, c, Max(search, 0), id)) && (id == 0 ==> NoCopperNear(r, c, Max(search, 0)))
      {
        PlaceOf(x, ox, res, c);
        PlaceOf(y, oy, res, r);
        ReadsInThisCell(x, y, search, id, r, c);
      }
    }

    /** Two points are given one label exactly when the copper each was read from is one island. */
    lemma SameLabelIsSameIsland(x: real, y: real, cell: Components.Cell, x': real, y': real, cell': Components.Cell, search: int)
      requires Valid()
      requires ReadsFrom(x, y, search, cell) && ReadsFrom(x', y', search, cell')
      ensures labels[cell.0, cell.1] == labels[cell'.0, cell'.1] <==> Components.Connected(mask, cell, cell')
    {
      assert Components.Copper(mask, cell) && Components.Copper(mask, cell');
      assert cell == (cell.0, cell.1) && cell' == (cell'.0, cell'.1);
    }
  }
}
