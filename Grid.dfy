/** The grid partitioner: `GridSetViewport` maps a grid slot to a viewport
    cell of the current view (layer1/SceneRender.cpp:105-151). */
module Grid {
  import opened Geometry
  import opened Device

  /** The `grid_mode` setting. */
  datatype GridMode = NoGrid | ByObject | ByObjectStates | ByObjectByState

  /** `SceneUnitContext`, the orthographic bounds for overlay objects. It is
      computed by `ScenePrepareUnitContext` from a viewport size alone; the
      model records that size. */
  datatype UnitContext = UnitContext(extent: Extent)

  /** The i-th of n proportional cut points of [0, total]: `(i * total) / n` in C. */
  function Edge(i: int, total: int, n: int): int
    requires n > 0
  {
    CDiv(i * total, n)
  }

  /** The viewport of grid cell `a` (counted from 0, row-major, row 0 at the
      top) of an `nCol` x `nRow` grid over `cur`, as `GridSetViewport` computes
      it for slot `a + first_slot`. */
  function CellRect(cur: Rect, nCol: int, nRow: int, a: int): Rect
    requires nCol > 0 && nRow > 0
  {
    var w := cur.extent.width;
    var h := cur.extent.height;
    var col := CMod(a, nCol);
    var row := CDiv(a, nCol);
    var x := Edge(col, w, nCol);
    var y := h - Edge(row + 1, h, nRow);
    MakeRect(x + cur.offset.x, y + cur.offset.y,
             Edge(col + 1, w, nCol) - x, (h - Edge(row, h, nRow)) - y)
  }

  /** Slot 0, the combined view: k x k cells of the floor cell size, where k
      is the smaller of the two grid dimensions, centred horizontally and
      resting on the bottom of `cur`. */
  function FullViewRect(cur: Rect, nCol: int, nRow: int): Rect
    requires nCol > 0 && nRow > 0
  {
    var k := if nCol < nRow then nCol else nRow;
    var w := CDiv(cur.extent.width, nCol) * k;
    var h := CDiv(cur.extent.height, nRow) * k;
    MakeRect(cur.offset.x + CDiv(cur.extent.width - w, 2), cur.offset.y, w, h)
  }

  /** The viewport `GridSetViewport` installs for `slot`. */
  function SlotViewport(cur: Rect, nCol: int, nRow: int, firstSlot: int, slot: int): Rect
    requires nCol > 0 && nRow > 0
  {
    if slot < 0 then cur
    else if slot == 0 then FullViewRect(cur, nCol, nRow)
    else CellRect(cur, nCol, nRow, slot - firstSlot)
  }

  /** The value `GridSetViewport` stores in `I->slot`. */
  function SlotIndex(slot: int, firstSlot: int): (r: int)
    ensures slot == 0 ==> r == 0
    ensures slot != 0 ==> r - firstSlot == slot - 1
  {
    if slot != 0 then slot + firstSlot - 1 else 0
  }

  /* ---------------- one-dimensional cut points ---------------- */

  lemma EdgeNonNegative(i: int, total: int, n: int)
    requires i >= 0 && total >= 0 && n > 0
    ensures Edge(i, total, n) == (i * total) / n >= 0
  {
    MulMono(0, i, total);
    CDivNonNegative(i * total, n);
  }

  /** Cut points never decrease. */
  lemma EdgeMono(i: int, j: int, total: int, n: int)
    requires 0 <= i <= j && total >= 0 && n > 0
    ensures 0 <= Edge(i, total, n) <= Edge(j, total, n)
  {
    MulMono(i, j, total);
    EdgeNonNegative(i, total, n);
    EdgeNonNegative(j, total, n);
    DivMono(i * total, j * total, n);
  }

  /** The first cut point is 0 and the last is `total`. */
  lemma EdgeEnds(total: int, n: int)
    requires total >= 0 && n > 0
    ensures Edge(0, total, n) == 0 && Edge(n, total, n) == total
  {
    EdgeNonNegative(n, total, n);
    DivModOf(n * total, n, total, 0);
  }

  /** Every point of [c0's cut point, total) lies between two consecutive cut points. */
  lemma {:induction false} LocateFrom(x: int, total: int, n: int, c0: int) returns (c: int)
    requires total >= 0 && n > 0 && 0 <= c0 < n
    requires Edge(c0, total, n) <= x < total
    ensures c0 <= c < n && Edge(c, total, n) <= x < Edge(c + 1, total, n)
    decreases n - c0
  {
    if x < Edge(c0 + 1, total, n) {
      c := c0;
    } else {
      EdgeEnds(total, n);
      c := LocateFrom(x, total, n, c0 + 1);
    }
  }

  lemma Locate(x: int, total: int, n: int) returns (c: int)
    requires total >= 0 && n > 0 && 0 <= x < total
    ensures 0 <= c < n && Edge(c, total, n) <= x < Edge(c + 1, total, n)
  {
    EdgeEnds(total, n);
    c := LocateFrom(x, total, n, 0);
  }

  /** ... and between only one such pair. */
  lemma LocateUnique(x: int, total: int, n: int, c: int, d: int)
    requires total >= 0 && n > 0 && 0 <= c && 0 <= d
    requires Edge(c, total, n) <= x < Edge(c + 1, total, n)
    requires Edge(d, total, n) <= x < Edge(d + 1, total, n)
    ensures c == d
  {
    if c < d {
      EdgeMono(c + 1, d, total, n);
    } else if d < c {
      EdgeMono(d + 1, c, total, n);
    }
  }

  /** The span of column (or row) c of n lies within [0, total]. */
  lemma SpanInside(c: int, total: int, n: int)
    requires 0 <= c < n && total >= 0
    ensures 0 <= Edge(c, total, n) <= Edge(c + 1, total, n) <= total
  {
    EdgeMono(c, c + 1, total, n);
    EdgeMono(c + 1, n, total, n);
    EdgeEnds(total, n);
  }

  /* ---------------- the tiling ---------------- */

  /** The sides of cell `a` are the cut points of its column and row. */
  lemma CellSides(cur: Rect, nCol: int, nRow: int, a: int)
    requires nCol > 0 && nRow > 0 && a >= 0
    ensures var r := CellRect(cur, nCol, nRow, a);
            var col, row := a % nCol, a / nCol;
            && r.Left() == cur.Left() + Edge(col, cur.extent.width, nCol)
            && r.Right() == cur.Left() + Edge(col + 1, cur.extent.width, nCol)
            && r.Bottom() == cur.Top() - Edge(row + 1, cur.extent.height, nRow)
            && r.Top() == cur.Top() - Edge(row, cur.extent.height, nRow)
  {
    CDivNonNegative(a, nCol);
  }

  /** Cells 0 .. nCol*nRow-1 lie within the current view. */
  lemma CellInside(cur: Rect, nCol: int, nRow: int, a: int)
    requires nCol > 0 && nRow > 0 && cur.extent.width >= 0 && cur.extent.height >= 0
    requires 0 <= a < nCol * nRow
    ensures CellRect(cur, nCol, nRow, a).Inside(cur)
  {
    var col, row := a % nCol, a / nCol;
    DivModBounds(a, nCol);
    if row >= nRow {
      MulMono(nRow, row, nCol);
      assert false;
    }
    CellSides(cur, nCol, nRow, a);
    SpanInside(col, cur.extent.width, nCol);
    SpanInside(row, cur.extent.height, nRow);
  }

  /** A pixel lies in cell b exactly when its column offset falls in b's
      column span and its distance below the top falls in b's row span. */
  lemma CellContains(cur: Rect, nCol: int, nRow: int, b: int, px: int, py: int)
    requires nCol > 0 && nRow > 0 && b >= 0
    ensures CellRect(cur, nCol, nRow, b).Contains(px, py) <==>
            && Edge(b % nCol, cur.extent.width, nCol) <= px - cur.Left() < Edge(b % nCol + 1, cur.extent.width, nCol)
            && Edge(b / nCol, cur.extent.height, nRow) <= cur.Top() - 1 - py < Edge(b / nCol + 1, cur.extent.height, nRow)
  {
    CellSides(cur, nCol, nRow, b);
  }

  /** Every pixel of the current view lies in exactly one of the cells
      0 .. nCol*nRow-1: the cells tile the view with no gap and no overlap.
      The cell found is returned. */
  lemma CellAt(cur: Rect, nCol: int, nRow: int, px: int, py: int) returns (a: int)
    requires nCol > 0 && nRow > 0 && cur.extent.width >= 0 && cur.extent.height >= 0
    requires cur.Contains(px, py)
    ensures 0 <= a < nCol * nRow
    ensures CellRect(cur, nCol, nRow, a).Contains(px, py)
    ensures forall b :: 0 <= b < nCol * nRow && CellRect(cur, nCol, nRow, b).Contains(px, py) ==> b == a
  {
    var col := Locate(px - cur.Left(), cur.extent.width, nCol);
    var row := Locate(cur.Top() - 1 - py, cur.extent.height, nRow);
    a := CellOf(row, col, nCol, nRow);
    CellContains(cur, nCol, nRow, a, px, py);
    forall b | 0 <= b < nCol * nRow && CellRect(cur, nCol, nRow, b).Contains(px, py)
      ensures b == a
    {
      CellUnique(cur, nCol, nRow, px, py, a, b);
    }
  }

  /** The cell in row `row` and column `col`. */
  lemma CellOf(row: int, col: int, nCol: int, nRow: int) returns (a: int)
    requires 0 <= row < nRow && 0 <= col < nCol
    ensures 0 <= a < nCol * nRow && a / nCol == row && a % nCol == col
  {
    a := row * nCol + col;
    MulMono(row, nRow - 1, nCol);
    assert (nRow - 1) * nCol == nRow * nCol - nCol;
    DivModOf(a, nCol, row, col);
  }

  /** Two cells that both hold a pixel are the same cell. */
  lemma CellUnique(cur: Rect, nCol: int, nRow: int, px: int, py: int, a: int, b: int)
    requires nCol > 0 && nRow > 0 && cur.extent.width >= 0 && cur.extent.height >= 0
    requires 0 <= a && CellRect(cur, nCol, nRow, a).Contains(px, py)
    requires 0 <= b && CellRect(cur, nCol, nRow, b).Contains(px, py)
    ensures a == b
  {
    CellContains(cur, nCol, nRow, a, px, py);
    CellContains(cur, nCol, nRow, b, px, py);
    var x, y := px - cur.Left(), cur.Top() - 1 - py;
    var ca, cb, ra, rb := a % nCol, b % nCol, a / nCol, b / nCol;
    DivNonNegative(a, nCol);
    DivNonNegative(b, nCol);
    LocateUnique(x, cur.extent.width, nCol, ca, cb);
    LocateUnique(y, cur.extent.height, nRow, ra, rb);
    SameDivMod(a, b, nCol);
  }

  lemma SameDivMod(a: int, b: int, n: int)
    requires n > 0 && a / n == b / n && a % n == b % n
    ensures a == b
  {
    DivModBounds(a, n);
    DivModBounds(b, n);
  }

  /** Cells of the first row touch the top of the view; cell 0 touches its
      left side. */
  lemma FirstRowAtTop(cur: Rect, nCol: int, nRow: int, a: int)
    requires nCol > 0 && nRow > 0
    requires 0 <= a < nCol
    ensures CellRect(cur, nCol, nRow, a).Top() == cur.Top()
    ensures a == 0 ==> CellRect(cur, nCol, nRow, a).Left() == cur.Left()
  {
    DivModOf(a, nCol, 0, a);
  }

  /** The combined view (slot 0) lies within the current view, rests on its
      bottom edge and is centred: the margins left and right differ by at
      most one pixel. Its size is k cells of the floor cell size each way. */
  lemma FullViewPlacement(cur: Rect, nCol: int, nRow: int)
    requires nCol > 0 && nRow > 0 && cur.extent.width >= 0 && cur.extent.height >= 0
    ensures var r := FullViewRect(cur, nCol, nRow);
            var k := if nCol < nRow then nCol else nRow;
            && r.Inside(cur)
            && r.Bottom() == cur.Bottom()
            && 0 <= (cur.Right() - r.Right()) - (r.Left() - cur.Left()) <= 1
            && r.extent.width == (cur.extent.width / nCol) * k
            && r.extent.height == (cur.extent.height / nRow) * k
  {
    var w, h := cur.extent.width, cur.extent.height;
    var k := if nCol < nRow then nCol else nRow;
    CDivNonNegative(w, nCol);
    CDivNonNegative(h, nRow);
    MulMono(k, nCol, w / nCol);
    MulMono(k, nRow, h / nRow);
    var fw := (w / nCol) * k;
    assert fw <= w;
    CDivNonNegative(w - fw, 2);
  }

  /** The worked example: a 2 x 2 grid over an 800 x 600 view with slots
      counted from 1 puts slot 3 in the bottom-left quarter. */
  lemma SlotThreeOfTwoByTwo()
    ensures SlotViewport(MakeRect(0, 0, 800, 600), 2, 2, 1, 3) == MakeRect(0, 0, 400, 300)
  {
  }

  /** `GridInfo`: the grid shape, the current slot and the view it divides. */
  class GridInfo {
    var active: bool
    var mode: GridMode
    var nCol: int
    var nRow: int
    var firstSlot: int
    var lastSlot: int
    var slot: int
    var curView: Rect
    var context: UnitContext
    var curViewportSize: Extent

    ghost predicate Valid()
      reads this
    {
      nCol > 0 && nRow > 0
    }

    constructor (active0: bool, mode0: GridMode, cols: int, rows: int, first: int, last: int)
      requires cols > 0 && rows > 0
      ensures Valid()
      ensures active == active0 && mode == mode0 && nCol == cols && nRow == rows
      ensures firstSlot == first && lastSlot == last && slot == 0
    {
      active, mode, nCol, nRow := active0, mode0, cols, rows;
      firstSlot, lastSlot, slot := first, last, 0;
      curView := MakeRect(0, 0, 0, 0);
      context := UnitContext(Extent(0, 0));
      curViewportSize := Extent(0, 0);
    }

    /** `GridSetViewport`: install the viewport of `s` (negative: the whole
        current view; 0: the combined view; otherwise a cell) and record the
        slot, the overlay context and, for a cell, its size. */
    method SetViewport(dev: Device, s: int)
      requires Valid()
      modifies this`slot, this`context, this`curViewportSize, dev`gl
      ensures slot == SlotIndex(s, firstSlot)
      ensures dev.gl == old(dev.gl).(viewport := SlotViewport(curView, nCol, nRow, firstSlot, s))
      ensures context == if s < 0 then old(context) else UnitContext(dev.gl.viewport.extent)
      ensures curViewportSize == if s > 0 then dev.gl.viewport.extent else old(curViewportSize)
    {
      if s != 0 {
        slot := s + firstSlot - 1;
      } else {
        slot := s;
      }
      if s < 0 {
        dev.SetViewport(curView);
      } else if s == 0 {
        var k := if nCol < nRow then nCol else nRow;
        var w := CDiv(curView.extent.width, nCol) * k;
        var h := CDiv(curView.extent.height, nRow) * k;
        var view := MakeRect(curView.offset.x + CDiv(curView.extent.width - w, 2), curView.offset.y, w, h);
        dev.SetViewport(view);
        context := UnitContext(view.extent);
      } else {
        var absGridSlot := s - firstSlot;
        var gridCol := CMod(absGridSlot, nCol);
        var gridRow := CDiv(absGridSlot, nCol);
        var x := CDiv(gridCol * curView.extent.width, nCol);
        var width := CDiv((gridCol + 1) * curView.extent.width, nCol) - x;
        var y := curView.extent.height - CDiv((gridRow + 1) * curView.extent.height, nRow);
        var height := (curView.extent.height - CDiv(gridRow * curView.extent.height, nRow)) - y;
        var view := MakeRect(x + curView.offset.x, y + curView.offset.y, width, height);
        curViewportSize := view.extent;
        dev.SetViewport(view);
        context := UnitContext(view.extent);
      }
    }
  }
}
