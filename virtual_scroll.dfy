/** Virtual scrolling of the inventory table (hooks/useVirtualScroll.ts): which rows
    are rendered for a scroll position, and how tall the spacers above and below
    them are. The scroll container is a viewport record; a scroll event followed by
    its animation frame is one step. */
module VirtualScroll {
  import opened Js

  /** The `range` state. */
  datatype Range = Range(startIndex: int, endIndex: int, paddingTop: real, paddingBottom: real)

  /** What the hook reads from the scroll container. */
  datatype Viewport = Viewport(scrollTop: real, clientHeight: real)

  /** `buffer = 5`. */
  const DefaultBuffer: nat := 5

  /** The first render's estimate. */
  const InitialRange := Range(0, 20, 0.0, 0.0)

  /** Below this many rows a scrolled view goes back to the top. */
  const ResetBelow: nat := 50

  /** `calculateRange`'s arithmetic. */
  function Window(totalRows: nat, rowHeight: real, buffer: nat, view: Viewport): (r: Range)
    requires rowHeight > 0.0
  {
    var start := Max(0, (view.scrollTop / rowHeight).Floor - buffer);
    var end := Min(totalRows, Ceil((view.scrollTop + view.clientHeight) / rowHeight) + buffer);
    Range(start, end, start as real * rowHeight, (totalRows - end) as real * rowHeight)
  }

  function Max(a: int, b: int): int { if a < b then b else a }
  function Min(a: int, b: int): int { if a < b then a else b }

  /** The window never starts before the first row nor ends after the last, and
      both spacers have a non-negative height. */
  lemma WindowBounds(totalRows: nat, rowHeight: real, buffer: nat, view: Viewport)
    requires rowHeight > 0.0
    ensures var r := Window(totalRows, rowHeight, buffer, view);
      0 <= r.startIndex && r.endIndex <= totalRows && r.paddingTop >= 0.0 && r.paddingBottom >= 0.0
  {
    var r := Window(totalRows, rowHeight, buffer, view);
    assert r.startIndex as real * rowHeight >= 0.0 by { NonNegativeProduct(r.startIndex as real, rowHeight); }
    assert (totalRows - r.endIndex) as real * rowHeight >= 0.0 by {
      NonNegativeProduct((totalRows - r.endIndex) as real, rowHeight);
    }
  }

  lemma NonNegativeProduct(a: real, b: real)
    requires a >= 0.0 && b >= 0.0
    ensures a * b >= 0.0
  {
  }

  /** The spacers and the rendered rows add up to the height of the whole table. */
  lemma WindowHeights(totalRows: nat, rowHeight: real, buffer: nat, view: Viewport)
    requires rowHeight > 0.0
    ensures var r := Window(totalRows, rowHeight, buffer, view);
      r.startIndex <= r.endIndex ==>
        r.paddingTop + (r.endIndex - r.startIndex) as real * rowHeight + r.paddingBottom
        == totalRows as real * rowHeight
  {
  }

  /** Every row that shows any part of itself in the viewport is rendered. */
  lemma {:induction false} VisibleRowsRendered(totalRows: nat, rowHeight: real, buffer: nat, view: Viewport, i: nat)
    requires rowHeight > 0.0
    requires i < totalRows
    requires i as real * rowHeight < view.scrollTop + view.clientHeight
    requires (i + 1) as real * rowHeight > view.scrollTop
    ensures var r := Window(totalRows, rowHeight, buffer, view);
      r.startIndex <= i < r.endIndex
  {
    var top := view.scrollTop / rowHeight;
    var bottom := (view.scrollTop + view.clientHeight) / rowHeight;
    assert bottom * rowHeight == view.scrollTop + view.clientHeight;
    Below(i as real, bottom, rowHeight);
    assert top * rowHeight == view.scrollTop;
    Below(top, (i + 1) as real, rowHeight);
  }

  /** Dividing both sides of `a * h < b * h` by a positive `h`. */
  lemma Below(a: real, b: real, h: real)
    requires h > 0.0
    requires a * h < b * h
    ensures a < b
  {
    if a >= b {
      NonNegativeProduct(a - b, h);
    }
  }

  /** `calculateRange`'s update of `range`, as written: the state object is kept
      unless an index moved. */
  function NextRange(prev: Range, next: Range): (r: Range)
    ensures r.startIndex == next.startIndex && r.endIndex == next.endIndex
    ensures r == prev || r == next
  {
    if prev.startIndex == next.startIndex && prev.endIndex == next.endIndex then prev else next
  }

  /** The state of one `useVirtualScroll` instance. */
  class VirtualScrollState {
    const rowHeight: real
    const buffer: nat
    var totalRows: nat
    var container: Option<Viewport>
    var range: Range

    /** The rendered rows are those of the current viewport. */
    ghost predicate Fresh()
      reads this
      requires rowHeight > 0.0
    {
      container.Some? ==>
        var w := Window(totalRows, rowHeight, buffer, container.value);
        range.startIndex == w.startIndex && range.endIndex == w.endIndex
    }

    /** First render: the estimate, before any effect. Mounting then runs
        `calculateRange` once; the reset effect does nothing, as the estimate
        starts at row 0. */
    constructor(totalRows: nat, rowHeight: real, buffer: nat, container: Option<Viewport>)
      requires rowHeight > 0.0
      ensures this.totalRows == totalRows && this.rowHeight == rowHeight && this.buffer == buffer
      ensures this.container == container && range == InitialRange
    {
      this.totalRows := totalRows;
      this.rowHeight := rowHeight;
      this.buffer := buffer;
      this.container := container;
      range := InitialRange;
    }

    /** `calculateRange` as written: nothing without a container; otherwise the
        window of the viewport, keeping the old object when the indices agree. */
    method CalculateRange()
      requires rowHeight > 0.0
      modifies this
      ensures Fresh()
      ensures totalRows == old(totalRows) && container == old(container)
      ensures container.None? ==> range == old(range)
      ensures container.Some? ==>
        range == NextRange(old(range), Window(totalRows, rowHeight, buffer, container.value))
    {
      if container.Some? {
        range := NextRange(range, Window(totalRows, rowHeight, buffer, container.value));
      }
    }

    /** `calculateRange` with the whole range compared, so that the spacers follow a
        change of `totalRows` that leaves the indices where they were. */
    method CalculateRangeSettled()
      requires rowHeight > 0.0
      modifies this
      ensures Fresh()
      ensures totalRows == old(totalRows) && container == old(container)
      ensures container.None? ==> range == old(range)
      ensures container.Some? ==> range == Window(totalRows, rowHeight, buffer, container.value)
    {
      if container.Some? {
        var w := Window(totalRows, rowHeight, buffer, container.value);
        if range != w {
          range := w;
        }
      }
    }

    /** `handleScroll` and the animation frame it requests: the indices follow the
        new viewport, and the old object stays when neither index moved. */
    method OnScroll(view: Viewport)
      requires rowHeight > 0.0
      requires container.Some?
      modifies this
      ensures Fresh()
      ensures container == Some(view) && totalRows == old(totalRows)
      ensures range == NextRange(old(range), Window(totalRows, rowHeight, buffer, view))
    {
      container := Some(view);
      CalculateRange();
    }

    /** `handleScroll` with the settled update: the whole window of the new viewport. */
    method OnScrollSettled(view: Viewport)
      requires rowHeight > 0.0
      requires container.Some?
      modifies this
      ensures Fresh()
      ensures container == Some(view) && totalRows == old(totalRows)
      ensures range == Window(totalRows, rowHeight, buffer, view)
    {
      container := Some(view);
      CalculateRangeSettled();
    }

    /** A render with a new row count and the two effects keyed on it, as written:
        `calculateRange`, and, when fewer than 50 rows remain and the range of the
        previous render did not start at row 0, scroll back to the top and
        `calculateRange` again. Each update keeps the old object when neither
        index moved. */
    method SetTotalRows(n: nat)
      requires rowHeight > 0.0
      modifies this
      ensures n != old(totalRows) ==> Fresh()
      ensures totalRows == n
      ensures n == old(totalRows) ==> container == old(container) && range == old(range)
      ensures var reset := n != old(totalRows) && n < ResetBelow && old(range).startIndex > 0
          && old(container).Some?;
        container == (if reset then Some(Viewport(0.0, old(container).value.clientHeight))
                      else old(container))
      ensures n != old(totalRows) && old(container).None? ==> range == old(range)
      ensures n != old(totalRows) && old(container).Some? ==>
        var first := NextRange(old(range), Window(n, rowHeight, buffer, old(container).value));
        range == (if n < ResetBelow && old(range).startIndex > 0
                  then NextRange(first, Window(n, rowHeight, buffer, container.value))
                  else first)
    {
      if n != totalRows {
        var previous := range;
        totalRows := n;
        CalculateRange();
        if container.Some? && n < ResetBelow && previous.startIndex > 0 {
          container := Some(Viewport(0.0, container.value.clientHeight));
          CalculateRange();
        }
      }
    }

    /** `SetTotalRows` with the settled update: the spacers follow the new count. */
    method SetTotalRowsSettled(n: nat)
      requires rowHeight > 0.0
      modifies this
      ensures n != old(totalRows) ==> Fresh()
      ensures totalRows == n
      ensures n == old(totalRows) ==> container == old(container) && range == old(range)
      ensures var reset := n != old(totalRows) && n < ResetBelow && old(range).startIndex > 0
          && old(container).Some?;
        container == (if reset then Some(Viewport(0.0, old(container).value.clientHeight))
                      else old(container))
      ensures n != old(totalRows) && container.Some? ==>
        range == Window(n, rowHeight, buffer, container.value)
    {
      if n != totalRows {
        var previous := range;
        totalRows := n;
        CalculateRangeSettled();
        if container.Some? && n < ResetBelow && previous.startIndex > 0 {
          container := Some(Viewport(0.0, container.value.clientHeight));
          CalculateRangeSettled();
        }
      }
    }
  }

  /** The table grows from 100 to 200 rows while the first rows are on screen:
      neither index moves, so `calculateRange` as written keeps the bottom spacer
      of the 100-row table. */
  method GrownTableKeepsSpacer() returns (kept: real, wanted: real)
    ensures kept == 3400.0 && wanted == 7400.0
  {
    var view := Viewport(0.0, 400.0);
    var s := new VirtualScrollState(100, 40.0, DefaultBuffer, Some(view));
    s.CalculateRange();
    assert s.range == Range(0, 15, 0.0, 3400.0);
    s.SetTotalRows(200);
    kept := s.range.paddingBottom;
    wanted := Window(200, 40.0, DefaultBuffer, view).paddingBottom;
  }

  /** With the settled update the spacer follows the row count. */
  method GrownTableResizesSpacer() returns (spacer: real)
    ensures spacer == 7400.0
  {
    var view := Viewport(0.0, 400.0);
    var s := new VirtualScrollState(100, 40.0, DefaultBuffer, Some(view));
    s.CalculateRangeSettled();
    s.SetTotalRowsSettled(200);
    spacer := s.range.paddingBottom;
  }

  /** 100 rows of 40 px under a 600 px viewport at the top: the window is rows 0
      to 20, the indices of the first render's estimate, so a scroll event that
      leaves the view at the top keeps the estimate's empty bottom spacer. */
  method TopScrollKeepsEstimate() returns (kept: real, wanted: real)
    ensures kept == 0.0 && wanted == 3200.0
  {
    var view := Viewport(0.0, 600.0);
    var s := new VirtualScrollState(100, 40.0, DefaultBuffer, Some(view));
    assert Window(100, 40.0, DefaultBuffer, view) == Range(0, 20, 0.0, 3200.0);
    s.OnScroll(view);
    kept := s.range.paddingBottom;
    wanted := Window(100, 40.0, DefaultBuffer, view).paddingBottom;
  }

  /** The same scroll with the settled update draws the 3200 px spacer. */
  method TopScrollSettles() returns (spacer: real)
    ensures spacer == 3200.0
  {
    var view := Viewport(0.0, 600.0);
    var s := new VirtualScrollState(100, 40.0, DefaultBuffer, Some(view));
    s.OnScrollSettled(view);
    spacer := s.range.paddingBottom;
  }
}
