/** Drag-to-resize of the inventory table's columns (hooks/useColumnResize.ts).
    The document's `mousemove` and `mouseup` listeners are a flag that mouse-down
    sets and mouse-up clears; a move only reaches the hook while it is set. */
module ColumnResize {
  import opened Js

  /** The drag in progress: the column, and where cursor and edge started. */
  datatype Drag = Drag(accessor: string, startX: real, startWidth: real)

  /** The narrowest a dragged column gets. */
  const MinWidth: real := 50.0

  /** The width a column without a (non-zero) width starts a drag from. */
  const DefaultWidth: real := 100.0

  /** `colWidths[accessor] || 100`. */
  function StartWidth(widths: map<string, real>, accessor: string): (r: real)
    ensures accessor in widths && widths[accessor] != 0.0 ==> r == widths[accessor]
    ensures (accessor !in widths || widths[accessor] == 0.0) ==> r == DefaultWidth
  {
    if accessor in widths && widths[accessor] != 0.0 then widths[accessor] else DefaultWidth
  }

  /** `Math.max(50, startWidth + (clientX - startX))`. */
  function DraggedWidth(drag: Drag, clientX: real): (r: real)
    ensures r >= MinWidth
    ensures drag.startWidth + (clientX - drag.startX) >= MinWidth ==>
      r == drag.startWidth + (clientX - drag.startX)
    ensures drag.startWidth + (clientX - drag.startX) < MinWidth ==> r == MinWidth
  {
    var w := drag.startWidth + (clientX - drag.startX);
    if w < MinWidth then MinWidth else w
  }

  /** Moving back to where the drag began restores the start width, when that
      width was at least the minimum. */
  lemma DragBackRestores(drag: Drag)
    requires drag.startWidth >= MinWidth
    ensures DraggedWidth(drag, drag.startX) == drag.startWidth
  {
  }

  /** A cursor further right never gives a narrower column. */
  lemma DraggedWidthMonotone(drag: Drag, x: real, y: real)
    requires x <= y
    ensures DraggedWidth(drag, x) <= DraggedWidth(drag, y)
  {
  }

  class ColumnResizeState {
    const initialWidths: map<string, real>
    var colWidths: map<string, real>
    var resizing: Option<Drag>
    var listening: bool

    /** The listeners are attached exactly while a drag is recorded, and every
        width differs from the one the hook was given only if a drag set it, so
        it is at least the minimum. */
    ghost predicate Valid()
      reads this
    {
      (listening <==> resizing.Some?)
      && forall k :: k in colWidths ==>
           (k in initialWidths && colWidths[k] == initialWidths[k]) || colWidths[k] >= MinWidth
    }

    constructor(initialWidths: map<string, real>)
      ensures Valid()
      ensures this.initialWidths == initialWidths && colWidths == initialWidths
      ensures resizing == None && !listening
    {
      this.initialWidths := initialWidths;
      colWidths := initialWidths;
      resizing := None;
      listening := false;
    }

    /** `handleMouseDown`: record the drag and attach the listeners. */
    method MouseDown(clientX: real, accessor: string)
      requires Valid()
      modifies this
      ensures Valid()
      ensures resizing == Some(Drag(accessor, clientX, StartWidth(colWidths, accessor)))
      ensures listening && colWidths == old(colWidths)
    {
      resizing := Some(Drag(accessor, clientX, StartWidth(colWidths, accessor)));
      listening := true;
    }

    /** `handleMouseMove`: ignored without a drag; otherwise only the dragged
        column takes the new width. */
    method MouseMove(clientX: real)
      requires Valid()
      modifies this
      ensures Valid()
      ensures resizing == old(resizing) && listening == old(listening)
      ensures old(resizing).None? ==> colWidths == old(colWidths)
      ensures old(resizing).Some? ==>
        var drag := old(resizing).value;
        colWidths == old(colWidths)[drag.accessor := DraggedWidth(drag, clientX)]
      ensures old(resizing).Some? ==>
        forall k :: k != old(resizing).value.accessor ==>
          (k in colWidths <==> k in old(colWidths))
          && (k in colWidths ==> colWidths[k] == old(colWidths)[k])
    {
      if listening && resizing.Some? {
        var drag := resizing.value;
        colWidths := colWidths[drag.accessor := DraggedWidth(drag, clientX)];
      }
    }

    /** `handleMouseUp`: forget the drag and detach the listeners. */
    method MouseUp()
      requires Valid()
      modifies this
      ensures Valid()
      ensures resizing == None && !listening && colWidths == old(colWidths)
    {
      resizing := None;
      listening := false;
    }
  }

  /** A drag from x = 300 to x = 120 on a column 120 wide stops at the minimum,
      and dragging on after mouse-up changes nothing. */
  method NarrowDragStopsAtMinimum() returns (during: real, after: real)
    ensures during == MinWidth && after == MinWidth
  {
    var s := new ColumnResizeState(map["sku" := 120.0]);
    s.MouseDown(300.0, "sku");
    s.MouseMove(120.0);
    during := s.colWidths["sku"];
    s.MouseUp();
    s.MouseMove(400.0);
    after := s.colWidths["sku"];
  }
}
