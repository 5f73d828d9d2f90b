// Array2DDrawer.cs: the earlier revision of the grid drawer. Its state is a
// struct passed in and returned by value; it sizes the row heights only when
// it (re)initialises, has no "+" cell, and measures rows without padding.
module EarlierTableDrawer {
  import opened Gui
  import opened Grid
  import opened Layout
  import TableDrawerCore

  const MIN_WIDTH: real := 100.0
  const MIN_HEIGHT: real := 16.0

  /** `TableDrawer.TableState`, the struct the drawer keeps between passes. */
  datatype TableState = TableState(Initialized: bool, ColumnWidths: seq<real>, RowHeights: seq<real>, Rect: Rect, Resizing: int)

  /** A struct nobody has drawn with yet: every field at its default. */
  const DefaultState: TableState := TableState(false, [], [], ZeroRect, 0)

  /** `TableState.GetWidth`: the sum of the column widths. */
  method GetWidth(state: TableState) returns (result: real)
    ensures result == Sum(state.ColumnWidths)
  {
    result := 0.0;
    for i := 0 to |state.ColumnWidths|
      invariant result == Sum(state.ColumnWidths[..i])
    {
      SumPrefixStep(state.ColumnWidths, i);
      result := result + state.ColumnWidths[i];
    }
    assert state.ColumnWidths[..|state.ColumnWidths|] == state.ColumnWidths;
  }

  /** Whether `Draw` (re)initialises: a fresh struct, or a changed column count. */
  predicate NeedsInit(state: TableState, width: int)
  {
    !state.Initialized || width != |state.ColumnWidths|
  }

  /**
   * The struct after the initialisation step of `Draw`: on (re)initialisation
   * `width` widths of `MIN_WIDTH`, one height of `MIN_HEIGHT` per row of the
   * list as it is now, no resize, and a rectangle 500 wide and as tall as
   * the total width; otherwise the struct unchanged.
   */
  function Initialized(state: TableState, width: int, listSize: nat): (s: TableState)
    requires width >= 1
    ensures s.Initialized && |s.ColumnWidths| == width
    ensures NeedsInit(state, width) ==>
      s.ColumnWidths == Repeat(MIN_WIDTH, width) &&
      s.RowHeights == Repeat(MIN_HEIGHT, TableDrawerCore.GetRowCount(listSize, width)) &&
      s.Rect == Rect(0.0, 0.0, 500.0, Sum(s.ColumnWidths)) && s.Rect.height == width as real * MIN_WIDTH &&
      s.Resizing == -1
    ensures !NeedsInit(state, width) ==> s == state
  {
    SumRepeat(MIN_WIDTH, width);
    if NeedsInit(state, width) then
      TableState(true, Repeat(MIN_WIDTH, width), Repeat(MIN_HEIGHT, TableDrawerCore.GetRowCount(listSize, width)),
                 Rect(0.0, 0.0, 500.0, width as real * MIN_WIDTH), -1)
    else state
  }

  /** The grab areas of the header: 4 units wide on every column boundary, from the struct's rectangle. */
  function HeaderZone(rect: Rect): HitZone
  {
    HitZone(rect.x, rect.y, rect.height, 4.0, 4.0)
  }

  /** The initialisation step of `Draw`, with the loops that fill the new arrays. */
  method Initialize(state: TableState, width: int, listSize: nat) returns (s: TableState)
    requires width >= 1
    ensures s == Initialized(state, width, listSize)
  {
    s := state;
    if !s.Initialized || width != |s.ColumnWidths| {
      s := s.(Initialized := true);
      var widths := new real[width];
      for i := 0 to widths.Length
        invariant forall j :: 0 <= j < i ==> widths[j] == MIN_WIDTH
      {
        widths[i] := MIN_WIDTH;
      }
      s := s.(ColumnWidths := widths[..]);
      var heights := new real[TableDrawerCore.GetRowCount(listSize, width)];
      for i := 0 to heights.Length
        invariant forall j :: 0 <= j < i ==> heights[j] == MIN_HEIGHT
      {
        heights[i] := MIN_HEIGHT;
      }
      s := s.(RowHeights := heights[..], Resizing := -1);
      var total := GetWidth(s);
      SumRepeat(MIN_WIDTH, width);
      assert s.ColumnWidths == Repeat(MIN_WIDTH, width);
      s := s.(Rect := Rect(0.0, 0.0, 500.0, total));
    }
  }

  /**
   * The header walk of `Draw`: MouseUp ends any resize, then the widths and
   * the resize cursor take one step of the resize state machine with grab
   * areas 4 wide on the boundaries measured from the struct's rectangle.
   */
  method ResizeColumns(s: TableState, width: int, ev: Event) returns (next: TableState, e: Event)
    requires 0 <= width == |s.ColumnWidths|
    ensures var o := ResizeStep(s.ColumnWidths, s.Resizing, HeaderZone(s.Rect), MIN_WIDTH, ev);
      next == s.(ColumnWidths := o.widths, Resizing := o.resizing) &&
      e == (if o.used then ev.Use() else ev)
  {
    var widths, resizing, x;
    widths, resizing, x, e := WalkBoundaries(s.ColumnWidths, s.Resizing, HeaderZone(s.Rect), MIN_WIDTH, ev);
    next := s.(ColumnWidths := widths, Resizing := resizing);
  }

  /**
   * The row-height loop of `Draw`: row r becomes the larger of `MIN_HEIGHT`
   * and the measured heights of its elements (cells past the list count 0).
   * Rows from `rowCount` on keep their old heights.
   */
  method MeasureRows<E>(heights: seq<real>, list: seq<E>, measure: E -> real, width: int, rowCount: nat)
    returns (next: seq<real>)
    requires width >= 1 && rowCount <= |heights|
    ensures next == Layout.RowHeights(list, measure, width, 0.0, MIN_HEIGHT, rowCount) + heights[rowCount..]
  {
    next := heights;
    for r := 0 to rowCount
      invariant |next| == |heights|
      invariant forall i :: 0 <= i < r ==> next[i] == Layout.RowHeight(list, measure, width, 0.0, MIN_HEIGHT, i)
      invariant forall i :: r <= i < |next| ==> next[i] == heights[i]
    {
      var cellHeights := Layout.MeasureCells(list, measure, width, 0.0, r);
      next := next[r := RMax(MIN_HEIGHT, MaxOf(cellHeights))];
    }
    assert next == Layout.RowHeights(list, measure, width, 0.0, MIN_HEIGHT, rowCount) + heights[rowCount..];
  }

  /** 0, 1, ..., n-1. */
  function Upto(n: nat): (s: seq<int>)
    ensures |s| == n
    ensures forall i :: 0 <= i < n ==> s[i] == i
  {
    if n == 0 then [] else Upto(n - 1) + [n - 1]
  }

  /**
   * The cell walk of `Draw`: rows then columns; a cell whose index is inside
   * the list draws that element, any other an empty box. Returns the indices
   * of the elements drawn, in drawing order.
   */
  method WalkCells(listSize: nat, width: int, rowCount: nat) returns (elements: seq<int>)
    requires width >= 1
    ensures elements == Upto(if listSize < rowCount * width then listSize else rowCount * width)
  {
    elements := [];
    for r := 0 to rowCount
      invariant elements == Upto(if listSize < r * width then listSize else r * width)
    {
      for c := 0 to width
        invariant elements == Upto(if listSize < r * width + c then listSize else r * width + c)
      {
        var index := GetIndex(c, r, width);
        if index < listSize {
          elements := elements + [index];
        }
      }
      assert r * width + width == (r + 1) * width;
    }
  }

  /**
   * What `Draw` needs of its inputs: at least one column and, unless the
   * pass (re)initialises, a kept row height for every row of the list.
   */
  predicate DrawAllowed(state: TableState, width: int, listSize: nat)
  {
    width >= 1 && (!NeedsInit(state, width) ==> TableDrawerCore.GetRowCount(listSize, width) <= |state.RowHeights|)
  }

  /**
   * The struct `Draw` returns and the event it leaves: after the
   * initialisation step the rectangle's top-left corner moves to
   * `position`'s, the header walk takes one `ResizeStep`, and the first
   * `GetRowCount(|list|, width)` row heights are measured.
   */
  function AfterDraw<E>(state: TableState, position: Rect, width: int, list: seq<E>, measure: E -> real, ev: Event): (TableState, Event)
    requires DrawAllowed(state, width, |list|)
  {
    var s := Initialized(state, width, |list|);
    var rect := s.Rect.WithMin(position.Min());
    var o := ResizeStep(s.ColumnWidths, s.Resizing, HeaderZone(rect), MIN_WIDTH, ev);
    var rowCount := TableDrawerCore.GetRowCount(|list|, width);
    (TableState(true, o.widths,
                Layout.RowHeights(list, measure, width, 0.0, MIN_HEIGHT, rowCount) + s.RowHeights[rowCount..],
                rect, o.resizing),
     if o.used then ev.Use() else ev)
  }

  /**
   * `Draw`: one pass over the list of an `Array2D` with `width` columns.
   * After the initialisation step the rectangle's top-left corner moves to
   * `position`'s, the header walk resizes columns, the first
   * `GetRowCount(|list|, width)` rows take their measured heights, and
   * every element is drawn once, in order. The struct is returned for the
   * caller to keep. Unless the pass (re)initialises, the kept row heights
   * must already cover every row of the list.
   */
  method Draw<E>(state: TableState, position: Rect, width: int, list: seq<E>, measure: E -> real, ev: Event)
    returns (next: TableState, e: Event, elements: seq<int>)
    requires DrawAllowed(state, width, |list|)
    ensures (next, e) == AfterDraw(state, position, width, list, measure, ev)
    ensures elements == Upto(|list|)
  {
    var s := Initialize(state, width, |list|);
    s := s.(Rect := s.Rect.WithMin(position.Min()));
    s, e := ResizeColumns(s, width, ev);
    var rowCount := TableDrawerCore.GetRowCount(|list|, width);
    var heights := MeasureRows(s.RowHeights, list, measure, width, rowCount);
    s := s.(RowHeights := heights);
    elements := WalkCells(|list|, width, rowCount);
    next := s;
  }

  /**
   * Growing the list at a fixed width outruns the kept row heights: a pass
   * over two elements in three columns returns a struct with one row
   * height that does not reinitialise at three columns, and three elements
   * need two rows, so the next pass on the grown list is not allowed.
   */
  lemma GrowingListOutrunsRowHeights<E>(position: Rect, list: seq<E>, grown: seq<E>, measure: E -> real, ev: Event)
    requires |list| == 2 && |grown| == 3
    ensures DrawAllowed(DefaultState, 3, |list|)
    ensures var next := AfterDraw(DefaultState, position, 3, list, measure, ev).0;
      !NeedsInit(next, 3) && !DrawAllowed(next, 3, |grown|)
  {
    assert TableDrawerCore.GetRowCount(2, 3) == 1;
    assert TableDrawerCore.GetRowCount(3, 3) == 2;
    var next := AfterDraw(DefaultState, position, 3, list, measure, ev).0;
    assert |next.RowHeights| == 1;
  }
}
