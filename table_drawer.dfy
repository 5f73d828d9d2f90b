// TableDrawer.cs: one pass of the grid over a serialized list. The pass
// reconciles the kept geometry with the list and the column count, runs the
// column-resize state machine on the current event, re-measures the rows,
// walks every cell in row-major order (element, "+" cell or empty), and asks
// for a repaint when the total height moved.
module TableDrawer {
  import opened Gui
  import opened Grid
  import opened Layout
  import opened TableDrawerCore
  import opened DrawerState

  /** The contents of a possibly missing array (`null` reads as empty). */
  ghost function Contents(a: array?<real>): seq<real>
    reads a
  {
    if a == null then [] else a[..]
  }

  /** `SetupState` starts over when the state is new or the column count changed. */
  predicate NeedsReset(initialized: bool, columnWidths: seq<real>, width: int)
  {
    !initialized || width != |columnWidths|
  }

  /** `new Rect(0, 0, 500, GetWidth())` of a freshly reset state, before `Rect.min` is set. */
  function ResetRect(width: nat): Rect
  {
    Rect(0.0, 0.0, 500.0, width as real * MIN_WIDTH)
  }

  /** `ArrayUtility.Add`: a new array one longer, ending in `v`. */
  method ArrayAdd(a: array<real>, v: real) returns (b: array<real>)
    ensures fresh(b)
    ensures b[..] == a[..] + [v]
  {
    b := new real[a.Length + 1](i reads a => if 0 <= i < a.Length then a[i] else v);
  }

  /** `ArrayUtility.RemoveAt(ref a, a.Length - 1)`: a new array without the last entry. */
  method ArrayRemoveLast(a: array<real>) returns (b: array<real>)
    requires a.Length > 0
    ensures fresh(b)
    ensures b[..] == a[..a.Length - 1]
  {
    b := new real[a.Length - 1](i reads a => if 0 <= i < a.Length - 1 then a[i] else 0.0);
  }

  /**
   * The two `while` loops `SetupState` runs on each array: append `fill`
   * while shorter than `n`, then drop the last entry while longer.
   */
  method GrowOrTrim(a: array<real>, n: nat, fill: real) returns (b: array<real>)
    ensures b == a || fresh(b)
    ensures b[..] == Resized(a[..], n, fill)
  {
    b := a;
    while b.Length < n
      invariant b == a || fresh(b)
      invariant a.Length <= b.Length <= if a.Length < n then n else a.Length
      invariant b[..] == a[..] + Repeat(fill, b.Length - a.Length)
    {
      b := ArrayAdd(b, fill);
    }
    ghost var grown := b[..];
    while b.Length > n
      invariant b == a || fresh(b)
      invariant n <= b.Length <= |grown|
      invariant b[..] == grown[..b.Length]
    {
      b := ArrayRemoveLast(b);
    }
    assert b[..] == Resized(a[..], n, fill);
  }

  /** The column widths `SetupState` leaves: all `MIN_WIDTH` after a reset, else the kept ones fitted to `width`. */
  function SetupWidths(initialized: bool, widths: seq<real>, width: nat): seq<real>
  {
    if NeedsReset(initialized, widths, width) then Repeat(MIN_WIDTH, width) else Resized(widths, width, MIN_WIDTH)
  }

  /** The row heights `SetupState` leaves: all `MIN_HEIGHT` after a reset, else the kept ones fitted to `rowCount`. */
  function SetupHeights(initialized: bool, widths: seq<real>, heights: seq<real>, width: nat, rowCount: nat): seq<real>
  {
    if NeedsReset(initialized, widths, width) then Repeat(MIN_HEIGHT, rowCount) else Resized(heights, rowCount, MIN_HEIGHT)
  }

  /** The resize cursor `SetupState` leaves: -1 after a reset. */
  function SetupResizing(initialized: bool, widths: seq<real>, width: nat, resizing: int): int
  {
    if NeedsReset(initialized, widths, width) then -1 else resizing
  }

  /** The rectangle `SetupState` leaves: its top-left corner is `position`'s. */
  function SetupRect(initialized: bool, widths: seq<real>, width: nat, rect: Rect, position: Rect): Rect
  {
    (if NeedsReset(initialized, widths, width) then ResetRect(width) else rect).WithMin(position.Min())
  }

  /** The reset branch of `SetupState`: fresh arrays of default sizes, no resize in progress. */
  method ResetState(state: TableDrawerState, width: nat, rowCount: nat)
    modifies state
    ensures state.Initialized && state.Resizing == -1
    ensures state.ColumnWidths != null && state.RowHeights != null
    ensures fresh(state.ColumnWidths) && fresh(state.RowHeights) && state.ColumnWidths != state.RowHeights
    ensures state.ColumnWidths[..] == Repeat(MIN_WIDTH, width)
    ensures state.RowHeights[..] == Repeat(MIN_HEIGHT, rowCount)
    ensures state.Rect == ResetRect(width)
    ensures state.Width == old(state.Width) && state.Object == old(state.Object)
  {
    state.Initialized := true;
    var widths := new real[width];
    for i := 0 to widths.Length
      modifies widths
      invariant forall j :: 0 <= j < i ==> widths[j] == MIN_WIDTH
    {
      widths[i] := MIN_WIDTH;
    }
    state.ColumnWidths := widths;
    var heights := new real[rowCount];
    for i := 0 to heights.Length
      modifies heights
      invariant forall j :: 0 <= j < i ==> heights[j] == MIN_HEIGHT
    {
      heights[i] := MIN_HEIGHT;
    }
    state.RowHeights := heights;
    state.Resizing := -1;
    var total := state.GetWidth();
    assert widths[..] == Repeat(MIN_WIDTH, width);
    assert heights[..] == Repeat(MIN_HEIGHT, rowCount);
    SumRepeat(MIN_WIDTH, width);
    state.Rect := Rect(0.0, 0.0, 500.0, total);
  }

  /**
   * `SetupState`: after it the state is initialised, has `width` column
   * widths and one row height per row of the list. A new state or a changed
   * column count resets every width to `MIN_WIDTH`, every height to
   * `MIN_HEIGHT` and the resize cursor to -1 (and marks the owner dirty);
   * otherwise the arrays only grow or shrink at their tail. Either way the
   * top-left corner of `Rect` moves to `position`'s.
   */
  method SetupState<E>(state: TableDrawerState, position: Rect, width: int, list: ListProperty<E>) returns (dirtied: bool)
    requires width >= 1
    requires state.Valid()
    modifies state
    ensures state.Valid() && state.Initialized
    ensures state.ColumnWidths != null && state.RowHeights != null
    ensures state.ColumnWidths == old(state.ColumnWidths) || fresh(state.ColumnWidths)
    ensures state.RowHeights == old(state.RowHeights) || fresh(state.RowHeights)
    ensures state.Width == old(state.Width) && state.Object == old(state.Object)
    ensures dirtied == NeedsReset(old(state.Initialized), old(Contents(state.ColumnWidths)), width)
    ensures state.ColumnWidths[..] == SetupWidths(old(state.Initialized), old(Contents(state.ColumnWidths)), width)
    ensures state.RowHeights[..] == SetupHeights(old(state.Initialized), old(Contents(state.ColumnWidths)),
                                                 old(Contents(state.RowHeights)), width, GetRowCount(|list.items|, width))
    ensures state.Resizing == SetupResizing(old(state.Initialized), old(Contents(state.ColumnWidths)), width, old(state.Resizing))
    ensures state.Rect == SetupRect(old(state.Initialized), old(Contents(state.ColumnWidths)), width, old(state.Rect), position)
  {
    var listSize := |list.items|;
    var rowCount := GetRowCount(listSize, width);
    dirtied := false;
    if !state.Initialized || width != state.ColumnWidths.Length {
      ResetState(state, width, rowCount);
      dirtied := true;
    }
    state.RowHeights := GrowOrTrim(state.RowHeights, rowCount, MIN_HEIGHT);
    state.ColumnWidths := GrowOrTrim(state.ColumnWidths, width, MIN_WIDTH);
    state.Rect := state.Rect.WithMin(position.Min());
  }

  /** Whether `HandleResize` marks the owner dirty: a resize ended, or a grab area was hit. */
  predicate ResizeDirtied(widths: seq<real>, resizing: int, zone: HitZone, ev: Event)
  {
    (ev.kind == MouseUp && resizing != -1) ||
    (ev.kind == MouseDown && AnyHit(widths, zone, ev.mouse, resizing, |widths|))
  }

  /**
   * `HandleResize`: the first `width` column widths and the resize cursor
   * take one step of the resize state machine, with grab areas on the
   * column boundaries measured from `position` (50 units wide on the column
   * being resized, 6 otherwise). A drag consumes the event; the event the
   * rest of the pass sees is returned.
   */
  method HandleResize(state: TableDrawerState, position: Rect, width: int, ev: Event) returns (e: Event, dirtied: bool)
    requires state.ColumnWidths != null
    requires 0 <= width <= state.ColumnWidths.Length
    modifies state`Resizing, state.ColumnWidths
    ensures var o := ResizeStep(old(state.ColumnWidths[..width]), old(state.Resizing), ResizeZone(position), MIN_WIDTH, ev);
      state.ColumnWidths[..] == o.widths + old(state.ColumnWidths[..])[width..] &&
      state.Resizing == o.resizing &&
      e == (if o.used then ev.Use() else ev) &&
      dirtied == ResizeDirtied(old(state.ColumnWidths[..width]), old(state.Resizing), ResizeZone(position), ev)
  {
    ghost var full := state.ColumnWidths[..];
    ghost var w0 := full[..width];
    ghost var r0 := state.Resizing;
    ghost var zone := ResizeZone(position);
    dirtied := false;
    if ev.kind == MouseUp && state.Resizing != -1 {
      state.Resizing := -1;
      dirtied := true;
    }
    ghost var r1 := state.Resizing;
    ghost var dragged := ev.kind == MouseDrag && 0 <= r1 < width;
    ghost var newWidth := if dragged then ResizedWidth(MIN_WIDTH, full[r1], Boundary(w0, position.x, r1), ev.mouse.x) else 0.0;
    e := ev;
    var x := position.x;
    for c := 0 to width
      invariant x == position.x + Sum(full[..c])
      invariant ev.kind == MouseDown ==> state.Resizing == PressTarget(w0, zone, ev.mouse, r0, c)
      invariant ev.kind != MouseDown ==> state.Resizing == r1
      invariant state.ColumnWidths[..] == if dragged && r1 < c then full[r1 := newWidth] else full
      invariant e == if dragged && r1 < c then ev.Use() else ev
      invariant dirtied == ((ev.kind == MouseUp && r0 != -1) || (ev.kind == MouseDown && AnyHit(w0, zone, ev.mouse, r0, c)))
    {
      assert w0[..c + 1] == full[..c + 1];
      SumPrefixStep(full, c);
      x := x + state.ColumnWidths[c];
      var dragAreaWidth := if state.Resizing == c then 50.0 else 6.0;
      var dragArea := Rect(x - dragAreaWidth / 2.0, position.y, dragAreaWidth, position.height - BOTTOM_PADDING);
      if ev.kind == MouseDown {
        assert dragArea == DragArea(zone, w0, c, state.Resizing);
        assert HitAt(w0, zone, ev.mouse, r0, c) == dragArea.Contains(e.mouse);
      }
      if e.kind == MouseDown && dragArea.Contains(e.mouse) {
        state.Resizing := c;
        dirtied := true;
      }
      if state.Resizing == c && e.kind == MouseDrag {
        var target := e.mouse.x;
        state.ColumnWidths[c] := RMax(MIN_WIDTH, state.ColumnWidths[c] - (x - target));
        e := e.Use();
      }
    }
    assert w0 + full[width..] == full;
  }

  /**
   * `DrawAddCell` when the "+" button reports a click: the list gets one
   * more element at its end, the owner is marked dirty, and `GetHeight` runs
   * on the grown list.
   */
  method DrawAddCell<E>(list: ListProperty<E>, state: TableDrawerState, clicked: bool, added: E, measure: E -> real)
    returns (newList: ListProperty<E>, dirtied: bool)
    requires state.RowHeights != null
    modifies state
    ensures newList == if clicked then list.(items := InsertAt(list.items, |list.items|, added).value) else list
    ensures newList.items == if clicked then list.items + [added] else list.items
    ensures dirtied == clicked
    ensures state.Object == if clicked && old(state.Object).None? then Some(list.target) else old(state.Object)
    ensures state.RowHeights == old(state.RowHeights) && state.ColumnWidths == old(state.ColumnWidths)
    ensures state.Width == old(state.Width) && state.Initialized == old(state.Initialized)
    ensures state.Rect == old(state.Rect) && state.Resizing == old(state.Resizing)
  {
    newList := list;
    dirtied := false;
    if clicked {
      newList := list.(items := InsertAt(list.items, |list.items|, added).value);
      var _, _ := state.GetHeight(newList, measure);
      dirtied := true;
    }
  }

  /** The rectangle of cell (c, r): columns and rows laid out from (x0, y0). */
  function CellRect(widths: seq<real>, heights: seq<real>, x0: real, y0: real, c: nat, r: nat): Rect
    requires c < |widths| && r < |heights|
  {
    Rect(x0 + Sum(widths[..c]), y0 + Sum(heights[..r]), widths[c], heights[r])
  }

  /** Indices of the cells 0..c-1 of row r that report a context click. */
  function ContextClicksInRow(widths: seq<real>, heights: seq<real>, x0: real, y0: real, ev: Event, r: nat, c: nat): seq<int>
    requires c <= |widths| && r < |heights|
  {
    if c == 0 then []
    else
      ContextClicksInRow(widths, heights, x0, y0, ev, r, c - 1) +
      (if IsContextClick(ev, CellRect(widths, heights, x0, y0, c - 1, r)) then [GetIndex(c - 1, r, |widths|)] else [])
  }

  /** Indices of the cells of rows 0..r-1 that report a context click, in row-major order. */
  function ContextClicks(widths: seq<real>, heights: seq<real>, x0: real, y0: real, ev: Event, r: nat): seq<int>
    requires r <= |heights|
  {
    if r == 0 then []
    else ContextClicks(widths, heights, x0, y0, ev, r - 1) + ContextClicksInRow(widths, heights, x0, y0, ev, r - 1, |widths|)
  }

  /** Prefix sums of non-negative sizes never decrease. */
  lemma {:induction false} PrefixSumMonotone(s: seq<real>, i: nat, j: nat)
    requires AllAtLeast(s, 0.0)
    requires i <= j <= |s|
    ensures Sum(s[..i]) <= Sum(s[..j])
  {
    if i < j {
      PrefixSumMonotone(s, i, j - 1);
      SumPrefixStep(s, j - 1);
    }
  }

  /** With non-negative sizes, the half-open spans [x0 + Sum(s[..k]), x0 + Sum(s[..k+1])) do not overlap. */
  lemma SpanUnique(s: seq<real>, x0: real, p: real, k1: nat, k2: nat)
    requires AllAtLeast(s, 0.0)
    requires k1 < |s| && k2 < |s|
    requires x0 + Sum(s[..k1]) <= p < x0 + Sum(s[..k1]) + s[k1]
    requires x0 + Sum(s[..k2]) <= p < x0 + Sum(s[..k2]) + s[k2]
    ensures k1 == k2
  {
    if k1 < k2 {
      SumPrefixStep(s, k1);
      PrefixSumMonotone(s, k1 + 1, k2);
    } else if k2 < k1 {
      SumPrefixStep(s, k2);
      PrefixSumMonotone(s, k2 + 1, k1);
    }
  }

  /** Each entry of `ContextClicksInRow` is the index of a cell of that row under a context click. */
  lemma {:induction false} ContextClicksInRowAreHits(widths: seq<real>, heights: seq<real>, x0: real, y0: real, ev: Event, r: nat, c: nat)
    requires c <= |widths| && r < |heights|
    ensures forall k :: k in ContextClicksInRow(widths, heights, x0, y0, ev, r, c) ==>
      exists j :: 0 <= j < c && k == GetIndex(j, r, |widths|) && IsContextClick(ev, CellRect(widths, heights, x0, y0, j, r))
  {
    if c > 0 {
      ContextClicksInRowAreHits(widths, heights, x0, y0, ev, r, c - 1);
    }
  }

  /**
   * Each entry of `ContextClicks` is the index of a cell (one of the first
   * `rows` rows) under a context click.
   */
  lemma {:induction false} ContextClicksAreHits(widths: seq<real>, heights: seq<real>, x0: real, y0: real, ev: Event, rows: nat)
    requires rows <= |heights|
    ensures forall k :: k in ContextClicks(widths, heights, x0, y0, ev, rows) ==>
      exists r, c :: 0 <= r < rows && 0 <= c < |widths| && k == GetIndex(c, r, |widths|) &&
        IsContextClick(ev, CellRect(widths, heights, x0, y0, c, r))
  {
    if rows > 0 {
      ContextClicksAreHits(widths, heights, x0, y0, ev, rows - 1);
      ContextClicksInRowAreHits(widths, heights, x0, y0, ev, rows - 1, |widths|);
    }
  }

  /** With non-negative widths, at most one cell of a row is under the pointer. */
  lemma {:induction false} ContextClicksInRowAtMostOne(widths: seq<real>, heights: seq<real>, x0: real, y0: real, ev: Event, r: nat, c: nat)
    requires c <= |widths| && r < |heights|
    requires AllAtLeast(widths, 0.0)
    ensures |ContextClicksInRow(widths, heights, x0, y0, ev, r, c)| <= 1
  {
    if c > 0 {
      ContextClicksInRowAtMostOne(widths, heights, x0, y0, ev, r, c - 1);
      ContextClicksInRowAreHits(widths, heights, x0, y0, ev, r, c - 1);
      var before := ContextClicksInRow(widths, heights, x0, y0, ev, r, c - 1);
      if |before| == 1 && IsContextClick(ev, CellRect(widths, heights, x0, y0, c - 1, r)) {
        var k := before[0];
        assert k in ContextClicksInRow(widths, heights, x0, y0, ev, r, c - 1);
        var j :| 0 <= j < c - 1 && k == GetIndex(j, r, |widths|) && IsContextClick(ev, CellRect(widths, heights, x0, y0, j, r));
        SpanUnique(widths, x0, ev.mouse.x, j, c - 1);
        assert false;
      }
    }
  }

  /**
   * A context click opens at most one menu when no column or row has
   * negative size: the cells tile the grid without overlapping.
   */
  lemma {:induction false} ContextClicksAtMostOne(widths: seq<real>, heights: seq<real>, x0: real, y0: real, ev: Event, rows: nat)
    requires rows <= |heights|
    requires AllAtLeast(widths, 0.0) && AllAtLeast(heights, 0.0)
    ensures |ContextClicks(widths, heights, x0, y0, ev, rows)| <= 1
  {
    if rows > 0 {
      ContextClicksAtMostOne(widths, heights, x0, y0, ev, rows - 1);
      ContextClicksInRowAtMostOne(widths, heights, x0, y0, ev, rows - 1, |widths|);
      var before := ContextClicks(widths, heights, x0, y0, ev, rows - 1);
      var last := ContextClicksInRow(widths, heights, x0, y0, ev, rows - 1, |widths|);
      if |before| == 1 && |last| == 1 {
        ContextClicksAreHits(widths, heights, x0, y0, ev, rows - 1);
        ContextClicksInRowAreHits(widths, heights, x0, y0, ev, rows - 1, |widths|);
        var k1, k2 := before[0], last[0];
        assert k1 in ContextClicks(widths, heights, x0, y0, ev, rows - 1);
        assert k2 in ContextClicksInRow(widths, heights, x0, y0, ev, rows - 1, |widths|);
        var r, c :| 0 <= r < rows - 1 && 0 <= c < |widths| && k1 == GetIndex(c, r, |widths|) &&
          IsContextClick(ev, CellRect(widths, heights, x0, y0, c, r));
        var j :| 0 <= j < |widths| && k2 == GetIndex(j, rows - 1, |widths|) &&
          IsContextClick(ev, CellRect(widths, heights, x0, y0, j, rows - 1));
        SpanUnique(heights, y0, ev.mouse.y, r, rows - 1);
        assert false;
      }
    }
  }

  /**
   * `SetupState` settles: a second pass with the same width and list does
   * not reset, and leaves the widths and heights the first pass left.
   */
  lemma SetupSettles(initialized: bool, widths: seq<real>, heights: seq<real>, width: nat, rowCount: nat)
    ensures var w1 := SetupWidths(initialized, widths, width);
      var h1 := SetupHeights(initialized, widths, heights, width, rowCount);
      !NeedsReset(true, w1, width) &&
      SetupWidths(true, w1, width) == w1 &&
      SetupHeights(true, w1, h1, width, rowCount) == h1
  {
    var w1 := SetupWidths(initialized, widths, width);
    var h1 := SetupHeights(initialized, widths, heights, width, rowCount);
    assert Resized(w1, width, MIN_WIDTH) == w1;
    assert Resized(h1, rowCount, MIN_HEIGHT) == h1;
  }

  /** `Math.Abs(after - before) > 0.1f`: the total height moved enough to relayout. */
  function HeightChanged(before: real, after: real): (b: bool)
    ensures b <==> after > before + 0.1 || after < before - 0.1
  {
    Abs(after - before) > 0.1
  }

  /**
   * One row of the cell walk of `Draw`: columns left to right, the cursor
   * advancing by the kept widths from `Rect.x`. Each cell is an element of
   * the list (of `listSize` elements when the pass began), the "+" cell
   * right after the last element, or empty; a context click on a cell opens
   * its menu.
   */
  method DrawRow<E>(state: TableDrawerState, width: int, r: nat, listSize: nat, list: ListProperty<E>, e: Event,
                    top: real, ghost y0: real, measure: E -> real, addClicked: bool, added: E)
    returns (newList: ListProperty<E>, cells: seq<CellKind>, menus: seq<int>, dirtied: bool)
    requires state.ColumnWidths != null && state.RowHeights != null
    requires state.ColumnWidths.Length == width && r < state.RowHeights.Length
    requires top == y0 + Sum(state.RowHeights[..r])
    requires state.Object.Some?
    modifies state
    ensures state.ColumnWidths == old(state.ColumnWidths) && state.RowHeights == old(state.RowHeights)
    ensures state.Object == old(state.Object) && state.Width == old(state.Width)
    ensures state.Rect == old(state.Rect) && state.Resizing == old(state.Resizing)
    ensures state.Initialized == old(state.Initialized)
    ensures var holdsAdd := addClicked && r * width <= listSize < r * width + width;
      newList.items == (if holdsAdd then list.items + [added] else list.items) && dirtied == holdsAdd
    ensures |cells| == width
    ensures forall c :: 0 <= c < width ==> cells[c] == Classify(r * width + c, listSize)
    ensures menus == ContextClicksInRow(state.ColumnWidths[..], state.RowHeights[..], state.Rect.x, y0, e, r, width)
  {
    ghost var W := state.ColumnWidths[..];
    ghost var H := state.RowHeights[..];
    ghost var x0 := state.Rect.x;
    ghost var cw, rh, obj := state.ColumnWidths, state.RowHeights, state.Object;
    ghost var rect, resizing, initialized, w := state.Rect, state.Resizing, state.Initialized, state.Width;
    var cursor := Vec2(state.Rect.x, top);
    newList := list;
    cells := [];
    menus := [];
    dirtied := false;
    for c := 0 to width
      invariant state.ColumnWidths == cw && state.RowHeights == rh && state.Object == obj
      invariant state.Rect == rect && state.Resizing == resizing && state.Initialized == initialized && state.Width == w
      invariant cursor == Vec2(x0 + Sum(W[..c]), y0 + Sum(H[..r]))
      invariant |cells| == c
      invariant forall j :: 0 <= j < c ==> cells[j] == Classify(r * width + j, listSize)
      invariant menus == ContextClicksInRow(W, H, x0, y0, e, r, c)
      invariant newList.items == if addClicked && r * width <= listSize < r * width + c then list.items + [added] else list.items
      invariant dirtied == (addClicked && r * width <= listSize < r * width + c)
    {
      var index := GetIndex(c, r, width);
      var cellRect := Rect(cursor.x, cursor.y, state.ColumnWidths[c], state.RowHeights[r]);
      if IsContextClick(e, cellRect) {
        menus := menus + [index];
      }
      if index < listSize {
        cells := cells + [ElementCell(index)];
      } else if listSize == index {
        cells := cells + [AddCell];
        var addedNow;
        newList, addedNow := DrawAddCell(newList, state, addClicked, added, measure);
        dirtied := dirtied || addedNow;
      } else {
        cells := cells + [EmptyCell];
      }
      SumPrefixStep(W, c);
      cursor := cursor.(x := cursor.x + state.ColumnWidths[c]);
    }
  }

  /**
   * The cell walk of `Draw`: rows top to bottom from `y0`, each drawn by
   * `DrawRow`; the list gets its new element when the "+" cell is clicked.
   */
  method DrawCells<E>(state: TableDrawerState, width: int, rowCount: int, list: ListProperty<E>, e: Event, y0: real,
                      measure: E -> real, addClicked: bool, added: E)
    returns (newList: ListProperty<E>, cells: seq<CellKind>, menus: seq<int>, dirtied: bool)
    requires state.ColumnWidths != null && state.RowHeights != null
    requires state.ColumnWidths.Length == width && state.RowHeights.Length == rowCount
    requires |list.items| < rowCount * width
    requires state.Object.Some?
    modifies state
    ensures state.ColumnWidths == old(state.ColumnWidths) && state.RowHeights == old(state.RowHeights)
    ensures state.Object == old(state.Object) && state.Width == old(state.Width)
    ensures state.Rect == old(state.Rect) && state.Resizing == old(state.Resizing)
    ensures state.Initialized == old(state.Initialized)
    ensures newList.items == if addClicked then list.items + [added] else list.items
    ensures dirtied == addClicked
    ensures |cells| == rowCount * width
    ensures forall k :: 0 <= k < |cells| ==> cells[k] == Classify(k, |list.items|)
    ensures menus == ContextClicks(state.ColumnWidths[..], state.RowHeights[..], state.Rect.x, y0, e, rowCount)
  {
    var listSize := |list.items|;
    ghost var W := state.ColumnWidths[..];
    ghost var H := state.RowHeights[..];
    ghost var x0 := state.Rect.x;
    ghost var cw, rh, obj := state.ColumnWidths, state.RowHeights, state.Object;
    ghost var rect, resizing, initialized, w := state.Rect, state.Resizing, state.Initialized, state.Width;
    newList := list;
    cells := [];
    menus := [];
    dirtied := false;
    var top := y0;
    for r := 0 to rowCount
      invariant top == y0 + Sum(H[..r])
      invariant state.ColumnWidths == cw && state.RowHeights == rh && state.Object == obj
      invariant state.Rect == rect && state.Resizing == resizing && state.Initialized == initialized && state.Width == w
      invariant |cells| == r * width
      invariant forall k :: 0 <= k < |cells| ==> cells[k] == Classify(k, listSize)
      invariant menus == ContextClicks(W, H, x0, y0, e, r)
      invariant newList.items == if addClicked && listSize < r * width then list.items + [added] else list.items
      invariant dirtied == (addClicked && listSize < r * width)
    {
      var rowList, rowCells, rowMenus, rowDirtied := DrawRow(state, width, r, listSize, newList, e, top, y0, measure, addClicked, added);
      SumPrefixStep(H, r);
      top := top + state.RowHeights[r];
      assert (r + 1) * width == r * width + width;
      cells := cells + rowCells;
      menus := menus + rowMenus;
      newList := rowList;
      dirtied := dirtied || rowDirtied;
    }
  }

  /** The resize step of a pass, taken on the widths and cursor `SetupState` leaves. */
  function PassResize(initialized: bool, widths: seq<real>, width: nat, resizing: int, position: Rect, ev: Event): ResizeOutcome
  {
    ResizeStep(SetupWidths(initialized, widths, width), SetupResizing(initialized, widths, width, resizing),
               ResizeZone(position), MIN_WIDTH, ev)
  }

  /** The height `GetHeight` reported at the start of a pass. */
  ghost function HeightBefore(heights: array?<real>): real
    reads heights
  {
    if heights == null then MIN_HEIGHT else TotalHeight(heights[..])
  }

  /**
   * The start of a pass: the height as the pass found it, `SetupState` and
   * `HandleResize`.
   */
  method SetupPass<E>(state: TableDrawerState, position: Rect, width: int, list: ListProperty<E>, ev: Event, measure: E -> real)
    returns (height: real, e: Event, dirtied: bool)
    requires width >= 1
    requires state.Valid()
    requires state.RowHeights != null || state.Width >= 1
    modifies state, state.ColumnWidths, state.RowHeights
    ensures state.Valid() && state.Initialized && state.Object.Some?
    ensures state.ColumnWidths != null && state.RowHeights != null
    ensures state.ColumnWidths == old(state.ColumnWidths) || fresh(state.ColumnWidths)
    ensures state.RowHeights == old(state.RowHeights) || fresh(state.RowHeights)
    ensures state.Width == old(state.Width)
    ensures state.RowHeights.Length == GetRowCount(|list.items|, width)
    ensures state.ColumnWidths[..] ==
      PassResize(old(state.Initialized), old(Contents(state.ColumnWidths)), width, old(state.Resizing), position, ev).widths
    ensures state.Resizing ==
      PassResize(old(state.Initialized), old(Contents(state.ColumnWidths)), width, old(state.Resizing), position, ev).resizing
    ensures e == if PassResize(old(state.Initialized), old(Contents(state.ColumnWidths)), width, old(state.Resizing), position, ev).used
      then ev.Use() else ev
    ensures state.Rect == SetupRect(old(state.Initialized), old(Contents(state.ColumnWidths)), width, old(state.Rect), position)
    ensures height == old(HeightBefore(state.RowHeights))
    ensures dirtied == (NeedsReset(old(state.Initialized), old(Contents(state.ColumnWidths)), width) ||
      (old(state.RowHeights) != null && !old(state.Initialized)) ||
      ResizeDirtied(SetupWidths(old(state.Initialized), old(Contents(state.ColumnWidths)), width),
                    SetupResizing(old(state.Initialized), old(Contents(state.ColumnWidths)), width, old(state.Resizing)),
                    ResizeZone(position), ev))
  {
    ghost var init0, widths0 := state.Initialized, Contents(state.ColumnWidths);
    var d0;
    height, d0 := state.GetHeight(list, measure);
    assert Contents(state.ColumnWidths) == widths0;
    var d1 := SetupState(state, position, width, list);
    assert state.ColumnWidths[..width] == state.ColumnWidths[..];
    var d2;
    e, d2 := HandleResize(state, position, width, ev);
    dirtied := d0 || d1 || d2;
  }

  /**
   * The first half of `Draw`, before any cell is drawn: `SetupPass`, then
   * the row measurement.
   */
  method BeginPass<E>(state: TableDrawerState, position: Rect, width: int, list: ListProperty<E>, ev: Event, measure: E -> real)
    returns (height: real, e: Event, dirtied: bool)
    requires width >= 1
    requires state.Valid()
    requires state.RowHeights != null || state.Width >= 1
    modifies state, state.ColumnWidths, state.RowHeights
    ensures state.Valid() && state.Initialized && state.Object.Some?
    ensures state.ColumnWidths != null && state.RowHeights != null
    ensures state.ColumnWidths == old(state.ColumnWidths) || fresh(state.ColumnWidths)
    ensures state.RowHeights == old(state.RowHeights) || fresh(state.RowHeights)
    ensures state.Width == old(state.Width)
    ensures state.ColumnWidths[..] ==
      PassResize(old(state.Initialized), old(Contents(state.ColumnWidths)), width, old(state.Resizing), position, ev).widths
    ensures state.Resizing ==
      PassResize(old(state.Initialized), old(Contents(state.ColumnWidths)), width, old(state.Resizing), position, ev).resizing
    ensures e == if PassResize(old(state.Initialized), old(Contents(state.ColumnWidths)), width, old(state.Resizing), position, ev).used
      then ev.Use() else ev
    ensures state.RowHeights[..] == MeasuredRows(list.items, measure, width, GetRowCount(|list.items|, width))
    ensures state.Rect == SetupRect(old(state.Initialized), old(Contents(state.ColumnWidths)), width, old(state.Rect), position)
    ensures height == old(HeightBefore(state.RowHeights))
    ensures dirtied == (NeedsReset(old(state.Initialized), old(Contents(state.ColumnWidths)), width) ||
      (old(state.RowHeights) != null && !old(state.Initialized)) ||
      ResizeDirtied(SetupWidths(old(state.Initialized), old(Contents(state.ColumnWidths)), width),
                    SetupResizing(old(state.Initialized), old(Contents(state.ColumnWidths)), width, old(state.Resizing)),
                    ResizeZone(position), ev))
  {
    var rowCount := GetRowCount(|list.items|, width);
    height, e, dirtied := SetupPass(state, position, width, list, ev, measure);
    ghost var W, R, X := state.ColumnWidths[..], state.Resizing, state.Rect;
    state.CalculateRowHeights(width, rowCount, list, measure);
    assert state.ColumnWidths[..] == W && state.Resizing == R && state.Rect == X;
    assert state.RowHeights[..] == MeasuredRows(list.items, measure, width, rowCount);
  }

  /**
   * `Draw`: one pass of the grid. `addClicked` is whether the "+" button
   * reports a click, `added` the element the editor appends for it, and
   * `measure` the editor's height of an element. Afterwards the widths and
   * the resize cursor are those the resize step leaves, every row height is
   * the measured one, the cells come out in row-major order (elements, the
   * "+" cell, then empty ones), menus open on the cells under a context
   * click, and a repaint is asked for when the total height moved by more
   * than 0.1.
   */
  method Draw<E>(state: TableDrawerState, position: Rect, width: int, list: ListProperty<E>, ev: Event,
                 measure: E -> real, addClicked: bool, added: E)
    returns (newList: ListProperty<E>, cells: seq<CellKind>, menus: seq<int>, dirtied: bool, repaint: bool)
    requires width >= 1
    requires state.Valid()
    requires state.RowHeights != null || state.Width >= 1
    modifies state, state.ColumnWidths, state.RowHeights
    ensures state.Valid() && state.Initialized
    ensures state.ColumnWidths != null && state.RowHeights != null
    ensures state.ColumnWidths[..] ==
      PassResize(old(state.Initialized), old(Contents(state.ColumnWidths)), width, old(state.Resizing), position, ev).widths
    ensures state.Resizing ==
      PassResize(old(state.Initialized), old(Contents(state.ColumnWidths)), width, old(state.Resizing), position, ev).resizing
    ensures state.RowHeights[..] == MeasuredRows(list.items, measure, width, GetRowCount(|list.items|, width))
    ensures state.Rect == SetupRect(old(state.Initialized), old(Contents(state.ColumnWidths)), width, old(state.Rect), position)
    ensures newList.items == if addClicked then list.items + [added] else list.items
    ensures |cells| == GetRowCount(|list.items|, width) * width
    ensures forall k :: 0 <= k < |cells| ==> cells[k] == Classify(k, |list.items|)
    ensures menus == ContextClicks(state.ColumnWidths[..], state.RowHeights[..], state.Rect.x, old(state.Rect.y) + MIN_HEIGHT,
      if PassResize(old(state.Initialized), old(Contents(state.ColumnWidths)), width, old(state.Resizing), position, ev).used
      then ev.Use() else ev, GetRowCount(|list.items|, width))
    ensures repaint == HeightChanged(old(HeightBefore(state.RowHeights)), TotalHeight(state.RowHeights[..]))
    ensures dirtied == (NeedsReset(old(state.Initialized), old(Contents(state.ColumnWidths)), width) || addClicked || repaint ||
      (old(state.RowHeights) != null && !old(state.Initialized)) ||
      ResizeDirtied(SetupWidths(old(state.Initialized), old(Contents(state.ColumnWidths)), width),
                    SetupResizing(old(state.Initialized), old(Contents(state.ColumnWidths)), width, old(state.Resizing)),
                    ResizeZone(position), ev))
  {
    var rowCount := GetRowCount(|list.items|, width);
    var cursor := state.Rect.Min();
    ghost var top := old(state.Rect.y) + MIN_HEIGHT;
    ghost var used := PassResize(old(state.Initialized), old(Contents(state.ColumnWidths)), width, old(state.Resizing), position, ev).used;
    var height, e, d0 := BeginPass(state, position, width, list, ev, measure);
    cursor := cursor.(y := cursor.y + MIN_HEIGHT);
    assert cursor.y == top && e == if used then ev.Use() else ev;
    var d1;
    newList, cells, menus, d1 := DrawCells(state, width, rowCount, list, e, cursor.y, measure, addClicked, added);
    ghost var W, H, x0 := state.ColumnWidths[..], state.RowHeights[..], state.Rect.x;
    assert menus == ContextClicks(W, H, x0, top, if used then ev.Use() else ev, rowCount);
    var after, _ := state.GetHeight(newList, measure);
    assert state.ColumnWidths[..] == W && state.RowHeights[..] == H && state.Rect.x == x0;
    repaint := HeightChanged(height, after);
    dirtied := d0 || d1 || repaint;
  }

  /** The name whose hash keys a list's state: owner name, `_`, property path. */
  function ControlName(targetName: string, propertyPath: string): string
  {
    targetName + "_" + propertyPath
  }

  /**
   * `GetState`: the state the cache keeps under the hash of the control
   * name, created on first use. Lists whose names hash alike share it.
   */
  method GetState(store: StateStore, hash: string -> int, targetName: string, propertyPath: string)
    returns (state: TableDrawerState)
    modifies store
    ensures var control := hash(ControlName(targetName, propertyPath));
      (control in old(store.States) ==> state == old(store.States)[control] && store.States == old(store.States)) &&
      (control !in old(store.States) ==> fresh(state) && state.IsDefault() && store.States == old(store.States)[control := state])
  {
    var control := hash(ControlName(targetName, propertyPath));
    state := store.GetStateObject(control);
  }

  /**
   * The control name does not separate its two parts: an owner "a_b" with
   * field "c" and an owner "a" with field "b_c" get the same state.
   */
  lemma ControlNamesCollide()
    ensures ControlName("a_b", "c") == ControlName("a", "b_c")
  {
  }
}
