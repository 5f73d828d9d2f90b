// GUITable.cs: a table of arbitrary row objects drawn column by column by
// per-column drawers, with resizable columns and rows that grow to fit what
// their cells report; and its variant for serialized objects, whose columns
// show a named field or the object's name.
module GuiTable {
  import opened Gui
  import opened Layout

  /**
   * What a column draws in a cell, and so the height it reports: a drawer
   * given by the caller, the object's name label (always 16), or the editor
   * of one named field (its height plus 8 for the 4-unit margins).
   */
  datatype Drawer<!T> = Custom(draw: (T, Rect) -> real) | NameLabel | Field(fieldName: string)

  /** The height a cell reports; `fieldHeight` is the editor's height of a named field of a row. */
  function DrawCell<T>(d: Drawer<T>, row: T, cell: Rect, fieldHeight: (T, string) -> real): real
  {
    match d
    case Custom(draw) => draw(row, cell)
    case NameLabel => 16.0
    case Field(name) => fieldHeight(row, name) + 8.0
  }

  /** `ColumnData`: how the column draws, its width and its header. */
  datatype ColumnData<!T> = ColumnData(Draw: Drawer<T>, Width: real, Header: string)

  /** The widths of the columns, in order. */
  function Widths<T>(columns: seq<ColumnData<T>>): (ws: seq<real>)
    ensures |ws| == |columns|
    ensures forall c :: 0 <= c < |columns| ==> ws[c] == columns[c].Width
  {
    seq(|columns|, c requires 0 <= c < |columns| => columns[c].Width)
  }

  /** The heights the cells of one row report, each cell at the origin with its column's width and the row's height. */
  function ReportedHeights<T>(columns: seq<ColumnData<T>>, row: T, height: real, fieldHeight: (T, string) -> real): seq<real>
  {
    seq(|columns|, c requires 0 <= c < |columns| =>
      DrawCell(columns[c].Draw, row, Rect(0.0, 0.0, columns[c].Width, height), fieldHeight))
  }

  /**
   * `Mathf.Max(MinHeight, Mathf.Max(heights))`: the row's next height is the
   * least value at least `minHeight` and at least every cell's height (an
   * empty row of cells counts as 0).
   */
  function FittedHeight<T>(columns: seq<ColumnData<T>>, row: T, height: real, minHeight: real,
                           fieldHeight: (T, string) -> real): (h: real)
    ensures h >= minHeight
    ensures forall c :: 0 <= c < |columns| ==>
      h >= DrawCell(columns[c].Draw, row, Rect(0.0, 0.0, columns[c].Width, height), fieldHeight)
    ensures h == minHeight || (|columns| == 0 && h == 0.0) ||
      exists c :: 0 <= c < |columns| && h == DrawCell(columns[c].Draw, row, Rect(0.0, 0.0, columns[c].Width, height), fieldHeight)
  {
    var hs := ReportedHeights(columns, row, height, fieldHeight);
    assert |hs| == |columns|;
    assert forall c :: 0 <= c < |columns| ==>
      hs[c] == DrawCell(columns[c].Draw, row, Rect(0.0, 0.0, columns[c].Width, height), fieldHeight);
    RMax(minHeight, MaxOf(hs))
  }

  /** The grab areas of the header: 4 units wide on every column boundary, as tall as the table. */
  function TableZone(rect: Rect): HitZone
  {
    HitZone(0.0, 0.0, rect.height, 4.0, 4.0)
  }

  /** The columns with their widths replaced by `widths`, as `Columns[c].Width = ...` leaves them. */
  function WithWidths<T>(columns: seq<ColumnData<T>>, widths: seq<real>): (cs: seq<ColumnData<T>>)
    requires |widths| == |columns|
    ensures Widths(cs) == widths
    ensures |cs| == |columns|
    ensures forall c :: 0 <= c < |cs| ==> cs[c].Draw == columns[c].Draw && cs[c].Header == columns[c].Header
  {
    seq(|columns|, c requires 0 <= c < |columns| => columns[c].(Width := widths[c]))
  }

  class GUITable<T> {
    var Rows: seq<T>
    var RowHeights: seq<real>
    var Columns: seq<ColumnData<T>>
    var MinWidth: real
    var MinHeight: real
    var CellWidth: real
    var CellHeight: real
    var HeaderHeight: real
    var resizing: int

    constructor()
      ensures Rows == [] && RowHeights == [] && Columns == []
      ensures MinWidth == 40.0 && MinHeight == 20.0
      ensures CellWidth == 200.0 && CellHeight == 100.0 && HeaderHeight == 20.0
      ensures resizing == -1
    {
      Rows := [];
      RowHeights := [];
      Columns := [];
      MinWidth := 40.0;
      MinHeight := 20.0;
      CellWidth := 200.0;
      CellHeight := 100.0;
      HeaderHeight := 20.0;
      resizing := -1;
    }

    /** Every row has a height (`AddRow` keeps the two lists in step). */
    ghost predicate Valid()
      reads this
    {
      |Rows| <= |RowHeights|
    }

    /** `AddRow`: the row goes last, with the default cell height. */
    method AddRow(row: T)
      modifies this`Rows, this`RowHeights
      ensures Rows == old(Rows) + [row]
      ensures RowHeights == old(RowHeights) + [CellHeight]
      ensures old(|Rows| == |RowHeights|) ==> |Rows| == |RowHeights|
    {
      Rows := Rows + [row];
      RowHeights := RowHeights + [CellHeight];
    }

    /** `AddColumn`: the column goes last, with the default cell width. */
    method AddColumn(column: (T, Rect) -> real, header: string)
      modifies this`Columns
      ensures Columns == old(Columns) + [ColumnData(Custom(column), CellWidth, header)]
    {
      Columns := Columns + [ColumnData(Custom(column), CellWidth, header)];
    }

    /**
     * The header walk of `Draw`: runs the resize state machine on the column
     * widths (grab areas 4 wide on each boundary, widths floored at
     * `MinWidth`) and ends at the right edge of the widths it walked.
     */
    method DrawHeader(rect: Rect, ev: Event) returns (x: real, e: Event)
      modifies this`Columns, this`resizing
      ensures var o := ResizeStep(Widths(old(Columns)), old(resizing), TableZone(rect), MinWidth, ev);
        Widths(Columns) == o.widths && resizing == o.resizing && e == (if o.used then ev.Use() else ev)
      ensures x == Sum(Widths(old(Columns)))
      ensures |Columns| == old(|Columns|)
      ensures forall c :: 0 <= c < |Columns| ==>
        Columns[c].Draw == old(Columns[c].Draw) && Columns[c].Header == old(Columns[c].Header)
    {
      var widths, target;
      widths, target, x, e := WalkBoundaries(Widths(Columns), resizing, TableZone(rect), MinWidth, ev);
      Columns, resizing := WithWidths(Columns, widths), target;
    }

    /**
     * One row of the row walk of `Draw`: each cell is drawn at the origin
     * with its column's width and the row's kept height; returns the right
     * edge of the row and the fitted height of what the cells report.
     */
    method DrawRow(r: nat, fieldHeight: (T, string) -> real) returns (x: real, fitted: real)
      requires r < |Rows| && r < |RowHeights|
      ensures x == Sum(Widths(Columns))
      ensures fitted == FittedHeight(Columns, Rows[r], RowHeights[r], MinHeight, fieldHeight)
    {
      ghost var widths := Widths(Columns);
      x := 0.0;
      var heights := new real[|Columns|];
      for c := 0 to |Columns|
        invariant x == Sum(widths[..c])
        invariant forall j :: 0 <= j < c ==>
          heights[j] == DrawCell(Columns[j].Draw, Rows[r], Rect(0.0, 0.0, Columns[j].Width, RowHeights[r]), fieldHeight)
      {
        var cellRect := Rect(0.0, 0.0, Columns[c].Width, RowHeights[r]);
        heights[c] := DrawCell(Columns[c].Draw, Rows[r], cellRect, fieldHeight);
        SumPrefixStep(widths, c);
        x := x + Columns[c].Width;
      }
      assert widths[..|Columns|] == widths;
      assert heights[..] == ReportedHeights(Columns, Rows[r], RowHeights[r], fieldHeight);
      fitted := RMax(MinHeight, MaxOf(heights[..]));
    }

    /**
     * The row walk of `Draw`: each row is drawn below the header at its kept
     * height and then takes the fitted height of what its cells report. It
     * ends at the right edge of the last row and the bottom of the rows.
     */
    method DrawRows(fieldHeight: (T, string) -> real) returns (x: real, y: real)
      requires Valid()
      modifies this`RowHeights
      ensures Valid()
      ensures y == HeaderHeight + Sum(old(RowHeights)[..|Rows|])
      ensures |Rows| > 0 ==> x == Sum(Widths(Columns))
      ensures |Rows| == 0 ==> x == 0.0
      ensures |RowHeights| == old(|RowHeights|)
      ensures forall r :: 0 <= r < |Rows| ==>
        RowHeights[r] == FittedHeight(Columns, Rows[r], old(RowHeights[r]), MinHeight, fieldHeight)
      ensures forall r :: |Rows| <= r < |RowHeights| ==> RowHeights[r] == old(RowHeights[r])
    {
      ghost var heights0 := RowHeights;
      x := 0.0;
      y := HeaderHeight;
      for r := 0 to |Rows|
        invariant |RowHeights| == |heights0|
        invariant y == HeaderHeight + Sum(heights0[..r])
        invariant r > 0 ==> x == Sum(Widths(Columns))
        invariant r == 0 ==> x == 0.0
        invariant forall j :: 0 <= j < r ==> RowHeights[j] == FittedHeight(Columns, Rows[j], heights0[j], MinHeight, fieldHeight)
        invariant forall j :: r <= j < |RowHeights| ==> RowHeights[j] == heights0[j]
      {
        var fitted;
        x, fitted := DrawRow(r, fieldHeight);
        SumPrefixStep(heights0, r);
        y := y + RowHeights[r];
        RowHeights := RowHeights[r := fitted];
      }
    }

    /**
     * `Draw`: one pass. The header walk resizes columns, the row walk fits
     * every row to what its cells report, and the "+" button below the rows
     * invokes the add callback when `addClicked`. The returned extent spans
     * the last walk across the columns (the header's when there are no rows)
     * and everything drawn down to the button.
     */
    method Draw(rect: Rect, ev: Event, fieldHeight: (T, string) -> real, addClicked: bool)
      returns (extent: Rect, e: Event, addInvoked: bool)
      requires Valid()
      modifies this`Columns, this`RowHeights, this`resizing
      ensures Valid()
      ensures var o := ResizeStep(Widths(old(Columns)), old(resizing), TableZone(rect), MinWidth, ev);
        Widths(Columns) == o.widths &&
        resizing == o.resizing &&
        e == (if o.used then ev.Use() else ev) &&
        extent == Rect(0.0, 0.0, if |Rows| == 0 then Sum(old(Widths(Columns))) else Sum(o.widths),
                       HeaderHeight + Sum(old(RowHeights)[..|Rows|]) + MinHeight)
      ensures |Columns| == old(|Columns|)
      ensures forall c :: 0 <= c < |Columns| ==>
        Columns[c].Draw == old(Columns[c].Draw) && Columns[c].Header == old(Columns[c].Header)
      ensures |RowHeights| == old(|RowHeights|)
      ensures forall r :: 0 <= r < |Rows| ==>
        RowHeights[r] == FittedHeight(Columns, Rows[r], old(RowHeights[r]), MinHeight, fieldHeight)
      ensures forall r :: |Rows| <= r < |RowHeights| ==> RowHeights[r] == old(RowHeights[r])
      ensures addInvoked == addClicked
    {
      var x, y;
      x, e := DrawHeader(rect, ev);
      var rowsRight;
      rowsRight, y := DrawRows(fieldHeight);
      if |Rows| > 0 {
        x := rowsRight;
      }
      addInvoked := false;
      if addClicked {
        addInvoked := true;
      }
      y := y + MinHeight;
      extent := Rect(0.0, 0.0, x, y);
    }
  }

  /**
   * Once every row is at least `minHeight` (as one `Draw` leaves them), the
   * extent a pass returns is at least a header, one minimum row per row and
   * the "+" row tall.
   */
  lemma ExtentHeightAtLeast(heights: seq<real>, n: nat, headerHeight: real, minHeight: real)
    requires n <= |heights|
    requires forall r :: 0 <= r < n ==> heights[r] >= minHeight
    ensures headerHeight + Sum(heights[..n]) + minHeight >= headerHeight + (n + 1) as real * minHeight
  {
    SumAtLeast(heights[..n], minHeight);
  }

  /** The property after which `AutoAdd` starts adding columns. */
  const EditorClassIdentifier: string := "m_EditorClassIdentifier"

  /** The properties after the first `m_EditorClassIdentifier`, read from the front. */
  function AfterMarker(names: seq<string>): seq<string>
  {
    if |names| == 0 then []
    else if names[0] == EditorClassIdentifier then names[1..]
    else AfterMarker(names[1..])
  }

  /** The columns `AutoAdd` has added after walking `names`, read from the back as its loop does. */
  function Shown(names: seq<string>): seq<string>
  {
    if |names| == 0 then []
    else
      var init := names[..|names| - 1];
      Shown(init) + (if EditorClassIdentifier in init then [names[|names| - 1]] else [])
  }

  /** The loop's reading and the direct one agree: only what follows the first marker shows. */
  lemma {:induction false} ShownIsAfterMarker(names: seq<string>)
    ensures Shown(names) == AfterMarker(names)
    ensures EditorClassIdentifier !in names ==> Shown(names) == []
  {
    if |names| > 0 {
      if names[0] == EditorClassIdentifier {
        ShownAfterFirst(names);
      } else {
        ShownIsAfterMarker(names[1..]);
        ShownDropsUnmarkedHead(names);
      }
    }
  }

  /** When the first name is the marker, everything after it shows. */
  lemma {:induction false} ShownAfterFirst(names: seq<string>)
    requires |names| > 0 && names[0] == EditorClassIdentifier
    ensures Shown(names) == names[1..]
  {
    if |names| > 1 {
      var init := names[..|names| - 1];
      ShownAfterFirst(init);
      assert EditorClassIdentifier in init;
      assert init[1..] + [names[|names| - 1]] == names[1..];
    }
  }

  /** A first name that is not the marker never shows and does not start the showing. */
  lemma {:induction false} ShownDropsUnmarkedHead(names: seq<string>)
    requires |names| > 0 && names[0] != EditorClassIdentifier
    ensures Shown(names) == Shown(names[1..])
  {
    if |names| > 1 {
      var init := names[..|names| - 1];
      ShownDropsUnmarkedHead(init);
      assert names[1..][..|names[1..]| - 1] == init[1..];
      assert (EditorClassIdentifier in init) == (EditorClassIdentifier in init[1..]) by {
        if EditorClassIdentifier in init {
          var k :| 0 <= k < |init| && init[k] == EditorClassIdentifier;
          assert k > 0 && init[1..][k - 1] == EditorClassIdentifier;
        }
      }
    }
  }

  /** The columns `AddColumn(name, name)` adds for each name, in order. */
  function FieldColumns<O>(names: seq<string>, width: real): (cs: seq<ColumnData<O>>)
    ensures |cs| == |names|
    ensures forall i :: 0 <= i < |names| ==> cs[i] == ColumnData(Field(names[i]), width, names[i])
  {
    seq(|names|, i requires 0 <= i < |names| => ColumnData(Field(names[i]), width, names[i]))
  }

  /** `SerializedObjectGUITable`: the table whose rows are serialized objects. */
  class SerializedObjectGUITable<O> {
    const Table: GUITable<O>

    constructor()
      ensures fresh(Table)
      ensures Table.Rows == [] && Table.RowHeights == [] && Table.Columns == []
      ensures Table.CellWidth == 200.0 && Table.resizing == -1
    {
      Table := new GUITable<O>();
    }

    /** `AddColumn(fieldName, header)`: a column editing the named field of each object. */
    method AddColumn(fieldName: string, header: string)
      modifies Table`Columns
      ensures Table.Columns == old(Table.Columns) + [ColumnData(Field(fieldName), Table.CellWidth, header)]
    {
      Table.Columns := Table.Columns + [ColumnData(Field(fieldName), Table.CellWidth, header)];
    }

    /** `AddNameColumn(header)`: a column labelling each object with its name. */
    method AddNameColumn(header: string)
      modifies Table`Columns
      ensures Table.Columns == old(Table.Columns) + [ColumnData(NameLabel, Table.CellWidth, header)]
    {
      Table.Columns := Table.Columns + [ColumnData(NameLabel, Table.CellWidth, header)];
    }

    /**
     * `AutoAdd`: a "Name" column, then one column per property that follows
     * the first `m_EditorClassIdentifier`, headed by the property's name.
     * `names` are the names the property iterator visits, in order.
     */
    method AutoAdd(names: seq<string>)
      modifies Table`Columns
      ensures Table.Columns == old(Table.Columns) + [ColumnData(NameLabel, Table.CellWidth, "Name")] +
                               FieldColumns(AfterMarker(names), Table.CellWidth)
    {
      AddNameColumn("Name");
      ghost var start := Table.Columns;
      var display := false;
      for i := 0 to |names|
        invariant display == (EditorClassIdentifier in names[..i])
        invariant Table.Columns == start + FieldColumns(Shown(names[..i]), Table.CellWidth)
      {
        assert names[..i + 1][..i] == names[..i];
        if display {
          AddColumn(names[i], names[i]);
        }
        if names[i] == EditorClassIdentifier {
          display := true;
        }
        assert names[..i + 1][i] == names[i];
      }
      assert names[..|names|] == names;
      ShownIsAfterMarker(names);
    }
  }
}
