// TableDrawerState.cs: the geometry a TableDrawer keeps for one list between
// passes, and the editor's state cache (`GUIUtility.GetStateObject`) that
// hands out one such object per control key.
module DrawerState {
  import opened Gui
  import Layout
  import opened TableDrawerCore

  /** Padding above and below a measured cell (`Padding.top + Padding.bottom`). */
  const CellPadding: real := Padding.top + Padding.bottom

  /** The height of the grid: header row, all rows, bottom padding. */
  function TotalHeight(rows: seq<real>): real
  {
    MIN_HEIGHT + Sum(rows) + BOTTOM_PADDING
  }

  /** The row heights `CalculateRowHeights` computes for the first `rowCount` rows. */
  function MeasuredRows<E>(items: seq<E>, measure: E -> real, width: nat, rowCount: nat): seq<real>
  {
    Layout.RowHeights(items, measure, width, CellPadding, MIN_HEIGHT, rowCount)
  }

  class TableDrawerState {
    var Width: int
    var Object: Option<ObjectId>
    var Initialized: bool
    var ColumnWidths: array?<real>
    var RowHeights: array?<real>
    var Rect: Rect
    var Resizing: int

    /** A state as the cache creates it: every field at its default. */
    ghost predicate IsDefault()
      reads this
    {
      Width == 0 && Object == None && !Initialized && ColumnWidths == null &&
      RowHeights == null && Rect == ZeroRect && Resizing == 0
    }

    /**
     * What every pass relies on: an initialised state has both arrays, and
     * they are distinct objects, so writing one leaves the other alone.
     */
    ghost predicate Valid()
      reads this
    {
      (Initialized ==> ColumnWidths != null && RowHeights != null) &&
      (ColumnWidths == null || RowHeights == null || ColumnWidths != RowHeights)
    }

    constructor ()
      ensures IsDefault()
    {
      Width := 0;
      Object := None;
      Initialized := false;
      ColumnWidths := null;
      RowHeights := null;
      Rect := ZeroRect;
      Resizing := 0;
    }

    /** `GetWidth()`: the total width of the columns. */
    method GetWidth() returns (result: real)
      requires ColumnWidths != null
      ensures result == Sum(ColumnWidths[..])
    {
      result := 0.0;
      var i := 0;
      while i < ColumnWidths.Length
        invariant 0 <= i <= ColumnWidths.Length
        invariant result == Sum(ColumnWidths[..i])
      {
        SumPrefixStep(ColumnWidths[..], i);
        assert ColumnWidths[..][..i] == ColumnWidths[..i];
        assert ColumnWidths[..][..i + 1] == ColumnWidths[..i + 1];
        result := result + ColumnWidths[i];
        i := i + 1;
      }
      assert ColumnWidths[..i] == ColumnWidths[..];
    }

    /**
     * `GetHeight(list)`. Without row heights it allocates one per row of a
     * grid `Width` columns wide, measures them, and returns only the header
     * height; that needs `Width >= 1`, which nothing in the source assigns.
     * Otherwise it returns the total height. It also records the list's
     * owner in `Object` and marks the owner dirty (`dirtied`) while the state
     * is not initialised.
     */
    method GetHeight<E>(list: ListProperty<E>, measure: E -> real) returns (result: real, dirtied: bool)
      requires RowHeights != null || Width >= 1
      modifies this
      ensures Object == if old(Object).None? then Some(list.target) else old(Object)
      ensures Width == old(Width) && Initialized == old(Initialized) && Resizing == old(Resizing)
      ensures ColumnWidths == old(ColumnWidths) && Rect == old(Rect)
      ensures RowHeights != null
      ensures old(RowHeights) == null ==>
        fresh(RowHeights) && result == MIN_HEIGHT && !dirtied &&
        RowHeights[..] == MeasuredRows(list.items, measure, Width, GetRowCount(|list.items|, Width))
      ensures old(RowHeights) != null ==>
        RowHeights == old(RowHeights) && RowHeights[..] == old(RowHeights[..]) &&
        result == TotalHeight(RowHeights[..]) && dirtied == !Initialized
    {
      if Object.None? {
        Object := Some(list.target);
      }
      result := MIN_HEIGHT;
      dirtied := false;
      if RowHeights == null {
        var rowCount := GetRowCount(|list.items|, Width);
        RowHeights := new real[rowCount];
        CalculateRowHeights(Width, rowCount, list, measure);
      } else {
        var rows := RowHeights;
        var i := 0;
        while i < rows.Length
          modifies {}
          invariant 0 <= i <= rows.Length
          invariant result == MIN_HEIGHT + Sum(rows[..i])
        {
          SumPrefixStep(rows[..], i);
          assert rows[..][..i] == rows[..i];
          assert rows[..][..i + 1] == rows[..i + 1];
          result := result + rows[i];
          i := i + 1;
        }
        assert rows[..i] == rows[..];
        dirtied := !Initialized;
        result := result + BOTTOM_PADDING;
      }
    }

    /**
     * `CalculateRowHeights(width, rowCount, list)`: overwrites the first
     * `rowCount` row heights with the measured heights of a grid `width`
     * columns wide; later entries stay as they were.
     */
    method CalculateRowHeights<E>(width: int, rowCount: int, list: ListProperty<E>, measure: E -> real)
      requires RowHeights != null
      requires rowCount <= RowHeights.Length
      requires width >= 0 || rowCount <= 0
      modifies this`Object, RowHeights
      ensures Object == if old(Object).None? then Some(list.target) else old(Object)
      ensures rowCount <= 0 ==> RowHeights[..] == old(RowHeights[..])
      ensures rowCount > 0 ==>
        RowHeights[..] == MeasuredRows(list.items, measure, width, rowCount) + old(RowHeights[..])[rowCount..]
    {
      if Object.None? {
        Object := Some(list.target);
      }
      var r := 0;
      while r < rowCount
        modifies RowHeights
        invariant 0 <= r <= if rowCount > 0 then rowCount else 0
        invariant rowCount > 0 ==> width >= 0
        invariant forall i :: 0 <= i < r ==>
          RowHeights[i] == Layout.RowHeight(list.items, measure, width, CellPadding, MIN_HEIGHT, i)
        invariant forall i :: r <= i < RowHeights.Length ==> RowHeights[i] == old(RowHeights[i])
      {
        var cellHeights := Layout.MeasureCells(list.items, measure, width, CellPadding, r);
        RowHeights[r] := RMax(MIN_HEIGHT, MaxOf(cellHeights));
        r := r + 1;
      }
      if rowCount > 0 {
        assert RowHeights[..] == MeasuredRows(list.items, measure, width, rowCount) + old(RowHeights[..])[rowCount..];
      }
    }
  }

  /** `GUIUtility.GetStateObject`'s cache: one state per control id, never evicted. */
  class StateStore {
    var States: map<int, TableDrawerState>

    constructor ()
      ensures States == map[]
    {
      States := map[];
    }

    /** The state kept for `control`, created with default fields on first use. */
    method GetStateObject(control: int) returns (state: TableDrawerState)
      modifies this
      ensures control in old(States) ==> state == old(States)[control] && States == old(States)
      ensures control !in old(States) ==>
        fresh(state) && state.IsDefault() && States == old(States)[control := state]
    {
      if control in States {
        state := States[control];
      } else {
        state := new TableDrawerState();
        States := States[control := state];
      }
    }
  }
}
