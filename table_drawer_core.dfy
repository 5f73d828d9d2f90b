// The parts of TableDrawer.cs that only compute: its constants, the row
// count, the child count of a property, what each cell of the grid shows,
// and the list edits its context menu and "+" cell perform.
module TableDrawerCore {
  import opened Gui
  import opened Grid
  import opened Layout

  const Padding := RectOffset(2.0, 2.0, 2.0, 2.0)
  const MIN_WIDTH: real := 100.0
  const MIN_HEIGHT: real := 20.0
  const BOTTOM_PADDING: real := 10.0

  /**
   * The serialized list being drawn (`SerializedProperty` of an array): the
   * object that owns it and its elements. The grid never owns the elements.
   */
  datatype ListProperty<E> = ListProperty(target: ObjectId, items: seq<E>)
  {
    function ArraySize(): nat { |items| }
  }

  /**
   * `GetRowCount(totalLength, width)`. For a list and a positive width it is
   * one more than the number of full rows: the cell after the last element
   * (the "+" cell) always lies inside the grid, and the last row is never
   * entirely past it.
   */
  function GetRowCount(totalLength: int, width: int): (n: int)
    requires width != 0
    ensures totalLength >= 0 && width >= 1 ==>
      n == totalLength / width + 1 && n >= 1 &&
      totalLength < n * width && (n - 1) * width <= totalLength
  {
    RowCountBounds(totalLength, width);
    CsDiv(totalLength, width) + 1
  }

  lemma RowCountBounds(totalLength: int, width: int)
    requires width != 0
    ensures totalLength >= 0 && width >= 1 ==>
      var q := CsDiv(totalLength, width);
      q * width <= totalLength < (q + 1) * width
  {
    if totalLength >= 0 && width >= 1 {
      var q := CsDiv(totalLength, width);
      assert q * width + totalLength % width == totalLength;
      assert (q + 1) * width == q * width + width;
    }
  }

  /**
   * `GetChildCount`, over the depths `visited` of the properties that
   * `NextVisible` steps to from the given property: the first by entering
   * its children, the rest as siblings, until `NextVisible` returns false.
   * It is 0 when there is no next property or it is not a child; otherwise
   * the length of the leading run of direct children.
   */
  method GetChildCount(rootDepth: int, visited: seq<int>) returns (count: nat)
    ensures count <= |visited|
    ensures count == 0 <==> |visited| == 0 || visited[0] <= rootDepth
    ensures forall j :: 1 <= j < count ==> visited[j] == rootDepth + 1
    ensures 0 < count < |visited| ==> visited[count] != rootDepth + 1
  {
    if |visited| == 0 {
      return 0;
    }
    if visited[0] <= rootDepth {
      return 0;
    }
    count := 1;
    var i := 1;
    while i < |visited|
      invariant 1 <= i <= |visited| && count == i
      invariant forall j :: 1 <= j < i ==> visited[j] == rootDepth + 1
    {
      if visited[i] == rootDepth + 1 {
        count := count + 1;
      } else {
        break;
      }
      i := i + 1;
    }
  }

  /** `IsContextClick(rect)`: a right-button press inside `rect`. */
  predicate IsContextClick(ev: Event, rect: Rect)
  {
    ev.kind == MouseDown && ev.button == 1 && rect.Contains(ev.mouse)
  }

  /**
   * Two cells side by side on one row, the right starting where the left
   * ends, split a context click between them: no event clicks both, and an
   * event clicks one of them exactly when it clicks the rectangle they
   * cover together.
   */
  lemma AdjacentContextClicks(ev: Event, left: Rect, right: Rect)
    requires left.y == right.y && left.height == right.height
    requires left.XMax() == right.x && left.width >= 0.0 && right.width >= 0.0
    ensures !(IsContextClick(ev, left) && IsContextClick(ev, right))
    ensures IsContextClick(ev, left) || IsContextClick(ev, right) <==>
      IsContextClick(ev, Rect(left.x, left.y, left.width + right.width, left.height))
  {
  }

  /** What one cell of the grid shows. */
  datatype CellKind = ElementCell(index: int) | AddCell | EmptyCell

  /** The branch `Draw` takes for the cell at linear `index` of a list of `listSize` elements. */
  function Classify(index: int, listSize: int): CellKind
  {
    if index < listSize then ElementCell(index)
    else if index == listSize then AddCell
    else EmptyCell
  }

  /**
   * Over the grid's `GetRowCount(n, width) * width` cells, cells 0..n-1 show
   * their elements, exactly one cell (at index n) is the "+" cell, and every
   * later cell is empty.
   */
  lemma CellsOfGrid(n: nat, width: int)
    requires width >= 1
    ensures var cells := GetRowCount(n, width) * width;
      n < cells &&
      (forall k :: 0 <= k < n ==> Classify(k, n) == ElementCell(k)) &&
      (forall k :: 0 <= k < cells ==> (Classify(k, n) == AddCell <==> k == n)) &&
      (forall k :: n < k < cells ==> Classify(k, n) == EmptyCell)
  {
  }

  /**
   * `DeleteArrayElementAtIndex(i)`: removes exactly element `i`; later
   * elements move down by one. An index outside the list is rejected and
   * the list is left as it was.
   */
  function DeleteAt<E>(s: seq<E>, i: int): (r: Option<seq<E>>)
    ensures r.Some? <==> 0 <= i < |s|
    ensures r.Some? ==> |r.value| == |s| - 1
    ensures r.Some? ==> forall j :: 0 <= j < i ==> r.value[j] == s[j]
    ensures r.Some? ==> forall j :: i <= j < |r.value| ==> r.value[j] == s[j + 1]
  {
    if 0 <= i < |s| then Some(s[..i] + s[i + 1..]) else None
  }

  /**
   * `InsertArrayElementAtIndex(i)`: inside the list, a copy of element `i`
   * is inserted at `i` (the "Duplicate" menu item), so the original moves to
   * `i + 1`; at the end of the list, `added` is appended (the "+" cell). Any
   * other index is rejected and the list is left as it was.
   */
  function InsertAt<E>(s: seq<E>, i: int, added: E): (r: Option<seq<E>>)
    ensures r.Some? <==> 0 <= i <= |s|
    ensures r.Some? ==> |r.value| == |s| + 1
    ensures r.Some? ==> forall j :: 0 <= j < i ==> r.value[j] == s[j]
    ensures r.Some? ==> forall j :: i < j < |r.value| ==> r.value[j] == s[j - 1]
    ensures r.Some? && i < |s| ==> r.value[i] == s[i]
    ensures r.Some? && i == |s| ==> r.value == s + [added]
  {
    if 0 <= i < |s| then Some(s[..i] + [s[i]] + s[i..])
    else if i == |s| then Some(s + [added])
    else None
  }

  /** Deleting what was just inserted at the same index restores the list. */
  lemma DeleteUndoesInsert<E>(s: seq<E>, i: int, added: E)
    requires 0 <= i <= |s|
    ensures InsertAt(s, i, added).Some?
    ensures DeleteAt(InsertAt(s, i, added).value, i) == Some(s)
  {
    var t := InsertAt(s, i, added).value;
    var d := DeleteAt(t, i).value;
    assert |d| == |s|;
    forall j | 0 <= j < |s| ensures d[j] == s[j] {
      if j >= i {
        assert d[j] == t[j + 1];
      }
    }
    assert d == s;
  }

  /** The grab areas of `HandleResize`: 50 units wide on the column being resized, 6 otherwise. */
  function ResizeZone(position: Rect): HitZone
  {
    HitZone(position.x, position.y, position.height - BOTTOM_PADDING, 50.0, 6.0)
  }
}
