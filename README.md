# GUITable grid bookkeeping in Dafny

This project models the bookkeeping behind the GUITable Unity editor grid.
The grid shows a flat serialized list as a table with a fixed number of
columns. After the last element it adds one "+" cell for appending. Columns
can be resized by dragging their right boundary, and rows grow to fit the
tallest cell. The model covers three revisions of that grid and the index
arithmetic beneath them:

- `Grid` (`Assets/Code/Array2D.cs`): the `Array2D<T>` class, with its
  `Width` field, its `List` and the conversions between a linear index and an
  `(X, Y)` address. C#'s truncating `/` and `%` are written out.
- `Layout`: logic that all three grids write out inline. This covers
  growing or trimming an array at its tail, the column-resize state machine,
  and the height of a row as the largest measured cell.
- `TableDrawerCore`: the pure parts of `Assets/Code/Editor/TableDrawer.cs`.
  These are its constants, `GetRowCount`, `GetChildCount`, what each cell
  shows, and the list edits made by the context menu and the "+" cell.
- `DrawerState` (`Assets/Code/Editor/TableDrawerState.cs`): the class
  `TableDrawerState`, whose arrays are `array?<real>`. It also holds the
  editor's per-control state cache.
- `TableDrawer`: the stateful passes of `Assets/Code/Editor/TableDrawer.cs`,
  namely `SetupState`, `HandleResize`, `DrawAddCell`, `Draw` and `GetState`.
- `GuiTable` (`Assets/Code/Editor/GUITable.cs`): the class `GUITable<T>`
  and `SerializedObjectGUITable`.
- `EarlierTableDrawer` (`Assets/Code/Editor/Array2DDrawer.cs`): the earlier
  grid, whose state is a struct passed in and returned by value. It is a
  separate module because that file declares a second
  `Assets.Code.Editor.TableDrawer`.
- `Gui`: the Unity value types the code uses. These are `Rect`, `Vector2`,
  `RectOffset`, `Event` and its type, plus sums and maxima over `real`.

Widths and heights are `float` in the source and `real` here. They are only
compared, added and maximised. The measured height of an element
(`EditorGUI.GetPropertyHeight`, or a column's draw callback) is a function
parameter. `Event.current` is an input value, and `Event.Use()` shows up in
the event a pass returns. "Mark dirty" and "repaint" are returned booleans.
A "+" button click is an input boolean.

## Model

| member | source | states |
|---|---|---|
| Grid.AddressOf | Assets/Code/Array2D.cs:40-43 | The address of index `i` maps back to `i` under `GetIndex` for every `i` and non-zero width, using C#'s truncating quotient and remainder. For `i >= 0` and a positive width, the column is in `[0, width)` and the row is non-negative. |
| Grid.DivRemIdentity | Assets/Code/Array2D.cs:42 | C#'s `a / b` and `a % b` rebuild `a` for every combination of signs. |
| Grid.RowMajorDivMod | Assets/Code/Array2D.cs:42-55 | For `0 <= x < width` and `y >= 0`, `(y*width + x) / width == y` and `(y*width + x) % width == x`. |
| Grid.AddressOfIndex | Assets/Code/Array2D.cs:34-43 | Every cell inside the grid maps to its index and back to the same `Address(x, y)`. |
| Grid.ClampWidth | Assets/Code/Array2D.cs:47 | `Mathf.Max(w, 1)` is at least 1 and at least `w`, and it is one of the two. |
| Grid.Array2D.constructor | Assets/Code/Array2D.cs:32-62 | The grid holds the given width and list. |
| Grid.Array2D.Index | Assets/Code/Array2D.cs:34-37 | The instance `GetIndex(x, y)` is the static index at the current `Width`, and for a cell inside the grid its address is `(x, y)`. |
| Grid.Array2D.Get | Assets/Code/Array2D.cs:66 | `this[i]` reads an element of the list. With a non-zero width, it is the element `this[x, y]` reads at the address `GetAddress(i)`, so the two indexers agree. |
| Grid.Array2D.GetAt | Assets/Code/Array2D.cs:72 | `this[x, y]` reads an element of the list. Inside the grid, that element sits at the linear index whose address is `(x, y)`. |
| Grid.Array2D.GetAddress | Assets/Code/Array2D.cs:40-43 | The instance index of the returned address is `i`. For `i >= 0` and `Width > 0`, the address lies in the grid. `Width == 0` is excluded, as C# would divide by zero. |
| Grid.Array2D.OnBeforeSerialize | Assets/Code/Array2D.cs:45-48 | `Width` becomes `ClampWidth(old Width)`, so it is at least 1 afterwards. A width already at least 1 is unchanged, so a second call changes nothing. |
| Grid.Array2D.Set | Assets/Code/Array2D.cs:64-68 | After the setter of `this[i]`, the element at `i` is the value, the length is unchanged and every other element is unchanged. |
| Grid.Array2D.SetAt | Assets/Code/Array2D.cs:70-74 | After the setter of `this[x, y]`, the element at `GetIndex(x, y)` is the value, the length is unchanged and every other element is unchanged. |
| Layout.Resized | Assets/Code/Editor/TableDrawer.cs:76-86 | After growing or trimming an array to `n`, entries below both lengths keep their position and value, new tail entries are `fill`, and the length is `n`. |
| Layout.ResizedWidth | Assets/Code/Editor/TableDrawer.cs:126-127 | The dragged column's new width is `w - (x - target)` when that is at least the floor, and the floor otherwise. |
| Layout.PressTarget | Assets/Code/Editor/TableDrawer.cs:100-114 | After a MouseDown walk over columns `0..k-1`, the column being resized is either the previous value or one of those columns. |
| Layout.PressTargetIsLastHit | Assets/Code/Editor/TableDrawer.cs:100-114 | When some grab area held the pointer, the column picked by a MouseDown is one of the columns and is the last whose grab area held it. That area is sized by the value chosen so far. With no such column, the previous value stays. |
| Layout.AnyHitMeans | Assets/Code/Editor/TableDrawer.cs:110-114 | Some grab area held the pointer during the walk exactly when some column `c < k` is a hit. Without a hit, the column being resized is unchanged. |
| Layout.ResizeStep | Assets/Code/Editor/TableDrawer.cs:93-129 | One event through the resize state machine. MouseUp ends the resize. MouseDown picks `PressTarget`. MouseDrag on a valid column changes only that column's width, never below the floor, and consumes the event. No other event changes anything, and the column count is kept. |
| Layout.DragChangesTotalWidth | Assets/Code/Editor/TableDrawer.cs:124-129 | After one event, the total width (`GetWidth`) changes by exactly the change of the resized column on a drag, and not at all for any other event. |
| Layout.WalkBoundaries | Assets/Code/Editor/GUITable.cs:122-142 | The boundary loop of a header performs exactly one `ResizeStep`: its widths, resize column and consumed event are that step's, and it ends at `x0 + sum(widths)`. `GUITable` and the earlier grid both run it, from `Assets/Code/Editor/Array2DDrawer.cs:82-109`. |
| Layout.ReplayKeepsFloor | Assets/Code/Editor/TableDrawer.cs:124-129 | Over any sequence of events, the column count is kept, no width drops below the floor, and the column being resized stays a column or -1. |
| Layout.MeasureCells | Assets/Code/Editor/TableDrawerState.cs:67-78 | The inner loop fills a fresh array of zeros with exactly `CellHeights`: each cell inside the list gets its measured height plus the padding. |
| Layout.RowHeight | Assets/Code/Editor/TableDrawerState.cs:79-80 | A row's height is at least the minimum and at least every cell's height. It equals the minimum or one of the cells. |
| Layout.RowHeights | Assets/Code/Editor/TableDrawerState.cs:64-82 | There is one `RowHeight` per row, and every one is at least the minimum. |
| TableDrawerCore.GetRowCount | Assets/Code/Editor/TableDrawer.cs:28-31 | For a list and a positive width, the result is `n / w + 1` and at least 1. The grid has more cells than the list (`n < rows * w`), so the "+" cell at index `n` exists. The last row does not lie entirely past the list. |
| TableDrawerCore.RowCountBounds | Assets/Code/Editor/TableDrawer.cs:30 | The truncated quotient `q` places `n` in `[q*w, (q+1)*w)`. |
| TableDrawerCore.GetChildCount | Assets/Code/Editor/TableDrawer.cs:34-52 | Over the depths the property iterator visits, the count is 0 exactly when there is no next property or it is not a child. Otherwise it is the length of the leading run of direct children, stopping at the first property that is not one. |
| TableDrawerCore.CellsOfGrid | Assets/Code/Editor/TableDrawer.cs:248-259 | Over the grid's cells, cells below the list size show their element. Exactly one cell, at index `listSize`, is the "+" cell. Every later cell is empty. |
| TableDrawerCore.AdjacentContextClicks | Assets/Code/Editor/TableDrawer.cs:167-172 | A context click is a right-button MouseDown inside the half-open `Rect.Contains`. So two cells on one row, the right starting where the left ends, are never both clicked by one event. An event clicks one of them exactly when it clicks the rectangle they cover together. |
| TableDrawerCore.DeleteAt | Assets/Code/Editor/TableDrawer.cs:150-155 | "Delete" removes exactly element `i`, and later elements move down one place. An index outside the list is rejected. |
| TableDrawerCore.InsertAt | Assets/Code/Editor/TableDrawer.cs:157-203 | "Duplicate" inserts a copy of element `i` at `i`, and later elements move up one place. At `arraySize`, the added element is appended. Any other index is rejected. |
| TableDrawerCore.DeleteUndoesInsert | Assets/Code/Editor/TableDrawer.cs:150-162 | Deleting at the index just inserted at restores the list. |
| DrawerState.TableDrawerState.constructor | Assets/Code/Editor/TableDrawerState.cs:14-22 | A state as the cache creates it has every field at its default. |
| DrawerState.TableDrawerState.GetWidth | Assets/Code/Editor/TableDrawerState.cs:24-30 | The result is the sum of `ColumnWidths`. |
| DrawerState.TableDrawerState.GetHeight | Assets/Code/Editor/TableDrawerState.cs:32-57 | `Object` is recorded if missing. Without row heights, it allocates `GetRowCount(arraySize, Width)` fresh heights, measures them and returns `MIN_HEIGHT` only. Otherwise it returns `MIN_HEIGHT + sum(RowHeights) + BOTTOM_PADDING` and reports "dirty" exactly while the state is not initialised. Nothing else changes. |
| DrawerState.TableDrawerState.CalculateRowHeights | Assets/Code/Editor/TableDrawerState.cs:59-83 | The first `rowCount` heights become the measured `RowHeights`, and later entries are unchanged. It needs `rowCount <= RowHeights.Length`. |
| DrawerState.StateStore.GetStateObject | Assets/Code/Editor/TableDrawer.cs:25 | A known control gets back its state and the cache is unchanged. A new control gets a fresh default state, which is added under that key. |
| TableDrawer.GrowOrTrim | Assets/Code/Editor/TableDrawer.cs:76-86 | The two `while` loops leave the array's contents `Resized(old, n, fill)`, in the same array or a fresh one. |
| TableDrawer.ArrayAdd | Assets/Code/Editor/TableDrawer.cs:77 | `ArrayUtility.Add` gives a fresh array with the value appended. |
| TableDrawer.ArrayRemoveLast | Assets/Code/Editor/TableDrawer.cs:80 | `ArrayUtility.RemoveAt(last)` gives a fresh array without the last entry. |
| TableDrawer.ResetState | Assets/Code/Editor/TableDrawer.cs:59-71 | A reset gives fresh, distinct arrays. Every width is `MIN_WIDTH` and every height is `MIN_HEIGHT`. `Resizing` is -1 and `Rect` is 500 wide and as tall as the total width. |
| TableDrawer.SetupState | Assets/Code/Editor/TableDrawer.cs:54-89 | The state ends initialised, with `width` widths and `GetRowCount` heights. It resets (and marks dirty) exactly when it was uninitialised or the column count changed. Otherwise the entries are kept and only grown or trimmed at the tail. `Rect.min` is set to `position.min` on both paths. |
| TableDrawer.SetupSettles | Assets/Code/Editor/TableDrawer.cs:54-89 | A second `SetupState` with the same width and row count does not reset and changes no width or height. |
| TableDrawer.HandleResize | Assets/Code/Editor/TableDrawer.cs:91-131 | The first `width` widths and `Resizing` are the `ResizeStep` outcome with grab areas 50 wide on the column being resized and 6 otherwise, and a floor of `MIN_WIDTH`. Later widths are unchanged. The event is consumed exactly when a drag resized a column. "Dirty" is set exactly on a MouseUp ending a resize or a MouseDown inside some grab area. |
| TableDrawer.DrawAddCell | Assets/Code/Editor/TableDrawer.cs:195-211 | A click appends the new element at `arraySize` and marks dirty. No click changes nothing. |
| TableDrawer.ContextClicksAreHits | Assets/Code/Editor/TableDrawer.cs:241-242 | Every index whose context menu opens belongs to a cell whose rectangle is right-clicked. |
| TableDrawer.ContextClicksAtMostOne | Assets/Code/Editor/TableDrawer.cs:231-263 | With non-negative widths and heights, one event opens at most one context menu during the cell walk. |
| TableDrawer.DrawRow | Assets/Code/Editor/TableDrawer.cs:234-261 | One row of the cell walk classifies its cells and opens the context menus of the right-clicked cells. It appends at most once, when the "+" cell is in this row, and leaves the state's fields unchanged. |
| TableDrawer.DrawCells | Assets/Code/Editor/TableDrawer.cs:231-263 | The cell walk visits `rowCount * width` cells and classifies each by `Classify(k, listSize)`. It opens the context menus of the right-clicked cells in walk order and appends once if "+" was clicked. |
| TableDrawer.SetupPass | Assets/Code/Editor/TableDrawer.cs:215-223 | After measuring the height, `SetupState` and `HandleResize`, the widths and resize column are `ResizeStep` of the settled state. There is one row height per row, and "dirty" combines the three steps. |
| TableDrawer.BeginPass | Assets/Code/Editor/TableDrawer.cs:215-225 | The height is measured first. After `SetupState`, `HandleResize` and `CalculateRowHeights`, the widths and resize column are `ResizeStep` of the settled state, and the row heights are the measured ones. "Dirty" combines the three steps. |
| TableDrawer.HeightChanged | Assets/Code/Editor/TableDrawer.cs:265 | The height counts as changed exactly when the new height is more than 0.1 above or below the old one. |
| TableDrawer.Draw | Assets/Code/Editor/TableDrawer.cs:213-270 | One full pass gives the resized widths, the measured row heights and `Rect` from `SetupState`. It returns the classified cells and the context menus opened, with rows starting below the header at the old `Rect`'s top. "Repaint" is set exactly when the total height moved by more than 0.1. The "dirty" flag combines reset, append, repaint, resize and an uninitialised first measure. |
| TableDrawer.GetState | Assets/Code/Editor/TableDrawer.cs:22-26 | The state is the cache entry under the hash of `owner + "_" + propertyPath`, created with defaults on first use. |
| TableDrawer.ControlNamesCollide | Assets/Code/Editor/TableDrawer.cs:24 | The control name does not separate its parts: owner `a_b` with path `c` and owner `a` with path `b_c` share one state. |
| GuiTable.DrawCell | Assets/Code/Editor/GUITable.cs:38-70 | A name column reports 16. A field column reports the field's height plus 8. A custom column reports what its callback returns. |
| GuiTable.WithWidths | Assets/Code/Editor/GUITable.cs:139 | Writing new widths into the columns changes nothing else: the widths are the new ones, and every column keeps its callback and header. |
| GuiTable.FittedHeight | Assets/Code/Editor/GUITable.cs:168 | A row's next height is at least `MinHeight` and at least every cell's reported height. It equals one of them, or 0 when there are no columns. |
| GuiTable.GUITable.constructor | Assets/Code/Editor/GUITable.cs:85-113 | Empty rows, heights and columns. `MinWidth` 40, `MinHeight` 20, `CellWidth` 200, `CellHeight` 100, `HeaderHeight` 20, and no resize. |
| GuiTable.GUITable.AddRow | Assets/Code/Editor/GUITable.cs:102-106 | The row and `CellHeight` are appended together, so equal counts stay equal. |
| GuiTable.GUITable.AddColumn | Assets/Code/Editor/GUITable.cs:108-111 | One custom column, `CellWidth` wide with the given header, is appended. Earlier columns are unchanged. |
| GuiTable.GUITable.DrawHeader | Assets/Code/Editor/GUITable.cs:119-142 | The widths and resize column are `ResizeStep` over grab areas 4 wide and floor `MinWidth`. The header ends at the sum of the old widths, and only widths change. |
| GuiTable.GUITable.DrawRow | Assets/Code/Editor/GUITable.cs:147-168 | One row is laid out over all columns, and its next height is `FittedHeight` at its old height. |
| GuiTable.GUITable.DrawRows | Assets/Code/Editor/GUITable.cs:145-169 | Each row's height becomes `FittedHeight` of its old height. `y` advances by the old heights, tail heights are unchanged, and `x` is the row width, or 0 with no rows. |
| GuiTable.GUITable.Draw | Assets/Code/Editor/GUITable.cs:117-180 | The widths and resize column are the `ResizeStep` outcome, and every row height is refitted. The returned rect is `(0, 0, width, HeaderHeight + sum of old row heights + MinHeight)`. The width is the sum of the old widths with no rows and of the resized widths otherwise. The add callback runs exactly when "+" is clicked. |
| GuiTable.ExtentHeightAtLeast | Assets/Code/Editor/GUITable.cs:172-179 | When every row is at least `MinHeight`, the returned extent is at least a header plus `n + 1` minimum rows tall. |
| GuiTable.ShownIsAfterMarker | Assets/Code/Editor/GUITable.cs:27-33 | The `display` loop adds exactly the names after the first `m_EditorClassIdentifier`, in order, and adds nothing when there is no marker. |
| GuiTable.ShownAfterFirst | Assets/Code/Editor/GUITable.cs:27-33 | A marker at the front shows every later name. |
| GuiTable.ShownDropsUnmarkedHead | Assets/Code/Editor/GUITable.cs:27-33 | A first name other than the marker is never shown. |
| GuiTable.SerializedObjectGUITable.constructor | Assets/Code/Editor/GUITable.cs:19 | A new table with no rows, heights or columns. |
| GuiTable.SerializedObjectGUITable.AddColumn | Assets/Code/Editor/GUITable.cs:38-56 | One field column for the named field, `CellWidth` wide with the given header, is appended. |
| GuiTable.SerializedObjectGUITable.AddNameColumn | Assets/Code/Editor/GUITable.cs:58-70 | One name column, `CellWidth` wide with the given header, is appended. |
| GuiTable.SerializedObjectGUITable.AutoAdd | Assets/Code/Editor/GUITable.cs:21-35 | A "Name" column comes first, then one field column per property strictly after the first `m_EditorClassIdentifier`, in iteration order. |
| EarlierTableDrawer.GetWidth | Assets/Code/Editor/Array2DDrawer.cs:47-53 | `TableState.GetWidth` is the sum of `ColumnWidths`. |
| EarlierTableDrawer.Initialized | Assets/Code/Editor/Array2DDrawer.cs:66-78 | On (re)initialisation, triggered by a fresh struct or a changed column count, the widths are exactly `width` copies of `MIN_WIDTH` and the heights exactly `GetRowCount(arraySize, width)` copies of `MIN_HEIGHT`. `Resizing` is -1, and `Rect` is `(0, 0, 500, GetWidth())`, which is `width * MIN_WIDTH` tall. Otherwise the struct is unchanged. |
| EarlierTableDrawer.Initialize | Assets/Code/Editor/Array2DDrawer.cs:66-78 | The loops build exactly `Initialized`. |
| EarlierTableDrawer.ResizeColumns | Assets/Code/Editor/Array2DDrawer.cs:82-110 | The widths and resize column are the `ResizeStep` outcome over grab areas 4 wide from the struct's rectangle with floor `MIN_WIDTH`. The event is consumed exactly on a resizing drag. |
| EarlierTableDrawer.MeasureRows | Assets/Code/Editor/Array2DDrawer.cs:112-129 | The first `rowCount` heights become the row maxima of the unpadded element heights, at least `MIN_HEIGHT`. Later heights are unchanged. |
| EarlierTableDrawer.Upto | Assets/Code/Editor/Array2DDrawer.cs:131-167 | The indices `0..n-1` in order. |
| EarlierTableDrawer.WalkCells | Assets/Code/Editor/Array2DDrawer.cs:131-167 | The cell walk draws the elements of the list in index order, as many as the grid has cells. |
| EarlierTableDrawer.Draw | Assets/Code/Editor/Array2DDrawer.cs:64-179 | The struct and event returned are `AfterDraw`: the struct is initialised. It holds the resized widths, the measured heights over the kept tail, `Rect.min` set to `position.min` and the new resize column. Every element is drawn once, in order. |
| EarlierTableDrawer.GrowingListOutrunsRowHeights | Assets/Code/Editor/Array2DDrawer.cs:66-128 | `Draw` over two elements in three columns, from a fresh struct, returns a struct with one row height that does not reinitialise at three columns. Three elements need two rows, so `Draw` on the grown list fails its precondition, where the source's row loop indexes past `RowHeights`. |

## Left out

- Grid.Array2D.Get: requires an index inside `List`. C#'s `List<T>` indexer throws `ArgumentOutOfRangeException` otherwise, and exceptions are not modelled.
- Grid.Array2D.Set: requires an index inside `List`, for the same reason as `Get`.
- Grid.Array2D.GetAt: requires `GetIndex(x, y)` inside `List`, for the same reason as `Get`.
- Grid.Array2D.SetAt: requires `GetIndex(x, y)` inside `List`, for the same reason as `Get`.
- Grid.AddressOf: requires a non-zero width, because `GetAddress` divides by `Width` and C# throws `DivideByZeroException` at 0.
- Grid.Array2D.GetAddress: requires `Width != 0`, for the same reason as `Grid.AddressOf`.
- TableDrawerCore.GetRowCount: requires a non-zero width, because C# throws `DivideByZeroException` at width 0. Negative widths are modelled with truncating division.
- TableDrawerCore.CellsOfGrid: states the partition of cells only for `width >= 1`. The serialized `Width` is at least 1 whenever `Array2D.OnBeforeSerialize` has run, and width 0 throws in `GetRowCount`.
- TableDrawer.SetupState: requires `width >= 1`. Width 0 throws `DivideByZeroException` in `GetRowCount`, and a negative width makes `new float[width]` throw. Neither exception is modelled; the serialized width is clamped to at least 1 by `OnBeforeSerialize`.
- TableDrawer.SetupPass: requires `width >= 1`, for the same reason as `SetupState`. It also requires `RowHeights` non-null or `Width >= 1` on entry, because `GetHeight` divides by the state's `Width` when `RowHeights` is null. `GetStateObject` creates states with `Width` 0 and null `RowHeights`, and no shown file assigns `Width`, so in the source the first pass on a fresh state throws `DivideByZeroException` before `RowHeights` is allocated, and so does every later pass. The model describes only passes over states whose `Width` or `RowHeights` was set outside the shown code.
- TableDrawer.BeginPass: requires `width >= 1`, for the same reason as `SetupState`. It also requires `RowHeights` non-null or `Width >= 1` on entry, because `GetHeight` divides by the state's `Width` when `RowHeights` is null. `GetStateObject` creates states with `Width` 0 and null `RowHeights`, and no shown file assigns `Width`, so in the source the first pass on a fresh state throws `DivideByZeroException` before `RowHeights` is allocated, and so does every later pass. The model describes only passes over states whose `Width` or `RowHeights` was set outside the shown code.
- TableDrawer.Draw: requires `width >= 1`, for the same reason as `SetupState`. It also requires `RowHeights` non-null or `Width >= 1` on entry, because `GetHeight` divides by the state's `Width` when `RowHeights` is null. `GetStateObject` creates states with `Width` 0 and null `RowHeights`, and no shown file assigns `Width`, so in the source the first pass on a fresh state throws `DivideByZeroException` before `RowHeights` is allocated, and so does every later pass. The model describes only passes over states whose `Width` or `RowHeights` was set outside the shown code.
- TableDrawer.HandleResize: requires `width <= ColumnWidths.Length`, which `SetupState` establishes just before. A larger width would throw `IndexOutOfRangeException`.
- TableDrawer.DrawAddCell: requires non-null `RowHeights`, which `Draw` establishes before any cell is drawn. With null heights, the source would allocate them in that call's null branch, which only `GetHeight` models.
- TableDrawer.DrawRow: requires the arrays sized to the grid and `Object` set, as `Draw` leaves them after `BeginPass`.
- TableDrawer.DrawCells: requires the arrays sized to the grid and `Object` set, as `Draw` leaves them after `BeginPass`.
- EarlierTableDrawer.Initialized: requires `width >= 1`. Width 0 throws `DivideByZeroException` in `GetRowCount`, a negative width makes `new float[width]` throw, and exceptions are not modelled.
- EarlierTableDrawer.Initialize: requires `width >= 1`, for the same reason as `Initialized`.
- EarlierTableDrawer.ResizeColumns: requires `width == ColumnWidths.Length`, which the initialisation step establishes just before.
- EarlierTableDrawer.MeasureRows: requires `width >= 1`, for the same reason as `Initialized`. It also requires `rowCount <= RowHeights.Length`, the row overrun that `Draw` admits.
- EarlierTableDrawer.WalkCells: requires `width >= 1`, for the same reason as `Initialized`.
- Unity drawing is cosmetic and not modelled. This covers `GUI.Box`, `EditorGUI.PropertyField`, cursor rectangles, label-width tweaks, row banding and the header boxes. `TableDrawer.DrawCell` (`Assets/Code/Editor/TableDrawer.cs:174-193`) only draws, including its jump into a single child.
- `EditorGUI.GetPropertyHeight`, `GUIStyle.CalcHeight` and the column callbacks are foreign code. They are function parameters (`measure`, `fieldHeight`), and the element that `InsertArrayElementAtIndex` appends is a parameter (`added`).
- `ApplyModifiedProperties`, `EditorUtility.SetDirty`, `EditorApplication.delayCall` and `RepaintAllViews` are host side effects, returned as "dirty" and "repaint" booleans.
- `GenericMenu` callbacks run after the pass. The pass returns the indices whose menu opens, and the "Delete" and "Duplicate" items are the sequence edits `DeleteAt` and `InsertAt`. Rejecting an index outside the list is an assumption about `SerializedProperty`.
- `GUIUtility.GetStateObject` is a map from control id to state. `string.GetHashCode` is a parameter, so hash collisions are modelled only through equal names (`ControlNamesCollide`).
- `float` is modelled as `real`, so rounding is not modelled. The 32-bit overflow of C# `int` is not modelled either.
- GuiTable.GUITable.DrawRows: requires `Valid()`, that is `|Rows| <= |RowHeights|`. `Rows` and `RowHeights` are public lists, and the row loop reads and writes `RowHeights[r]` for every `r < Rows.Count`. A caller that appends to `Rows` without `AddRow` gets an `ArgumentOutOfRangeException`, and exceptions are not modelled.
- GuiTable.GUITable.Draw: requires `Valid()`, for the same reason as `GuiTable.GUITable.DrawRows`.
- `GuiTable.GUITable.Draw`: `ColumnData` is a class in the source and a value here, so aliasing between columns is not modelled. The `AddCallback == null` case is not modelled; `addInvoked` reports only the click.
- `GuiTable.SerializedObjectGUITable.AutoAdd`: the property iterator is the list of names it visits. The list must start with the property that `Next(true)` steps to, because the `do`/`while` reads that property without testing.
- `GuiTable.FittedHeight`: `Mathf.Max` of an empty array is taken to be 0, so a table with no columns is allowed rather than required to have at least one.
- `SerializedObjectGUITable` inherits from `GUITable<SerializedObject>` in the source and holds one as `Table` here.
- `EarlierTableDrawer.Draw`: the struct's arrays are sequence values, and its cell walk models only which elements are drawn and in what order. Its precondition requires `GetRowCount(arraySize, width) <= RowHeights.Length` on passes that do not reinitialise, because the source indexes past `RowHeights` otherwise (`GrowingListOutrunsRowHeights`). It also requires `width >= 1`, for the same reason as `EarlierTableDrawer.Initialized`.
- `DrawerState.TableDrawerState.GetHeight`: requires `Width >= 1` when `RowHeights` is null, because it divides by `Width`, which no shown file assigns. A negative `Width` is not modelled.
- The earlier `GetRowCount` (`Assets/Code/Editor/Array2DDrawer.cs:59-62`) is the same expression as `TableDrawer.GetRowCount`, so both revisions use `TableDrawerCore.GetRowCount`.
- The reset `Rect` in both revisions is 500 wide and as tall as the total column width, as written.
- The demo windows (`TestWindow.cs`, `TestSOWindow.cs`) and the data declarations (`Array2DTest.cs`, `TestData.cs`) have no grid logic and are not part of this model.
