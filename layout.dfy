// Layout logic that TableDrawer.cs, GUITable.cs and Array2DDrawer.cs each
// write out inline: growing or trimming a per-row/per-column array at its
// tail, the column-resize state machine driven by mouse events, and the
// height of a row as the tallest of its measured cells.
module Layout {
  import opened Gui
  import opened Grid

  /**
   * The array `SetupState` leaves after appending `fill` while it is shorter
   * than `n` and removing the last entry while it is longer: entries below
   * the new length keep their position and value.
   */
  function Resized(s: seq<real>, n: nat, fill: real): (r: seq<real>)
    ensures |r| == n
    ensures forall i :: 0 <= i < n && i < |s| ==> r[i] == s[i]
    ensures forall i :: |s| <= i < n ==> r[i] == fill
  {
    if |s| < n then s + Repeat(fill, n - |s|) else s[..n]
  }

  /**
   * `Mathf.Max(floor, w - (x - target))`: the width of a column whose right
   * boundary `x` is dragged to `target`, never below `floor`.
   */
  function ResizedWidth(floor: real, w: real, x: real, target: real): (r: real)
    ensures r >= floor
    ensures w - (x - target) >= floor ==> r == w - (x - target)
    ensures w - (x - target) < floor ==> r == floor
  {
    RMax(floor, w - (x - target))
  }

  /**
   * Where a grid puts the grab areas on its column boundaries: the first
   * boundary's left edge `x0`, the areas' top and height, and their width
   * while the column is being resized (`wide`) and otherwise (`narrow`).
   */
  datatype HitZone = HitZone(x0: real, top: real, height: real, wide: real, narrow: real)

  /** The right boundary of column `c`: `x` after the loop has added widths 0..c. */
  function Boundary(widths: seq<real>, x0: real, c: nat): real
    requires c < |widths|
  {
    x0 + Sum(widths[..c + 1])
  }

  /** The grab area of column `c` while `resizing` is the column being resized. */
  function DragArea(zone: HitZone, widths: seq<real>, c: nat, resizing: int): Rect
    requires c < |widths|
  {
    var x := Boundary(widths, zone.x0, c);
    var d := if resizing == c then zone.wide else zone.narrow;
    Rect(x - d / 2.0, zone.top, d, zone.height)
  }

  /** During the column walk, column `c`'s grab area (sized by the target chosen so far) holds the pointer. */
  predicate HitAt(widths: seq<real>, zone: HitZone, mouse: Vec2, resizing: int, c: nat)
    requires c < |widths|
    decreases c, 1
  {
    DragArea(zone, widths, c, PressTarget(widths, zone, mouse, resizing, c)).Contains(mouse)
  }

  /**
   * The column being resized after a MouseDown has been tested against the
   * grab areas of columns 0..k-1 in order: the last column whose area holds
   * the pointer, or the previous value when none does.
   */
  function PressTarget(widths: seq<real>, zone: HitZone, mouse: Vec2, resizing: int, k: nat): (r: int)
    requires k <= |widths|
    ensures r == resizing || 0 <= r < k
    decreases k, 0
  {
    if k == 0 then resizing
    else
      var prev := PressTarget(widths, zone, mouse, resizing, k - 1);
      if DragArea(zone, widths, k - 1, prev).Contains(mouse) then k - 1 else prev
  }

  /**
   * `PressTarget` is the last column whose grab area held the pointer during
   * the walk, or the previous value when none did.
   */
  lemma {:induction false} PressTargetIsLastHit(widths: seq<real>, zone: HitZone, mouse: Vec2, resizing: int, k: nat)
    requires k <= |widths|
    ensures var r := PressTarget(widths, zone, mouse, resizing, k);
      r == resizing || (0 <= r < k && HitAt(widths, zone, mouse, resizing, r))
    ensures forall c :: 0 <= c < k && HitAt(widths, zone, mouse, resizing, c) ==>
      c <= PressTarget(widths, zone, mouse, resizing, k) < k
    ensures AnyHit(widths, zone, mouse, resizing, k) ==>
      var r := PressTarget(widths, zone, mouse, resizing, k);
      0 <= r < k && HitAt(widths, zone, mouse, resizing, r)
  {
    if k > 0 {
      PressTargetIsLastHit(widths, zone, mouse, resizing, k - 1);
      var prev := PressTarget(widths, zone, mouse, resizing, k - 1);
      assert HitAt(widths, zone, mouse, resizing, k - 1) == DragArea(zone, widths, k - 1, prev).Contains(mouse);
    }
  }

  /** Whether any of the grab areas of columns 0..k-1 held the pointer during the walk. */
  predicate AnyHit(widths: seq<real>, zone: HitZone, mouse: Vec2, resizing: int, k: nat)
    requires k <= |widths|
  {
    k > 0 && (AnyHit(widths, zone, mouse, resizing, k - 1) || HitAt(widths, zone, mouse, resizing, k - 1))
  }

  /** `AnyHit` is the existential it names; without a hit the resize target is unchanged. */
  lemma {:induction false} AnyHitMeans(widths: seq<real>, zone: HitZone, mouse: Vec2, resizing: int, k: nat)
    requires k <= |widths|
    ensures AnyHit(widths, zone, mouse, resizing, k) <==> exists c :: 0 <= c < k && HitAt(widths, zone, mouse, resizing, c)
    ensures !AnyHit(widths, zone, mouse, resizing, k) ==> PressTarget(widths, zone, mouse, resizing, k) == resizing
  {
    if k > 0 {
      AnyHitMeans(widths, zone, mouse, resizing, k - 1);
      assert AnyHit(widths, zone, mouse, resizing, k) ==
        (AnyHit(widths, zone, mouse, resizing, k - 1) || HitAt(widths, zone, mouse, resizing, k - 1));
      if HitAt(widths, zone, mouse, resizing, k - 1) {
        var j: nat := k - 1;
        assert 0 <= j < k && HitAt(widths, zone, mouse, resizing, j);
        assert exists c :: 0 <= c < k && HitAt(widths, zone, mouse, resizing, c);
        assert AnyHit(widths, zone, mouse, resizing, k);
      } else {
        assert forall c :: 0 <= c < k && HitAt(widths, zone, mouse, resizing, c) ==> c < k - 1;
      }
    }
  }

  /** Column widths, the column being resized (-1: none), and whether the event was consumed. */
  datatype ResizeOutcome = ResizeOutcome(widths: seq<real>, resizing: int, used: bool)

  /**
   * One event through the resize state machine. MouseUp always ends a
   * resize; MouseDown picks the column by `PressTarget`; MouseDrag moves the
   * right boundary of the column being resized to the pointer, floored at
   * `floor`, and consumes the event; nothing else changes anything.
   */
  function ResizeStep(widths: seq<real>, resizing: int, zone: HitZone, floor: real, ev: Event): (o: ResizeOutcome)
    ensures |o.widths| == |widths|
    ensures ev.kind == MouseUp ==> o.resizing == -1
    ensures ev.kind != MouseDown && ev.kind != MouseUp ==> o.resizing == resizing
    ensures forall i :: 0 <= i < |widths| && (i != resizing || ev.kind != MouseDrag) ==> o.widths[i] == widths[i]
    ensures o.used <==> ev.kind == MouseDrag && 0 <= resizing < |widths|
    ensures o.used ==> o.widths[resizing] >= floor
    ensures -1 <= resizing < |widths| ==> -1 <= o.resizing < |widths|
  {
    match ev.kind
    case MouseUp => ResizeOutcome(widths, -1, false)
    case MouseDown => ResizeOutcome(widths, PressTarget(widths, zone, ev.mouse, resizing, |widths|), false)
    case MouseDrag =>
      if 0 <= resizing < |widths| then
        var w := ResizedWidth(floor, widths[resizing], Boundary(widths, zone.x0, resizing), ev.mouse.x);
        ResizeOutcome(widths[resizing := w], resizing, true)
      else ResizeOutcome(widths, resizing, false)
    case _ => ResizeOutcome(widths, resizing, false)
  }

  /**
   * The total width (`GetWidth`) after one event: a drag changes it by
   * exactly the change of the resized column, and every other event keeps it.
   */
  lemma DragChangesTotalWidth(widths: seq<real>, resizing: int, zone: HitZone, floor: real, ev: Event)
    ensures var o := ResizeStep(widths, resizing, zone, floor, ev);
      Sum(o.widths) == Sum(widths) + (if o.used then o.widths[resizing] - widths[resizing] else 0.0)
  {
    var o := ResizeStep(widths, resizing, zone, floor, ev);
    if o.used {
      assert o.widths == widths[resizing := o.widths[resizing]];
      SumUpdate(widths, resizing, o.widths[resizing]);
    } else {
      assert o.widths == widths;
    }
  }

  /**
   * The loop that `Draw` runs over the column boundaries of a header: it
   * adds each width to a running `x`, on MouseDown moves the column being
   * resized to the column whose grab area holds the pointer, and on
   * MouseDrag moves the right boundary of the column being resized to the
   * pointer and consumes the event. A MouseUp has already ended the resize
   * before the loop. It performs one `ResizeStep` and ends at the right
   * edge of the widths it walked.
   */
  method WalkBoundaries(w0: seq<real>, resizing: int, zone: HitZone, floor: real, ev: Event)
    returns (widths: seq<real>, target: int, x: real, e: Event)
    ensures var o := ResizeStep(w0, resizing, zone, floor, ev);
      widths == o.widths && target == o.resizing && e == (if o.used then ev.Use() else ev)
    ensures x == zone.x0 + Sum(w0)
  {
    widths, target := w0, resizing;
    if ev.kind == MouseUp {
      target := -1;
    }
    ghost var r1 := target;
    ghost var dragged := ev.kind == MouseDrag && 0 <= r1 < |w0|;
    ghost var newWidth := if dragged then ResizedWidth(floor, w0[r1], Boundary(w0, zone.x0, r1), ev.mouse.x) else 0.0;
    e := ev;
    x := zone.x0;
    for c := 0 to |w0|
      invariant |widths| == |w0|
      invariant x == zone.x0 + Sum(w0[..c])
      invariant ev.kind == MouseDown ==> target == PressTarget(w0, zone, ev.mouse, resizing, c)
      invariant ev.kind != MouseDown ==> target == r1
      invariant widths == if dragged && r1 < c then w0[r1 := newWidth] else w0
      invariant e == if dragged && r1 < c then ev.Use() else ev
    {
      SumPrefixStep(w0, c);
      x := x + widths[c];
      var d := if target == c then zone.wide else zone.narrow;
      var dragArea := Rect(x - d / 2.0, zone.top, d, zone.height);
      if ev.kind == MouseDown {
        assert dragArea == DragArea(zone, w0, c, target);
      }
      if e.kind == MouseDown && dragArea.Contains(e.mouse) {
        target := c;
      }
      if target == c && e.kind == MouseDrag {
        var pointer := e.mouse.x;
        widths := widths[c := RMax(floor, widths[c] - (x - pointer))];
        e := e.Use();
      }
    }
    assert w0[..|w0|] == w0;
  }

  /** A sequence of events fed one pass at a time through `ResizeStep`. */
  function Replay(widths: seq<real>, resizing: int, zone: HitZone, floor: real, events: seq<Event>): ResizeOutcome
    decreases |events|
  {
    if |events| == 0 then ResizeOutcome(widths, resizing, false)
    else
      var o := ResizeStep(widths, resizing, zone, floor, events[0]);
      Replay(o.widths, o.resizing, zone, floor, events[1..])
  }

  /**
   * However the pointer is dragged, no column ever gets narrower than the
   * floor, the column count stays, and the resize cursor stays a column or -1.
   */
  lemma {:induction false} ReplayKeepsFloor(widths: seq<real>, resizing: int, zone: HitZone, floor: real, events: seq<Event>)
    requires AllAtLeast(widths, floor)
    requires -1 <= resizing < |widths|
    ensures var o := Replay(widths, resizing, zone, floor, events);
      |o.widths| == |widths| && AllAtLeast(o.widths, floor) && -1 <= o.resizing < |widths|
    decreases |events|
  {
    if |events| > 0 {
      var o := ResizeStep(widths, resizing, zone, floor, events[0]);
      ReplayKeepsFloor(o.widths, o.resizing, zone, floor, events[1..]);
    }
  }

  /**
   * The height one cell asks for in row `r`: the measured height of its
   * element plus `pad` when its linear index is inside the list, else 0.
   */
  function CellHeight<E>(items: seq<E>, measure: E -> real, width: nat, pad: real, r: nat, c: nat): real
  {
    var i := GetIndex(c, r, width);
    if i < |items| then measure(items[i]) + pad else 0.0
  }

  /** The `cellHeights` array of row `r`. */
  function CellHeights<E>(items: seq<E>, measure: E -> real, width: nat, pad: real, r: nat): (hs: seq<real>)
    ensures |hs| == width
    ensures forall c :: 0 <= c < width ==> hs[c] == CellHeight(items, measure, width, pad, r, c)
  {
    seq(width, c requires 0 <= c => CellHeight(items, measure, width, pad, r, c))
  }

  /**
   * The inner loop of the row-height computation: a fresh `cellHeights`
   * array of `width` zeros, where each cell inside the list gets its
   * element's measured height plus `pad`.
   */
  method MeasureCells<E>(items: seq<E>, measure: E -> real, width: nat, pad: real, r: nat) returns (hs: seq<real>)
    ensures hs == CellHeights(items, measure, width, pad, r)
  {
    var cellHeights := new real[width](_ => 0.0);
    for c := 0 to width
      invariant forall j :: 0 <= j < c ==> cellHeights[j] == CellHeight(items, measure, width, pad, r, j)
      invariant forall j :: c <= j < width ==> cellHeights[j] == 0.0
    {
      var index := GetIndex(c, r, width);
      if index < |items| {
        cellHeights[c] := measure(items[index]) + pad;
      }
    }
    hs := cellHeights[..];
  }

  /**
   * `Mathf.Max(minHeight, Mathf.Max(cellHeights))`: at least `minHeight`,
   * at least every cell of the row, and one of those values (an empty row
   * of cells has maximum 0).
   */
  function RowHeight<E>(items: seq<E>, measure: E -> real, width: nat, pad: real, minHeight: real, r: nat): (h: real)
    ensures h >= minHeight
    ensures forall c :: 0 <= c < width ==> h >= CellHeight(items, measure, width, pad, r, c)
    ensures width > 0 ==> h == minHeight || exists c :: 0 <= c < width && h == CellHeight(items, measure, width, pad, r, c)
    ensures width == 0 ==> h == RMax(minHeight, 0.0)
  {
    var hs := CellHeights(items, measure, width, pad, r);
    RMax(minHeight, MaxOf(hs))
  }

  /** The heights of rows 0..rowCount-1. */
  function RowHeights<E>(items: seq<E>, measure: E -> real, width: nat, pad: real, minHeight: real, rowCount: nat): (hs: seq<real>)
    ensures |hs| == rowCount
    ensures forall r :: 0 <= r < rowCount ==> hs[r] == RowHeight(items, measure, width, pad, minHeight, r)
    ensures AllAtLeast(hs, minHeight)
  {
    seq(rowCount, r requires 0 <= r => RowHeight(items, measure, width, pad, minHeight, r))
  }
}
