// Value types of the editor GUI that the grid code computes with: points,
// rectangles with Unity's edge semantics, input events, and the float helpers
// (sum, two-argument and array maximum) the layout code applies to them.
// Widths and heights are `real`: they are only added, compared and maxed.
module Gui {

  /** A point in GUI space (`Vector2`). */
  datatype Vec2 = Vec2(x: real, y: real)

  /** A rectangle given by its corner and size (`Rect`). */
  datatype Rect = Rect(x: real, y: real, width: real, height: real)
  {
    function XMax(): real { x + width }
    function YMax(): real { y + height }
    function Min(): Vec2 { Vec2(x, y) }

    /** `Rect.Contains(Vector2)`: half-open on the far edges. */
    predicate Contains(p: Vec2)
    {
      x <= p.x < x + width && y <= p.y < y + height
    }

    /** Assigning `Rect.min` moves the top-left corner and keeps the bottom-right one. */
    function WithMin(p: Vec2): (r: Rect)
      ensures r.Min() == p
      ensures r.XMax() == XMax() && r.YMax() == YMax()
    {
      Rect(p.x, p.y, x + width - p.x, y + height - p.y)
    }
  }

  const ZeroRect := Rect(0.0, 0.0, 0.0, 0.0)

  /** `RectOffset`: insets on each side of a rectangle. */
  datatype RectOffset = RectOffset(left: real, right: real, top: real, bottom: real)

  datatype Option<T> = None | Some(value: T)

  /** The kinds of `Event.current` the grid reacts to; `Used` is what `Event.Use()` leaves behind. */
  datatype EventType = MouseDown | MouseUp | MouseDrag | Used | OtherEvent

  /** One input event: its kind, the mouse button and the pointer position. */
  datatype Event = Event(kind: EventType, button: int, mouse: Vec2)
  {
    /** `Event.Use()`: the event is consumed and no later check sees its old kind. */
    function Use(): Event { this.(kind := Used) }
  }

  /** Identity of a serialized object (`SerializedObject`), opaque to the grid. */
  type ObjectId = nat

  /** `Mathf.Max(a, b)`. */
  function RMax(a: real, b: real): (r: real)
    ensures r >= a && r >= b
    ensures r == a || r == b
  {
    if a > b then a else b
  }

  function Abs(v: real): real
  {
    if v < 0.0 then -v else v
  }

  /** Left-to-right sum, the value a `result += s[i]` loop accumulates. */
  function Sum(s: seq<real>): real
  {
    if |s| == 0 then 0.0 else Sum(s[..|s| - 1]) + s[|s| - 1]
  }

  /**
   * `Mathf.Max(params float[])`: 0 for an empty array, otherwise the first
   * element replaced by every later element that is strictly greater.
   */
  function MaxOf(s: seq<real>): (m: real)
    ensures |s| == 0 ==> m == 0.0
    ensures |s| > 0 ==> exists i :: 0 <= i < |s| && m == s[i]
    ensures forall i :: 0 <= i < |s| ==> s[i] <= m
  {
    if |s| == 0 then 0.0
    else if |s| == 1 then s[0]
    else
      var m := MaxOf(s[..|s| - 1]);
      assert forall i :: 0 <= i < |s| - 1 ==> s[..|s| - 1][i] == s[i];
      if s[|s| - 1] > m then s[|s| - 1] else m
  }

  /** A fresh `float[n]` filled with `v`. */
  function Repeat(v: real, n: nat): (r: seq<real>)
    ensures |r| == n
    ensures forall i :: 0 <= i < n ==> r[i] == v
  {
    seq(n, _ => v)
  }

  predicate AllAtLeast(s: seq<real>, floor: real)
  {
    forall i :: 0 <= i < |s| ==> s[i] >= floor
  }

  /** Summing one more element of a prefix. */
  lemma SumPrefixStep(s: seq<real>, i: nat)
    requires i < |s|
    ensures Sum(s[..i + 1]) == Sum(s[..i]) + s[i]
  {
    assert s[..i + 1][..i] == s[..i];
  }

  /** Overwriting one element changes the sum by the difference. */
  lemma {:induction false} SumUpdate(s: seq<real>, i: nat, v: real)
    requires i < |s|
    ensures Sum(s[i := v]) == Sum(s) - s[i] + v
  {
    var t := s[i := v];
    if i == |s| - 1 {
      assert t[..|t| - 1] == s[..|s| - 1];
    } else {
      assert t[..|t| - 1] == s[..|s| - 1][i := v];
      SumUpdate(s[..|s| - 1], i, v);
    }
  }

  /** `n` equal widths add up to `n` times the width. */
  lemma {:induction false} SumRepeat(v: real, n: nat)
    ensures Sum(Repeat(v, n)) == n as real * v
  {
    if n > 0 {
      assert Repeat(v, n)[..n - 1] == Repeat(v, n - 1);
      SumRepeat(v, n - 1);
    }
  }

  /** A sequence of entries that are all at least `floor` sums to at least `|s| * floor`. */
  lemma {:induction false} SumAtLeast(s: seq<real>, floor: real)
    requires AllAtLeast(s, floor)
    ensures Sum(s) >= |s| as real * floor
  {
    if |s| > 0 {
      SumAtLeast(s[..|s| - 1], floor);
    }
  }
}
