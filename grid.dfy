// Array2D.cs: a flat list seen as a grid of `Width` columns. Linear index and
// (x, y) address are converted with C#'s `int` operators, whose `/` truncates
// toward zero and whose `%` takes the sign of the dividend; both are written
// out here because Dafny's own operators are Euclidean.
module Grid {

  /** `Array2D.Address`: a column `X` and a row `Y`. */
  datatype Address = Address(X: int, Y: int)

  function IntAbs(a: int): nat
  {
    if a < 0 then -a else a
  }

  /** C# `a / b` on `int`: the quotient rounded toward zero. */
  function CsDiv(a: int, b: int): (q: int)
    requires b != 0
    ensures a >= 0 && b > 0 ==> q == a / b
  {
    var q0 := IntAbs(a) / IntAbs(b);
    if (a < 0) == (b < 0) then q0 else -q0
  }

  /** C# `a % b` on `int`: the remainder, with the sign of `a`. */
  function CsRem(a: int, b: int): (r: int)
    requires b != 0
    ensures IntAbs(r) < IntAbs(b)
    ensures a >= 0 ==> r >= 0
    ensures a <= 0 ==> r <= 0
    ensures a >= 0 && b > 0 ==> r == a % b
  {
    var r0 := IntAbs(a) % IntAbs(b);
    if a < 0 then -r0 else r0
  }

  /** C#'s quotient and remainder rebuild the dividend, for every sign. */
  lemma DivRemIdentity(a: int, b: int)
    requires b != 0
    ensures CsDiv(a, b) * b + CsRem(a, b) == a
  {
    var A: int, B: int := IntAbs(a), IntAbs(b);
    var q0: int, r0: int := A / B, A % B;
    var P := q0 * B;
    assert P + r0 == A;
    var d, r := CsDiv(a, b), CsRem(a, b);
    NegateFactor(q0, B);
    if (a < 0) == (b < 0) {
      assert d == q0;
      assert d * b == (if b < 0 then q0 * (-B) else q0 * B);
    } else {
      assert d == -q0;
      assert d * b == (if b < 0 then (-q0) * (-B) else (-q0) * B);
    }
    assert d * b == (if a < 0 then -P else P);
    assert r == (if a < 0 then -r0 else r0);
  }

  /** Negating either factor negates the product. */
  lemma NegateFactor(q: int, m: int)
    ensures q * (-m) == -(q * m) && (-q) * m == -(q * m) && (-q) * (-m) == q * m
  {
  }

  /** The static `Array2D.GetIndex(x, y, width)`: row-major linear index. */
  function GetIndex(x: int, y: int, width: int): int
  {
    y * width + x
  }

  /**
   * The address `GetAddress` computes for index `i` in rows of `width`;
   * the index of that address is `i` again, for every `i` and every
   * non-zero width.
   */
  function AddressOf(i: int, width: int): (a: Address)
    requires width != 0
    ensures GetIndex(a.X, a.Y, width) == i
    ensures i >= 0 && width > 0 ==> 0 <= a.X < width && 0 <= a.Y
  {
    DivRemIdentity(i, width);
    Address(CsRem(i, width), CsDiv(i, width))
  }

  /** A positive multiple of a positive width is at least that width. */
  lemma MultipleAtLeast(d: int, w: int)
    requires d >= 1 && w > 0
    ensures d * w >= w
  {
    assert d * w == (d - 1) * w + w;
    assert (d - 1) * w >= 0;
  }

  /** Quotient and remainder of a row-major index on non-negative inputs. */
  lemma RowMajorDivMod(x: int, y: int, width: int)
    requires 0 <= x < width && 0 <= y
    ensures (y * width + x) / width == y && (y * width + x) % width == x
  {
    var i := y * width + x;
    var q, r := i / width, i % width;
    assert q * width + r == y * width + x;
    assert (q - y) * width == x - r by {
      assert (q - y) * width == q * width - y * width;
    }
    if q > y {
      MultipleAtLeast(q - y, width);
    } else if q < y {
      MultipleAtLeast(y - q, width);
    }
  }

  /** Every cell of the grid maps to its index and back to the same address. */
  lemma AddressOfIndex(x: int, y: int, width: int)
    requires 0 <= x < width && 0 <= y
    ensures AddressOf(GetIndex(x, y, width), width) == Address(x, y)
  {
    RowMajorDivMod(x, y, width);
  }

  /** `OnBeforeSerialize`'s `Mathf.Max(Width, 1)`. */
  function ClampWidth(w: int): (r: int)
    ensures r >= 1 && r >= w
    ensures r == w || r == 1
  {
    if w > 1 then w else 1
  }

  /**
   * `Array2D<T>`: the `Width` of the base class `Array2D` and the `List`
   * of its generic subclass, in one class.
   */
  class Array2D<T> {
    var Width: int
    var List: seq<T>

    constructor (width: int, list: seq<T>)
      ensures Width == width && List == list
    {
      Width := width;
      List := list;
    }

    /** The instance `GetIndex(x, y)`: the static one at the current `Width`. */
    function Index(x: int, y: int): (i: int)
      reads this
      ensures 0 <= x < Width && 0 <= y ==> AddressOf(i, Width) == Address(x, y)
    {
      if 0 <= x < Width && 0 <= y then
        AddressOfIndex(x, y, Width);
        GetIndex(x, y, Width)
      else
        GetIndex(x, y, Width)
    }

    /** `GetAddress(i)`; a zero `Width` is C#'s division by zero. */
    function GetAddress(i: int): (a: Address)
      reads this
      requires Width != 0
      ensures Index(a.X, a.Y) == i
      ensures i >= 0 && Width > 0 ==> 0 <= a.X < Width && 0 <= a.Y
    {
      AddressOf(i, Width)
    }

    /** Serialization clamps the width to at least one column. */
    method OnBeforeSerialize()
      modifies this`Width
      ensures Width == ClampWidth(old(Width))
      ensures old(Width) >= 1 ==> Width == old(Width)
    {
      Width := ClampWidth(Width);
    }

    /** The getter of `this[i]`: an element of the list, the one `this[x, y]` reads at the address of `i`. */
    function Get(i: int): (r: T)
      reads this
      requires 0 <= i < |List|
      ensures r in List
      ensures Width != 0 ==> var a := GetAddress(i); 0 <= Index(a.X, a.Y) < |List| && r == GetAt(a.X, a.Y)
    {
      List[i]
    }

    /** The setter of `this[i]`. */
    method Set(i: int, value: T)
      requires 0 <= i < |List|
      modifies this`List
      ensures |List| == |old(List)|
      ensures Get(i) == value
      ensures forall j :: 0 <= j < |List| && j != i ==> List[j] == old(List)[j]
    {
      List := List[i := value];
    }

    /** The getter of `this[x, y]`: inside the grid, the element whose address is `(x, y)`. */
    function GetAt(x: int, y: int): (r: T)
      reads this
      requires 0 <= Index(x, y) < |List|
      ensures r in List
      ensures 0 <= x < Width && 0 <= y ==> GetAddress(Index(x, y)) == Address(x, y) && r == List[Index(x, y)]
    {
      List[Index(x, y)]
    }

    /** The setter of `this[x, y]`: only the element at `Index(x, y)` changes. */
    method SetAt(x: int, y: int, value: T)
      requires 0 <= Index(x, y) < |List|
      modifies this`List
      ensures |List| == |old(List)|
      ensures GetAt(x, y) == value
      ensures forall j :: 0 <= j < |List| && j != Index(x, y) ==> List[j] == old(List)[j]
    {
      List := List[Index(x, y) := value];
    }
  }
}
