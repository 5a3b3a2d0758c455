/** Integer rectangles and the C++ integer arithmetic the scene code relies on. */
module Geometry {

  datatype Option<T> = None | Some(value: T)

  /** A pixel position (`Offset2D`): x to the right, y upwards (OpenGL window coordinates). */
  datatype Offset = Offset(x: int, y: int)

  /** A pixel size (`Extent2D`). */
  datatype Extent = Extent(width: int, height: int)

  /** A viewport rectangle (`Rect2D`): lower-left corner and size. */
  datatype Rect = Rect(offset: Offset, extent: Extent)
  {
    function Left(): int { offset.x }
    function Right(): int { offset.x + extent.width }
    function Bottom(): int { offset.y }
    function Top(): int { offset.y + extent.height }

    /** Pixel (px, py) lies in the half-open rectangle. */
    predicate Contains(px: int, py: int)
    {
      Left() <= px < Right() && Bottom() <= py < Top()
    }

    /** Every pixel of `this` is a pixel of `outer`. */
    predicate Inside(outer: Rect)
    {
      outer.Left() <= Left() && Right() <= outer.Right() &&
      outer.Bottom() <= Bottom() && Top() <= outer.Top()
    }
  }

  function MakeRect(x: int, y: int, w: int, h: int): Rect
  {
    Rect(Offset(x, y), Extent(w, h))
  }

  /** Integer division as C and C++ define it for a positive divisor: the
      quotient is truncated toward zero, so the remainder has the sign of the
      dividend (Dafny's own `/` rounds toward minus infinity instead). */
  function CDiv(a: int, b: int): int
    requires b > 0
  {
    if a >= 0 then a / b else -((-a) / b)
  }

  /** The C remainder that goes with `CDiv`. */
  function CMod(a: int, b: int): int
    requires b > 0
  {
    a - CDiv(a, b) * b
  }

  /** The C pair: quotient times divisor plus remainder gives back the
      dividend, the remainder has the dividend's sign and is smaller than the
      divisor in magnitude. */
  lemma CDivMod(a: int, b: int)
    requires b > 0
    ensures a == CDiv(a, b) * b + CMod(a, b)
    ensures 0 <= a ==> 0 <= CMod(a, b) < b
    ensures a < 0 ==> -b < CMod(a, b) <= 0
  {
  }

  /** On a non-negative dividend the C operators agree with Dafny's. */
  lemma CDivNonNegative(a: int, b: int)
    requires a >= 0 && b > 0
    ensures CDiv(a, b) == a / b && CMod(a, b) == a % b
  {
  }

  /** On a negative dividend C truncates toward zero where Dafny rounds down:
      the quotients differ by one exactly when the division is inexact. */
  lemma CDivNegative(a: int, b: int)
    requires a < 0 && b > 0
    ensures CDiv(a, b) == (if a % b == 0 then a / b else a / b + 1)
  {
    var q, r := (-a) / b, (-a) % b;
    if r == 0 {
      DivModOf(a, b, -q, 0);
    } else {
      DivModOf(a, b, -q - 1, b - r);
    }
  }

  /* Multiplication and division facts, stated once so that proofs elsewhere
     stay linear. */

  lemma MulAtLeast(d: int, n: int)
    requires d >= 1 && n > 0
    ensures d * n >= n
  {
    assert d * n == (d - 1) * n + n;
  }

  lemma MulMono(i: int, j: int, t: int)
    requires 0 <= i <= j && t >= 0
    ensures 0 <= i * t <= j * t
  {
    assert j * t == i * t + (j - i) * t;
  }

  lemma DivMono(a: int, b: int, n: int)
    requires 0 <= a <= b && n > 0
    ensures a / n <= b / n
  {
    var qa, qb := a / n, b / n;
    if qa > qb {
      MulAtLeast(qa - qb, n);
      assert false;
    }
  }

  lemma DivModBounds(a: int, n: int)
    requires n > 0
    ensures a == (a / n) * n + a % n && 0 <= a % n < n
  {
  }

  lemma DivNonNegative(a: int, n: int)
    requires a >= 0 && n > 0
    ensures a / n >= 0 && 0 <= a % n < n
  {
  }

  /** Quotient and remainder are unique. */
  lemma DivModOf(a: int, n: int, q: int, r: int)
    requires n > 0 && 0 <= r < n && a == q * n + r
    ensures a / n == q && a % n == r
  {
    var q' := a / n;
    if q' > q {
      MulAtLeast(q' - q, n);
      assert false;
    } else if q' < q {
      MulAtLeast(q - q', n);
      assert false;
    }
  }

  /** Concatenation is associative. */
  lemma AppendAssoc<T>(a: seq<T>, b: seq<T>, c: seq<T>)
    ensures a + b + c == a + (b + c)
  {
  }
}
