/** The interleaving patterns `SceneDrawStencilInBuffer` writes into the
    stencil buffer for the stencil stereo modes
    (layer1/SceneRender.cpp:1714-1750). Each pattern is a list of one-pixel
    lines drawn with stencil value 1 over a w x h viewport; the two eyes then
    draw where the stencil is 1 and 0 respectively. */
module StencilPattern {
  import opened Device

  /** How many of 0, 2, 4, ... lie below `bound`. */
  function EvenCount(bound: int): (n: nat)
    ensures bound <= 0 ==> n == 0
    ensures bound > 0 ==> 2 * n - 2 < bound <= 2 * n
  {
    if bound <= 0 then 0 else (bound + 1) / 2
  }

  /** 2k is among the first EvenCount(bound) even numbers exactly when it is
      below `bound`. */
  lemma EvenBelow(bound: int, v: int)
    ensures (v % 2 == 0 && 0 <= v / 2 < EvenCount(bound)) <==> (v % 2 == 0 && 0 <= v < bound)
  {
  }

  /** By row: a horizontal line across the viewport on every other scanline,
      starting at `parity`. */
  function RowPattern(w: int, h: int, parity: int): seq<Line>
  {
    seq(EvenCount(h), k => Line(0, 2 * k + parity, w, 2 * k + parity))
  }

  /** By column: a vertical line up the viewport on every other column,
      starting at column 0. */
  function ColumnPattern(w: int, h: int): seq<Line>
  {
    seq(EvenCount(w), k => Line(2 * k, 0, 2 * k, h))
  }

  function Max(a: int, b: int): int { if a > b then a else b }

  /** Checkerboard: every other anti-diagonal x + y = i, for i below twice the
      larger side, so that the diagonals reach the far corner. */
  function CheckerPattern(w: int, h: int): seq<Line>
  {
    seq(EvenCount(2 * Max(h, w)), k => Line(2 * k, 0, 0, 2 * k))
  }

  /** The row loop of `SceneDrawStencilInBuffer`. */
  method RowLines(w: int, h: int, parity: int) returns (lines: seq<Line>)
    ensures lines == RowPattern(w, h, parity)
  {
    lines := [];
    var y := 0;
    while y < h
      invariant y == 2 * |lines|
      invariant h > 0 ==> y <= h + 1
      invariant h <= 0 ==> y == 0
      invariant forall k :: 0 <= k < |lines| ==> lines[k] == Line(0, 2 * k + parity, w, 2 * k + parity)
    {
      lines := lines + [Line(0, y + parity, w, y + parity)];
      y := y + 2;
    }
  }

  /** The column loop of `SceneDrawStencilInBuffer`. */
  method ColumnLines(w: int, h: int) returns (lines: seq<Line>)
    ensures lines == ColumnPattern(w, h)
  {
    lines := [];
    var x := 0;
    while x < w
      invariant x == 2 * |lines|
      invariant w > 0 ==> x <= w + 1
      invariant w <= 0 ==> x == 0
      invariant forall k :: 0 <= k < |lines| ==> lines[k] == Line(2 * k, 0, 2 * k, h)
    {
      lines := lines + [Line(x, 0, x, h)];
      x := x + 2;
    }
  }

  /** The checkerboard loop of `SceneDrawStencilInBuffer`. */
  method CheckerLines(w: int, h: int) returns (lines: seq<Line>)
    ensures lines == CheckerPattern(w, h)
  {
    var m := 2 * (if h > w then h else w);
    lines := [];
    var i := 0;
    while i < m
      invariant i == 2 * |lines|
      invariant m > 0 ==> i <= m + 1
      invariant m <= 0 ==> i == 0
      invariant forall k :: 0 <= k < |lines| ==> lines[k] == Line(2 * k, 0, 0, 2 * k)
    {
      lines := lines + [Line(i, 0, 0, i)];
      i := i + 2;
    }
  }

  /** The row pattern marks scanline y (a line from x = 0 to x = w) exactly
      when y is `parity` plus an even offset below h: every other scanline
      of the viewport. */
  lemma RowPatternMarksAlternateRows(w: int, h: int, parity: int, y: int)
    ensures Line(0, y, w, y) in RowPattern(w, h, parity) <==>
              parity <= y < h + parity && (y - parity) % 2 == 0
  {
    var p := RowPattern(w, h, parity);
    if Line(0, y, w, y) in p {
      var k :| 0 <= k < |p| && p[k] == Line(0, y, w, y);
      assert y - parity == 2 * k;
    }
    if parity <= y < h + parity && (y - parity) % 2 == 0 {
      var k := (y - parity) / 2;
      EvenBelow(h, y - parity);
      assert p[k] == Line(0, y, w, y);
    }
  }

  /** The column pattern marks column x (a line from y = 0 to y = h) exactly
      when x is even and inside the viewport. */
  lemma ColumnPatternMarksEvenColumns(w: int, h: int, x: int)
    ensures Line(x, 0, x, h) in ColumnPattern(w, h) <==> 0 <= x < w && x % 2 == 0
  {
    var p := ColumnPattern(w, h);
    if Line(x, 0, x, h) in p {
      var k :| 0 <= k < |p| && p[k] == Line(x, 0, x, h);
      assert x == 2 * k;
    }
    if 0 <= x < w && x % 2 == 0 {
      EvenBelow(w, x);
      assert p[x / 2] == Line(x, 0, x, h);
    }
  }

  /** The checkerboard pattern marks anti-diagonal x + y = i exactly when i
      is even and below twice the larger side, so every pixel of the
      viewport (whose x + y is below that bound) lies on a marked diagonal or
      between two of them. */
  lemma CheckerMarksEvenDiagonals(w: int, h: int, i: int)
    ensures Line(i, 0, 0, i) in CheckerPattern(w, h) <==>
              0 <= i < 2 * Max(h, w) && i % 2 == 0
  {
    var p := CheckerPattern(w, h);
    if Line(i, 0, 0, i) in p {
      var k :| 0 <= k < |p| && p[k] == Line(i, 0, 0, i);
      assert i == 2 * k;
    }
    if 0 <= i < 2 * Max(h, w) && i % 2 == 0 {
      EvenBelow(2 * Max(h, w), i);
      assert p[i / 2] == Line(i, 0, 0, i);
    }
  }

  /** A pixel (x, y) of the viewport lies on a diagonal the checkerboard
      pattern draws, or right next to one: x + y or x + y - 1 is marked. */
  lemma CheckerReachesEveryPixel(w: int, h: int, x: int, y: int)
    requires 0 <= x < w && 0 <= y < h
    ensures Line(x + y, 0, 0, x + y) in CheckerPattern(w, h) ||
            Line(x + y - 1, 0, 0, x + y - 1) in CheckerPattern(w, h)
  {
    CheckerMarksEvenDiagonals(w, h, x + y);
    CheckerMarksEvenDiagonals(w, h, x + y - 1);
  }
}
