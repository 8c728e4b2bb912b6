/** The escape-time engine of the renderer (rs/src/lib.rs): the bounded
    iteration z := z * z + c, the colour given to its result, and the flat
    RGBA buffer built row by row over the pixel grid. */
module Engine {
  import opened Color

  /** MAX_ITERS: the iteration cap, and the value reported for interior points. */
  const MaxIters: nat := 100

  datatype Complex = Complex(re: real, im: real)

  function Add(a: Complex, b: Complex): Complex {
    Complex(a.re + b.re, a.im + b.im)
  }

  function Mul(a: Complex, b: Complex): Complex {
    Complex(a.re * b.re - a.im * b.im, a.re * b.im + a.im * b.re)
  }

  /** The squared modulus; `|z| <= 2` is `NormSq(z) <= 4` with no square root. */
  function NormSq(z: Complex): real {
    z.re * z.re + z.im * z.im
  }

  const Zero := Complex(0.0, 0.0)

  /** The k-th point of the orbit of 0 under z := z * z + c. */
  function Orbit(c: Complex, k: nat): Complex {
    if k == 0 then Zero else Add(Mul(Orbit(c, k - 1), Orbit(c, k - 1)), c)
  }

  /** The loop test `z.norm() <= 2.0` at the k-th point of the orbit. */
  predicate InDiscAt(c: Complex, k: nat) {
    NormSq(Orbit(c, k)) <= 4.0
  }

  // ---------------------------------------------------------------------
  // calc_mb_iters

  /** The counter value at which the loop of calc_mb_iters stops, searching
      from step k on: the first step at or after k whose point has left the
      disc of radius 2, or MaxIters if there is none before the cap. */
  function StopFrom(c: Complex, k: nat): (n: nat)
    requires k <= MaxIters
    ensures k <= n <= MaxIters
    ensures forall i :: k <= i < n ==> InDiscAt(c, i)
    ensures n < MaxIters ==> !InDiscAt(c, n)
    decreases MaxIters - k
  {
    if k == MaxIters || !InDiscAt(c, k) then k else StopFrom(c, k + 1)
  }

  /** The counter value n on exit from the loop of calc_mb_iters. */
  function EscapeCount(c: Complex): (n: nat)
    ensures n <= MaxIters
    ensures forall i :: 0 <= i < n ==> InDiscAt(c, i)
    ensures n < MaxIters ==> !InDiscAt(c, n)
  {
    StopFrom(c, 0)
  }

  /** The result of calc_mb_iters. `smooth(q)` stands for
      `log10(log2(|z|))` at a point z with `NormSq(z) == q`, which the
      model does not compute. */
  function Iters(c: Complex, smooth: real -> real): real {
    var n := EscapeCount(c);
    if n == MaxIters then MaxIters as real
    else n as real + 1.0 - smooth(NormSq(Orbit(c, n)))
  }

  /** calc_mb_iters: iterate from 0 while |z| <= 2 and fewer than MaxIters
      steps have been taken. The counter is the number of steps taken, so
      the loop body runs at most MaxIters times; `passes` counts its runs. */
  method CalcMbIters(c: Complex, smooth: real -> real) returns (iters: real, ghost passes: nat)
    ensures iters == Iters(c, smooth)
    ensures passes == EscapeCount(c) <= MaxIters
  {
    var z := Zero;
    var n: nat := 0;
    passes := 0;
    while NormSq(z) <= 4.0 && n < MaxIters
      invariant n <= MaxIters && passes == n
      invariant z == Orbit(c, n)
      invariant StopFrom(c, n) == EscapeCount(c)
      decreases MaxIters - n
    {
      z := Add(Mul(z, z), c);
      n := n + 1;
      passes := passes + 1;
    }
    if n == MaxIters {
      return MaxIters as real, passes;
    }
    iters := n as real + 1.0 - smooth(NormSq(z));
  }

  /** The stopping point is determined by its defining properties: any n
      from k on, before which every point is in the disc and at which the
      point is outside it or the cap is reached, is the stopping point. */
  lemma {:induction false} StopFromIs(c: Complex, k: nat, n: nat)
    requires k <= n <= MaxIters
    requires forall i :: k <= i < n ==> InDiscAt(c, i)
    requires n < MaxIters ==> !InDiscAt(c, n)
    ensures StopFrom(c, k) == n
    decreases n - k
  {
    if k < n {
      assert InDiscAt(c, k);
      StopFromIs(c, k + 1, n);
    }
  }

  /** The exit count, likewise. */
  lemma EscapeCountIs(c: Complex, n: nat)
    requires n <= MaxIters
    requires forall i :: 0 <= i < n ==> InDiscAt(c, i)
    requires n < MaxIters ==> !InDiscAt(c, n)
    ensures EscapeCount(c) == n
  {
    StopFromIs(c, 0, n);
  }

  /** The orbit of c = 0 stays at 0. */
  lemma {:induction false} OrbitOfZero(k: nat)
    ensures Orbit(Zero, k) == Zero
  {
    if k > 0 {
      OrbitOfZero(k - 1);
    }
  }

  /** For c = 0 the loop runs to the cap and the result is 100. */
  lemma ZeroIsInterior(smooth: real -> real)
    ensures EscapeCount(Zero) == MaxIters
    ensures Iters(Zero, smooth) == 100.0
  {
    forall i | 0 <= i < MaxIters
      ensures InDiscAt(Zero, i)
    {
      OrbitOfZero(i);
    }
    EscapeCountIs(Zero, MaxIters);
  }

  /** For c = 2 the first step gives 2, which passes `|z| <= 2`, and the
      second gives 6, which does not. */
  lemma OrbitOfTwo(c: Complex)
    requires c.re == 2.0 && c.im == 0.0
    ensures Orbit(c, 0) == Zero && Orbit(c, 1) == c
    ensures Orbit(c, 2).re == 6.0 && Orbit(c, 2).im == 0.0
  {
    var z1 := Orbit(c, 1);
    FirstStep(c);
    assert Orbit(c, 2) == Add(Mul(z1, z1), c);
  }

  /** A step that leaves the disc ends the loop there. */
  lemma StopsHere(c: Complex, k: nat)
    requires k <= MaxIters && !InDiscAt(c, k)
    ensures StopFrom(c, k) == k
  {}

  /** A step that stays in the disc below the cap lets the loop go on. */
  lemma PassesOn(c: Complex, k: nat)
    requires k < MaxIters && InDiscAt(c, k)
    ensures StopFrom(c, k) == StopFrom(c, k + 1)
  {}

  /** So for c = 2 the loop stops with n = 2. */
  lemma RealTwoStopsAtTwo(c: Complex)
    requires c.re == 2.0 && c.im == 0.0
    ensures EscapeCount(c) == 2
  {
    TwoSecondOutside(c);
    StopsHere(c, 2);
    TwoFirstInDisc(c);
    PassesOn(c, 1);
    StartInDisc(c);
    PassesOn(c, 0);
  }

  /** The loop test passes at the starting point 0, whatever c is. */
  lemma StartInDisc(c: Complex)
    ensures InDiscAt(c, 0)
  {
    assert Orbit(c, 0) == Zero;
  }

  /** For c = 2 the first point, 2, passes the test. */
  lemma TwoFirstInDisc(c: Complex)
    requires c.re == 2.0 && c.im == 0.0
    ensures InDiscAt(c, 1)
  {
    OrbitOfTwo(c);
    RealNormSq(Orbit(c, 1), 2.0);
  }

  /** For c = 2 the second point, 6, fails the test. */
  lemma TwoSecondOutside(c: Complex)
    requires c.re == 2.0 && c.im == 0.0
    ensures !InDiscAt(c, 2)
  {
    OrbitOfTwo(c);
    RealNormSq(Orbit(c, 2), 6.0);
  }

  /** The squared norm of a real point x is x * x. */
  lemma RealNormSq(z: Complex, x: real)
    requires z.re == x && z.im == 0.0
    ensures NormSq(z) == x * x
  {}

  /** The first step from 0 lands on c. */
  lemma FirstStep(c: Complex)
    ensures Orbit(c, 1) == c
  {
    assert Mul(Zero, Zero) == Zero;
  }

  /** A point outside the disc of radius 2 stops the loop after one step. */
  lemma FarPointStopsAtOne(c: Complex)
    requires NormSq(c) > 4.0
    ensures EscapeCount(c) == 1
  {
    assert InDiscAt(c, 0) by {
      assert Orbit(c, 0) == Zero;
    }
    assert !InDiscAt(c, 1) by {
      FirstStep(c);
    }
    EscapeCountIs(c, 1);
  }

  /** With the smoothing term positive beyond the disc (log2 |z| > 1 there),
      the result is 100 exactly for the points that reach the cap, and below
      100 for the others. */
  lemma CappedIffInterior(c: Complex, smooth: real -> real)
    requires forall q :: q > 4.0 ==> smooth(q) > 0.0
    ensures Iters(c, smooth) == 100.0 <==> EscapeCount(c) == MaxIters
    ensures EscapeCount(c) < MaxIters ==> Iters(c, smooth) < 100.0
  {
    var n := EscapeCount(c);
    if n < MaxIters {
      assert smooth(NormSq(Orbit(c, n))) > 0.0;
    }
  }

  // ---------------------------------------------------------------------
  // get_mb_color_hsv

  /** The colour of a result: hue 360 * iters / 100, full saturation, and
      value 1 below the cap, 0 at or above it. */
  function MbColorHsv(iters: real): ColorHSV {
    ColorHSV(360.0 * iters / MaxIters as real, 1.0, if iters < MaxIters as real then 1.0 else 0.0)
  }

  /** Saturation is always 1, the hue is proportional to the result and in
      [0, 360] when the result is in [0, 100], and the value is 0 exactly
      when the result is at least 100. */
  lemma MbColorHsvShape(iters: real)
    ensures MbColorHsv(iters).s == 1.0
    ensures MbColorHsv(iters).h == 3.6 * iters
    ensures 0.0 <= iters <= 100.0 ==> 0.0 <= MbColorHsv(iters).h <= 360.0
    ensures MbColorHsv(iters).v == 0.0 <==> iters >= 100.0
    ensures MbColorHsv(iters).v == 1.0 <==> iters < 100.0
  {}

  /** Points that reach the cap are painted black. */
  lemma InteriorIsBlack(c: Complex, smooth: real -> real)
    requires EscapeCount(c) == MaxIters
    ensures ToRgb(MbColorHsv(Iters(c, smooth))) == ColorRGB(0, 0, 0)
  {
    BlackWhenValueZero(MbColorHsv(Iters(c, smooth)));
  }

  /** Points that escape are painted a fully saturated, full-value colour:
      one channel is 0 and one is 255. */
  lemma EscapedIsSaturated(c: Complex, smooth: real -> real)
    requires forall q :: q > 4.0 ==> smooth(q) > 0.0
    requires EscapeCount(c) < MaxIters
    ensures 0 in Channels(ToRgb(MbColorHsv(Iters(c, smooth))))
    ensures 255 in Channels(ToRgb(MbColorHsv(Iters(c, smooth))))
  {
    CappedIffInterior(c, smooth);
    SaturatedHasZeroChannel(MbColorHsv(Iters(c, smooth)));
  }

  // ---------------------------------------------------------------------
  // The buffer of draw_mandelbrot

  /** The arguments of draw_mandelbrot: the pixel grid and the plane window. */
  datatype Frame = Frame(width: nat, height: nat, xMin: real, xMax: real, yMin: real, yMax: real)

  /** The plane abscissa sampled by column j. */
  function SampleX(f: Frame, j: nat): real
    requires j < f.width
  {
    f.xMin + (j as real / f.width as real) * (f.xMax - f.xMin)
  }

  /** The plane ordinate sampled by row i. */
  function SampleY(f: Frame, i: nat): real
    requires i < f.height
  {
    f.yMin + (i as real / f.height as real) * (f.yMax - f.yMin)
  }

  /** The colour of pixel (column j, row i). */
  function PixelColor(f: Frame, smooth: real -> real, i: nat, j: nat): ColorRGB
    requires i < f.height && j < f.width
  {
    ToRgb(MbColorHsv(Iters(Complex(SampleX(f, j), SampleY(f, i)), smooth)))
  }

  /** The four bytes pushed for one pixel: red, green, blue, opaque alpha. */
  function PixelBytes(col: ColorRGB): (b: seq<Byte>)
    ensures |b| == 4 && b[3] == 255
  {
    [col.r, col.g, col.b, 255]
  }

  /** The colours of a frame's grid as a function of (row, column); the
      colour outside the grid is never used. */
  function Pixels(f: Frame, smooth: real -> real): (nat, nat) -> ColorRGB {
    (i: nat, j: nat) => if i < f.height && j < f.width then PixelColor(f, smooth, i, j) else ColorRGB(0, 0, 0)
  }

  /** The bytes pushed for the first j pixels of row i of a grid whose
      colours are `pixel`. */
  function RowBytes(pixel: (nat, nat) -> ColorRGB, i: nat, j: nat): (b: seq<Byte>)
    ensures |b| == 4 * j
  {
    if j == 0 then [] else RowBytes(pixel, i, j - 1) + PixelBytes(pixel(i, j - 1))
  }

  /** One more row of w pixels adds 4 * w bytes. */
  lemma RowsStep(i: nat, w: nat)
    ensures 4 * (i * w) + 4 * w == 4 * ((i + 1) * w)
  {
    assert (i + 1) * w == i * w + w;
  }

  /** The bytes pushed for the first i rows of `width` pixels each. */
  function RowsBytes(pixel: (nat, nat) -> ColorRGB, width: nat, i: nat): (b: seq<Byte>)
    ensures |b| == 4 * (i * width)
  {
    if i == 0 then []
    else
      RowsStep(i - 1, width);
      RowsBytes(pixel, width, i - 1) + RowBytes(pixel, i - 1, width)
  }

  /** The whole buffer of draw_mandelbrot for a frame. */
  function Image(f: Frame, smooth: real -> real): (b: seq<Byte>)
    ensures |b| == 4 * (f.height * f.width)
  {
    RowsBytes(Pixels(f, smooth), f.width, f.height)
  }

  /** The body of the inner loop of draw_mandelbrot up to the pushes:
      sample the plane, iterate, and colour the result. */
  method ShadePixel(f: Frame, smooth: real -> real, i: nat, j: nat) returns (color: ColorRGB)
    requires i < f.height && j < f.width
    ensures color == PixelColor(f, smooth, i, j) == Pixels(f, smooth)(i, j)
  {
    var x := f.xMin + (j as real / f.width as real) * (f.xMax - f.xMin);
    var y := f.yMin + (i as real / f.height as real) * (f.yMax - f.yMin);
    assert x == SampleX(f, j) && y == SampleY(f, i);
    var iters;
    ghost var passes;
    iters, passes := CalcMbIters(Complex(x, y), smooth);
    color := ToRgb(MbColorHsv(iters));
  }

  /** Pushing the four bytes of pixel (column j, row i) one at a time after
      the first j pixels of the row gives the first j + 1 pixels. */
  lemma PushedPixel(pixel: (nat, nat) -> ColorRGB, d: seq<Byte>, i: nat, j: nat, c: ColorRGB)
    requires c == pixel(i, j)
    ensures d + RowBytes(pixel, i, j) + [c.r] + [c.g] + [c.b] + [255] == d + RowBytes(pixel, i, j + 1)
  {
    var row := RowBytes(pixel, i, j);
    assert RowBytes(pixel, i, j + 1) == row + PixelBytes(c);
    assert d + row + [c.r] + [c.g] + [c.b] + [255] == d + (row + PixelBytes(c));
  }

  /** One pass of the inner loop of draw_mandelbrot: push the four bytes of
      every pixel of row i, left to right. */
  method DrawRow(f: Frame, smooth: real -> real, i: nat, data: seq<Byte>) returns (data': seq<Byte>)
    requires i < f.height
    ensures data' == data + RowBytes(Pixels(f, smooth), i, f.width)
  {
    data' := data;
    for j := 0 to f.width
      invariant data' == data + RowBytes(Pixels(f, smooth), i, j)
    {
      var color := ShadePixel(f, smooth, i, j);
      PushedPixel(Pixels(f, smooth), data, i, j, color);
      data' := data' + [color.r];
      data' := data' + [color.g];
      data' := data' + [color.b];
      data' := data' + [255];
    }
  }

  /** draw_mandelbrot without the ImageData wrapper: the outer loop over
      rows, each pass running the inner loop over the row's pixels. */
  method DrawMandelbrot(width: nat, height: nat, xMin: real, xMax: real, yMin: real, yMax: real,
                        smooth: real -> real)
    returns (data: seq<Byte>)
    ensures data == Image(Frame(width, height, xMin, xMax, yMin, yMax), smooth)
    ensures |data| == width * height * 4
  {
    assert width * height * 4 == 4 * (height * width);
    var f := Frame(width, height, xMin, xMax, yMin, yMax);
    data := [];
    for i := 0 to height
      invariant data == RowsBytes(Pixels(f, smooth), width, i)
    {
      data := DrawRow(f, smooth, i, data);
    }
  }

  /** An empty grid gives an empty buffer. */
  lemma EmptyGridEmptyImage(f: Frame, smooth: real -> real)
    requires f.width == 0 || f.height == 0
    ensures Image(f, smooth) == []
  {}

  /** A row grows only at its end. */
  lemma {:induction false} RowBytesPrefix(pixel: (nat, nat) -> ColorRGB, i: nat, j: nat, j2: nat)
    requires j <= j2
    ensures RowBytes(pixel, i, j) <= RowBytes(pixel, i, j2)
    decreases j2
  {
    if j < j2 {
      RowBytesPrefix(pixel, i, j, j2 - 1);
    }
  }

  /** The rows grow only at their end. */
  lemma {:induction false} RowsBytesPrefix(pixel: (nat, nat) -> ColorRGB, width: nat, i: nat, i2: nat)
    requires i <= i2
    ensures RowsBytes(pixel, width, i) <= RowsBytes(pixel, width, i2)
    decreases i2
  {
    if i < i2 {
      RowsBytesPrefix(pixel, width, i, i2 - 1);
    }
  }

  /** Within a row, byte k of pixel j sits at 4 * j + k. */
  lemma RowLayout(pixel: (nat, nat) -> ColorRGB, i: nat, j: nat, k: nat, width: nat)
    requires j < width && k < 4
    ensures RowBytes(pixel, i, width)[4 * j + k] == PixelBytes(pixel(i, j))[k]
  {
    var upTo := RowBytes(pixel, i, j + 1);
    RowBytesPrefix(pixel, i, j + 1, width);
    assert upTo == RowBytes(pixel, i, j) + PixelBytes(pixel(i, j));
    assert upTo[4 * j + k] == PixelBytes(pixel(i, j))[k];
  }

  /** Where byte k of the pixel in column j of row i sits in a row-major
      buffer of four bytes per pixel. */
  function ByteOffset(width: nat, i: nat, j: nat, k: nat): nat {
    4 * (i * width + j) + k
  }

  /** Row-major layout of any grid: byte k of pixel (column j, row i) sits
      at ByteOffset(width, i, j, k). */
  lemma GridLayout(pixel: (nat, nat) -> ColorRGB, width: nat, height: nat, i: nat, j: nat, k: nat)
    requires i < height && j < width && k < 4
    ensures var rows, p := RowsBytes(pixel, width, height), ByteOffset(width, i, j, k);
            p < |rows| && rows[p] == PixelBytes(pixel(i, j))[k]
  {
    var rows, row := RowsBytes(pixel, width, i), RowBytes(pixel, i, width);
    var upTo := RowsBytes(pixel, width, i + 1);
    var p := ByteOffset(width, i, j, k);
    assert upTo == rows + row;
    assert p == |rows| + (4 * j + k) < |upTo| by {
      RowsStep(i, width);
    }
    assert upTo <= RowsBytes(pixel, width, height) by {
      RowsBytesPrefix(pixel, width, i + 1, height);
    }
    assert upTo[p] == row[4 * j + k];
    RowLayout(pixel, i, j, k, width);
  }

  /** Row-major layout of the image: byte k of pixel (column j, row i) sits
      at ByteOffset(f.width, i, j, k). */
  lemma PixelLayout(f: Frame, smooth: real -> real, i: nat, j: nat, k: nat)
    requires i < f.height && j < f.width && k < 4
    ensures var image, p := Image(f, smooth), ByteOffset(f.width, i, j, k);
            p < |image| && image[p] == PixelBytes(PixelColor(f, smooth, i, j))[k]
  {
    var pixel := Pixels(f, smooth);
    assert Image(f, smooth) == RowsBytes(pixel, f.width, f.height);
    GridLayout(pixel, f.width, f.height, i, j, k);
    assert pixel(i, j) == PixelColor(f, smooth, i, j);
  }

  /** Every pixel's fourth byte is an opaque alpha channel. */
  lemma PixelIsOpaque(f: Frame, smooth: real -> real, i: nat, j: nat)
    requires i < f.height && j < f.width
    ensures var image, p := Image(f, smooth), ByteOffset(f.width, i, j, 3);
            p < |image| && image[p] == 255
  {
    PixelLayout(f, smooth, i, j, 3);
  }

  /** Column 0 and row 0 sample the window's lower corner. */
  lemma FirstSampleIsCorner(f: Frame)
    requires 0 < f.width && 0 < f.height
    ensures SampleX(f, 0) == f.xMin && SampleY(f, 0) == f.yMin
  {}

  /** A fraction d * t with 0 <= t < 1 of a positive length d stays below d. */
  lemma ScaleBelow(d: real, t: real)
    requires 0.0 < d && 0.0 <= t < 1.0
    ensures 0.0 <= t * d < d
  {
    assert d * (1.0 - t) > 0.0;
  }

  /** Column j of n is the fraction j / n of the way across, below 1. */
  lemma FractionBelowOne(j: nat, n: nat)
    requires j < n
    ensures 0.0 <= j as real / n as real < 1.0
  {
    var t := j as real / n as real;
    assert t * n as real == j as real;
  }

  /** Step j of n from lo towards hi stays in [lo, hi). */
  lemma Interpolate(lo: real, hi: real, j: nat, n: nat)
    requires j < n && lo < hi
    ensures lo <= lo + (j as real / n as real) * (hi - lo) < hi
  {
    FractionBelowOne(j, n);
    ScaleBelow(hi - lo, j as real / n as real);
  }

  /** Samples of a non-degenerate window lie in [xMin, xMax): the right and
      top edges are never reached. */
  lemma SamplesInWindow(f: Frame, i: nat, j: nat)
    requires i < f.height && j < f.width
    requires f.xMin < f.xMax && f.yMin < f.yMax
    ensures f.xMin <= SampleX(f, j) < f.xMax
    ensures f.yMin <= SampleY(f, i) < f.yMax
  {
    assert f.xMin <= SampleX(f, j) < f.xMax by {
      Interpolate(f.xMin, f.xMax, j, f.width);
    }
    assert f.yMin <= SampleY(f, i) < f.yMax by {
      Interpolate(f.yMin, f.yMax, i, f.height);
    }
  }

  /** Sampling is strictly increasing along a row of a non-degenerate window. */
  lemma SampleXIncreasing(f: Frame, j1: nat, j2: nat)
    requires j1 < j2 < f.width && f.xMin < f.xMax
    ensures SampleX(f, j1) < SampleX(f, j2)
  {
    InterpolateIncreasing(f.xMin, f.xMax, j1, j2, f.width);
  }

  /** Later steps from lo towards hi land further along. */
  lemma InterpolateIncreasing(lo: real, hi: real, j1: nat, j2: nat, n: nat)
    requires j1 < j2 < n && lo < hi
    ensures lo + (j1 as real / n as real) * (hi - lo) < lo + (j2 as real / n as real) * (hi - lo)
  {
    var t1, t2, d := j1 as real / n as real, j2 as real / n as real, hi - lo;
    assert t1 < t2;
    assert (t2 - t1) * d > 0.0;
  }

  /** A 4 by 4 grid gives 64 bytes. */
  lemma FourByFourSize(f: Frame, smooth: real -> real)
    requires f.width == 4 && f.height == 4
    ensures |Image(f, smooth)| == 64
  {}

  /** A 4 by 4 grid over [-2, 1] x [-1, 1]: pixel (0, 0) samples (-2, -1)
      and pixel (3, 3) samples (0.25, 0.5). */
  lemma FourByFourSamples(f: Frame)
    requires f == Frame(4, 4, -2.0, 1.0, -1.0, 1.0)
    ensures SampleX(f, 0) == -2.0 && SampleY(f, 0) == -1.0
    ensures SampleX(f, 3) == 0.25 && SampleY(f, 3) == 0.5
  {
    assert 3.0 / 4.0 == 0.75;
  }
}
