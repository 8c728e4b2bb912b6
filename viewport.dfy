/** The page script (src/index.ts): the visible window of the complex
    plane, the drag selection that zooms into it, and the guarded redraw. */
module Viewport {
  import opened Color
  import opened Engine

  /** A mouse position in canvas pixels, or a point of the plane. */
  datatype Point = Point(x: real, y: real)

  /** `canvasToGraphCoordX/Y`: canvas coordinate p on a side of `size`
      pixels, mapped linearly onto [lo, hi]. */
  function CanvasToGraph(p: real, size: nat, lo: real, hi: real): real
    requires 0 < size
  {
    p / size as real * (hi - lo) + lo
  }

  /** The `(w < 0 ? -1 : 1)` of the aspect lock: a unit factor that turns x
      into its length, and points the non-negative side (0 included) up. */
  function Sign(x: real): (r: real)
    ensures Abs(r) == 1.0 && r * x == Abs(x)
    ensures 0.0 <= x ==> r == 1.0
  {
    if x < 0.0 then -1.0 else 1.0
  }

  /** The sides (w, h) of the dragged box as `onHold` keeps them while
      shift is held: the longer side is cut down to the canvas's aspect
      ratio. */
  function LockedDrag(w: real, h: real, ratio: real): (real, real)
    requires 0.0 < ratio
  {
    var eh, ew := Abs(w / ratio), Abs(h * ratio);
    if ew < Abs(w) then (ew * Sign(w), h)
    else if eh < Abs(h) then (w, eh * Sign(h))
    else (w, h)
  }

  /** The bound pair the `mouseup` handler stores: the two converted
      coordinates, smaller one first. */
  function Span(a: real, b: real): (r: (real, real))
    ensures r.0 <= r.1
    ensures (r.0 == a && r.1 == b) || (r.0 == b && r.1 == a)
    ensures r.0 < r.1 <==> a != b
  {
    if a > b then (b, a) else (a, b)
  }

  // ---------------------------------------------------------------------
  // The coordinate map

  /** Canvas coordinate 0 is the low bound and the full side is the high
      bound. */
  lemma CanvasToGraphEnds(size: nat, lo: real, hi: real)
    requires 0 < size
    ensures CanvasToGraph(0.0, size, lo, hi) == lo
    ensures CanvasToGraph(size as real, size, lo, hi) == hi
  {
    assert size as real / size as real == 1.0;
  }

  /** The map is strictly increasing over a non-degenerate window. */
  lemma CanvasToGraphIncreasing(p1: real, p2: real, size: nat, lo: real, hi: real)
    requires 0 < size && p1 < p2 && lo < hi
    ensures CanvasToGraph(p1, size, lo, hi) < CanvasToGraph(p2, size, lo, hi)
  {
    var n := size as real;
    var t1, t2 := p1 / n, p2 / n;
    assert t1 < t2 by {
      assert t1 * n == p1 && t2 * n == p2;
      ScaleIncreasing(t2, t1, n);
    }
    ScaleIncreasing(t1, t2, hi - lo);
  }

  /** A window of zero extent on an axis maps the whole canvas side to its
      one coordinate, so no later selection can widen it again. */
  lemma CollapsedAxisStays(p: real, size: nat, lo: real)
    requires 0 < size
    ensures CanvasToGraph(p, size, lo, lo) == lo
  {
    assert p / size as real * (lo - lo) == 0.0;
  }

  /** Multiplying by a positive factor keeps a strict order; read the other
      way round, so does dividing. */
  lemma ScaleIncreasing(a: real, b: real, k: real)
    requires 0.0 < k
    ensures a < b <==> a * k < b * k
  {
    if a < b {
      assert (b - a) * k > 0.0;
    } else {
      assert (a - b) * k >= 0.0;
    }
  }

  /** At a pixel's corner the map gives the very point the renderer sampled
      for that pixel, so a selection is taken in the frame that was drawn. */
  lemma CanvasMatchesSamples(f: Frame, i: nat, j: nat)
    requires i < f.height && j < f.width
    ensures CanvasToGraph(j as real, f.width, f.xMin, f.xMax) == SampleX(f, j)
    ensures CanvasToGraph(i as real, f.height, f.yMin, f.yMax) == SampleY(f, i)
  {}

  // ---------------------------------------------------------------------
  // The aspect lock

  /** At most one side of the box is changed. */
  lemma LockedDragOneAxis(w: real, h: real, ratio: real)
    requires 0.0 < ratio
    ensures var d := LockedDrag(w, h, ratio);
            d.0 == w || d.1 == h
  {}

  /** Afterwards the box has the canvas's aspect ratio, whichever branch
      was taken, also when neither fires and for a drag of zero length. */
  lemma LockedDragRatio(w: real, h: real, ratio: real)
    requires 0.0 < ratio
    ensures var d := LockedDrag(w, h, ratio);
            Abs(d.0) == ratio * Abs(d.1)
  {
    if Abs(h * ratio) < Abs(w) {
      WidthCut(w, h, ratio);
    } else if Abs(w / ratio) < Abs(h) {
      HeightCut(w, h, ratio);
    } else {
      Uncut(w, h, ratio);
    }
  }

  /** First branch: the width becomes |h| ratio, in the direction of w. */
  lemma WidthCut(w: real, h: real, ratio: real)
    requires 0.0 < ratio && Abs(h * ratio) < Abs(w)
    ensures var d := LockedDrag(w, h, ratio);
            Abs(d.0) == ratio * Abs(d.1)
  {
    var ew := Abs(h * ratio);
    assert LockedDrag(w, h, ratio) == (ew * Sign(w), h);
    LockedLengths(w, h, ratio);
    SignedLength(ew, w);
  }

  /** Second branch: the height becomes |w| / ratio, in the direction of h. */
  lemma HeightCut(w: real, h: real, ratio: real)
    requires 0.0 < ratio && Abs(w) <= Abs(h * ratio) && Abs(w / ratio) < Abs(h)
    ensures var d := LockedDrag(w, h, ratio);
            Abs(d.0) == ratio * Abs(d.1)
  {
    var eh := Abs(w / ratio);
    assert LockedDrag(w, h, ratio) == (w, eh * Sign(h));
    LockedLengths(w, h, ratio);
    SignedLength(eh, h);
  }

  /** Neither branch: the box already has the ratio. */
  lemma Uncut(w: real, h: real, ratio: real)
    requires 0.0 < ratio && Abs(w) <= Abs(h * ratio) && Abs(h) <= Abs(w / ratio)
    ensures var d := LockedDrag(w, h, ratio);
            Abs(d.0) == ratio * Abs(d.1)
  {
    assert LockedDrag(w, h, ratio) == (w, h);
    LockedLengths(w, h, ratio);
    Balanced(Abs(w), Abs(h), Abs(h * ratio), Abs(w / ratio), ratio);
  }

  /** The cut side keeps the direction of the drag and does not grow: the
      box stays inside the one the mouse spans. */
  lemma LockedDragWithin(w: real, h: real, ratio: real)
    requires 0.0 < ratio
    ensures var d := LockedDrag(w, h, ratio);
            Abs(d.0) <= Abs(w) && Abs(d.1) <= Abs(h)
    ensures var d := LockedDrag(w, h, ratio);
            (w < 0.0 ==> d.0 <= 0.0) && (0.0 <= w ==> 0.0 <= d.0) &&
            (h < 0.0 ==> d.1 <= 0.0) && (0.0 <= h ==> 0.0 <= d.1)
  {
    var eh, ew := Abs(w / ratio), Abs(h * ratio);
    var d := LockedDrag(w, h, ratio);
    if ew < Abs(w) {
      assert d == (ew * Sign(w), h);
      SignedLength(ew, w);
    } else if eh < Abs(h) {
      assert d == (w, eh * Sign(h));
      SignedLength(eh, h);
    }
  }

  /** A shift drag along one axis only (no width, or no height) is cut to a
      box of zero size: the lock scales the missing side to 0 and then cuts
      the other down to it. */
  lemma AxisLockCollapses(w: real, h: real, ratio: real)
    requires 0.0 < ratio && (w == 0.0 || h == 0.0)
    ensures LockedDrag(w, h, ratio) == (0.0, 0.0)
  {
    if w == 0.0 {
      assert Abs(w / ratio) == 0.0;
    } else {
      assert Abs(h * ratio) == 0.0;
    }
  }

  /** The offsets the lock produces: the drag is kept on at least one axis,
      and the box has the ratio (the facts `onHold` leaves in its box). */
  lemma LockedOffsets(w: real, h: real, dx: real, dy: real, ratio: real)
    requires 0.0 < ratio && (dx, dy) == LockedDrag(w, h, ratio)
    ensures dx == w || dy == h
    ensures Abs(dx) == ratio * Abs(dy)
  {
    LockedDragOneAxis(w, h, ratio);
    LockedDragRatio(w, h, ratio);
  }

  /** When neither side exceeds the other's aspect-scaled length, the box
      already has the ratio. */
  lemma Balanced(a: real, b: real, ew: real, eh: real, ratio: real)
    requires 0.0 < ratio && ew == ratio * b && ratio * eh == a
    requires a <= ew && b <= eh
    ensures a == ratio * b
  {
    ScaleBothSides(eh, b, ratio);
  }

  /** The two candidate lengths of the lock: |h| ratio, and |w| / ratio,
      which is |w| once scaled back by the ratio. */
  lemma LockedLengths(w: real, h: real, ratio: real)
    requires 0.0 < ratio
    ensures Abs(h * ratio) == ratio * Abs(h)
    ensures ratio * Abs(w / ratio) == Abs(w)
  {
    AbsOfProduct(h, ratio);
    AbsOfProduct(w / ratio, ratio);
    assert w / ratio * ratio == w;
  }

  /** A length d laid off in the direction of s. */
  lemma SignedLength(d: real, s: real)
    requires 0.0 <= d
    ensures Abs(d * Sign(s)) == d
    ensures s < 0.0 ==> d * Sign(s) <= 0.0
    ensures 0.0 <= s ==> 0.0 <= d * Sign(s)
  {
    if s < 0.0 {
      assert d * Sign(s) == -d;
    } else {
      assert d * Sign(s) == d;
    }
  }

  /** |a b| = |a| |b|. */
  lemma AbsOfProduct(a: real, b: real)
    ensures Abs(a * b) == Abs(a) * Abs(b)
  {
    if a < 0.0 && b < 0.0 {
      assert a * b == (-a) * (-b);
    } else if a < 0.0 {
      assert -(a * b) == (-a) * b;
    } else if b < 0.0 {
      assert -(a * b) == a * (-b);
    }
  }

  /** Scaling both sides of x <= y by a positive factor. */
  lemma ScaleBothSides(x: real, y: real, k: real)
    requires 0.0 < k && y <= x
    ensures k * y <= k * x
  {
    assert k * (x - y) >= 0.0;
  }

  /** The ratio of two positive sides is positive. */
  lemma PositiveRatio(a: nat, b: nat)
    requires 0 < a && 0 < b
    ensures 0.0 < a as real / b as real
  {
    var r := a as real / b as real;
    assert r * b as real == a as real;
  }

  // ---------------------------------------------------------------------
  // The page state

  /** The variables the handlers of the page share, and the handlers. */
  class Viewer {
    /** `canvas.width`, `canvas.height` and their ratio. */
    const width: nat
    const height: nat
    const aspectRatio: real
    /** The smoothing term handed to the renderer (its logarithms are
        not modelled). */
    const smooth: real -> real

    var loading: bool
    var xMin: real
    var xMax: real
    var yMin: real
    var yMax: real
    /** The last rendered RGBA buffer. */
    var imageData: seq<Byte>
    var holdStart: Point
    var holdEnd: Point

    /** The canvas is not empty and the window is not inverted. */
    ghost predicate Valid()
      reads this
    {
      0 < width && 0 < height && 0.0 < aspectRatio && xMin <= xMax && yMin <= yMax
    }

    /** The window currently on screen. */
    ghost function View(): Frame
      reads this
    {
      Frame(width, height, xMin, xMax, yMin, yMax)
    }

    /** `main`: the initial window, the cleared drag, and the first draw. */
    constructor(width: nat, height: nat, smooth: real -> real)
      requires 0 < width && 0 < height
      ensures Valid() && !loading
      ensures this.width == width && this.height == height && this.smooth == smooth
      ensures aspectRatio == width as real / height as real
      ensures xMin == -2.0 && xMax == 1.0 && yMin == -0.84375 && yMax == 0.84375
      ensures xMin < xMax && yMin < yMax
      ensures holdStart == Point(0.0, 0.0) && holdEnd == Point(0.0, 0.0)
      ensures imageData == Image(View(), smooth)
    {
      this.width := width;
      this.height := height;
      PositiveRatio(width, height);
      this.aspectRatio := width as real / height as real;
      this.smooth := smooth;
      loading := false;
      xMin, xMax := -2.0, 1.0;
      yMin, yMax := -0.84375, 0.84375;
      holdStart := Point(0.0, 0.0);
      holdEnd := Point(0.0, 0.0);
      imageData := [];
      new;
      Draw();
    }

    function CanvasToGraphCoordX(canvasX: real): real
      requires 0 < width
      reads this
    {
      CanvasToGraph(canvasX, width, xMin, xMax)
    }

    function CanvasToGraphCoordY(canvasY: real): real
      requires 0 < height
      reads this
    {
      CanvasToGraph(canvasY, height, yMin, yMax)
    }

    /** `draw`: nothing while a draw is in progress; otherwise render the
        current window and clear the flag again. */
    method Draw()
      requires Valid()
      modifies this
      ensures Valid()
      ensures old(loading) ==> loading && imageData == old(imageData)
      ensures !old(loading) ==> !loading && imageData == Image(View(), smooth)
      ensures xMin == old(xMin) && xMax == old(xMax) && yMin == old(yMin) && yMax == old(yMax)
      ensures holdStart == old(holdStart) && holdEnd == old(holdEnd)
    {
      if loading {
        return;
      }
      loading := true;
      imageData := DrawMandelbrot(width, height, xMin, xMax, yMin, yMax, smooth);
      loading := false;
    }

    /** The `mousedown` handler: the drag starts at the mouse. */
    method MouseDown(mouse: Point)
      requires Valid()
      modifies this
      ensures Valid()
      ensures holdStart == mouse && holdEnd == old(holdEnd)
      ensures loading == old(loading) && imageData == old(imageData)
      ensures xMin == old(xMin) && xMax == old(xMax) && yMin == old(yMin) && yMax == old(yMax)
    {
      holdStart := mouse;
    }

    /** `onHold`, the `mousemove` handler during a drag: the end follows the
        mouse, aspect-locked while shift is held. */
    method OnHold(mouse: Point, shift: bool)
      requires Valid()
      modifies this
      ensures Valid()
      ensures !shift ==> holdEnd == mouse
      ensures shift ==> (holdEnd.x - holdStart.x, holdEnd.y - holdStart.y) ==
                        LockedDrag(mouse.x - holdStart.x, mouse.y - holdStart.y, aspectRatio)
      ensures shift ==> holdEnd.x == mouse.x || holdEnd.y == mouse.y
      ensures holdStart == old(holdStart)
      ensures loading == old(loading) && imageData == old(imageData)
      ensures xMin == old(xMin) && xMax == old(xMax) && yMin == old(yMin) && yMax == old(yMax)
    {
      var start := holdStart;
      var endX, endY := mouse.x, mouse.y;
      if shift {
        var w := mouse.x - start.x;
        var h := mouse.y - start.y;
        var eh := Abs(w / aspectRatio);
        var ew := Abs(h * aspectRatio);
        if ew < Abs(w) {
          endX := start.x + ew * Sign(w);
        } else if eh < Abs(h) {
          endY := start.y + eh * Sign(h);
        }
        assert (endX - start.x, endY - start.y) == LockedDrag(w, h, aspectRatio);
        LockedOffsets(w, h, endX - start.x, endY - start.y, aspectRatio);
      }
      holdEnd := Point(endX, endY);
    }

    /** The `mouseup` handler: the dragged box, converted to the plane and
        put in order, becomes the new window, which is then drawn. */
    method MouseUp()
      requires Valid()
      modifies this
      ensures Valid()
      ensures (xMin, xMax) == Span(old(CanvasToGraphCoordX(holdStart.x)), old(CanvasToGraphCoordX(holdEnd.x)))
      ensures (yMin, yMax) == Span(old(CanvasToGraphCoordY(holdStart.y)), old(CanvasToGraphCoordY(holdEnd.y)))
      ensures holdStart == old(holdStart) && holdEnd == old(holdEnd)
      ensures old(loading) ==> loading && imageData == old(imageData)
      ensures !old(loading) ==> !loading && imageData == Image(View(), smooth)
    {
      var graphStartX := CanvasToGraphCoordX(holdStart.x);
      var graphStartY := CanvasToGraphCoordY(holdStart.y);
      var graphEndX := CanvasToGraphCoordX(holdEnd.x);
      var graphEndY := CanvasToGraphCoordY(holdEnd.y);
      if graphStartX > graphEndX {
        xMin := graphEndX;
        xMax := graphStartX;
      } else {
        xMin := graphStartX;
        xMax := graphEndX;
      }
      if graphStartY > graphEndY {
        yMin := graphEndY;
        yMax := graphStartY;
      } else {
        yMin := graphStartY;
        yMax := graphEndY;
      }
      Draw();
    }
  }
}
