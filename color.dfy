/** Colours and the HSV to RGB conversion of the renderer (rs/src/color.rs). */
module Color {

  /** Rust's `u8`. */
  type Byte = x: int | 0 <= x < 256

  datatype ColorRGB = ColorRGB(r: Byte, g: Byte, b: Byte)

  /** Hue in degrees, saturation and value; `f64` fields become reals. */
  datatype ColorHSV = ColorHSV(h: real, s: real, v: real)

  function Abs(x: real): real {
    if x < 0.0 then -x else x
  }

  /** Rounding toward zero. */
  function Trunc(x: real): (t: int)
    ensures 0.0 <= x ==> 0 <= t && t as real <= x < t as real + 1.0
    ensures x < 0.0 ==> t <= 0 && t as real - 1.0 < x <= t as real
  {
    if x >= 0.0 then x.Floor else -((-x).Floor)
  }

  /** `x % 2.0` on an `f64` in Rust (C's fmod): the remainder of the quotient
      truncated toward zero, which takes the sign of the dividend. */
  function RemTwo(x: real): (r: real)
    ensures 0.0 <= x ==> 0.0 <= r < 2.0
    ensures x < 0.0 ==> -2.0 < r <= 0.0
  {
    x - 2.0 * (Trunc(x / 2.0) as real)
  }

  /** Multiplying by a factor in [0, 1] does not leave [0, d]. */
  lemma ScaleByFraction(d: real, f: real)
    requires 0.0 <= d && 0.0 <= f <= 1.0
    ensures 0.0 <= d * f <= d
  {
    assert d * (1.0 - f) >= 0.0;
  }

  /** A non-positive factor keeps a non-negative value at or below 0. */
  lemma ScaleByNonPositive(d: real, f: real)
    requires 0.0 <= d && f <= 0.0
    ensures d * f <= 0.0
  {
    assert d * (-f) >= 0.0;
  }

  /** Rust's `as u8` on an `f64`: truncation toward zero, saturating at 0 and
      at 255 (NaN is not modelled). */
  function AsU8(x: real): (b: Byte)
    ensures 0.0 <= x < 256.0 ==> b == Trunc(x)
    ensures x < 0.0 ==> b == 0
    ensures 256.0 <= x ==> b == 255
  {
    if x < 0.0 then 0 else if x >= 255.0 then 255 else x.Floor
  }

  /** `u8` addition as a release build performs it: modulo 256. */
  function WrappingAdd(a: Byte, b: Byte): (r: Byte)
    ensures a + b < 256 ==> r == a + b
    ensures 256 <= a + b ==> r == a + b - 256
  {
    (a + b) % 256
  }

  /** The hue weight `1 - |(h/60) % 2 - 1|` (color.rs:18). */
  function HueFactor(h: real): (f: real)
    ensures 0.0 <= h ==> 0.0 <= f <= 1.0
    ensures h < 0.0 ==> f <= 0.0
  {
    1.0 - Abs(RemTwo(h / 60.0) - 1.0)
  }

  /** The unrounded intermediate values of `to_rgb`: k (the brightest
      channel), m (the darkest) and z (the hue-dependent part above m). */
  function K(c: ColorHSV): real { 255.0 * c.v }
  function M(c: ColorHSV): real { K(c) * (1.0 - c.s) }
  function Z(c: ColorHSV): real { (K(c) - M(c)) * HueFactor(c.h) }

  /** The three bytes `to_rgb` arranges: x, y and z' of color.rs:20-22. */
  function Top(c: ColorHSV): Byte { AsU8(K(c)) }
  function Middle(c: ColorHSV): Byte { WrappingAdd(AsU8(Z(c)), AsU8(M(c))) }
  function Bottom(c: ColorHSV): Byte { AsU8(M(c)) }

  /** `ColorHSV::to_rgb`: the hue sextant picks the order of the three bytes. */
  function ToRgb(c: ColorHSV): ColorRGB {
    Arrange(c.h, Top(c), Middle(c), Bottom(c))
  }

  /** The if-chain of color.rs:23-35 on the hue, over the bytes x, y, z'. */
  function Arrange(h: real, x: Byte, y: Byte, z: Byte): ColorRGB {
    if h < 60.0 then ColorRGB(x, y, z)
    else if h < 120.0 then ColorRGB(y, x, z)
    else if h < 180.0 then ColorRGB(z, x, y)
    else if h < 240.0 then ColorRGB(z, y, x)
    else if h < 300.0 then ColorRGB(y, z, x)
    else ColorRGB(x, z, y)
  }

  /** The 0-based sextant of the if-chain in `to_rgb` that a hue falls into
      (anything from 300 up, and 360 itself, is the last one). */
  function Sextant(h: real): (i: nat)
    ensures i <= 5
    ensures i < 5 ==> h < 60.0 * (i + 1) as real
    ensures 0 < i ==> 60.0 * i as real <= h
  {
    if h < 60.0 then 0 else if h < 120.0 then 1 else if h < 180.0 then 2
    else if h < 240.0 then 3 else if h < 300.0 then 4 else 5
  }

  function Channels(c: ColorRGB): multiset<Byte> {
    multiset{c.r, c.g, c.b}
  }

  // ---------------------------------------------------------------------
  // Properties of to_rgb

  /** The branch of the chain taken is the one of the hue's sextant. */
  lemma ArrangeBySextant(h: real, x: Byte, y: Byte, z: Byte)
    ensures var o := Arrange(h, x, y, z);
      match Sextant(h)
      case 0 => o == ColorRGB(x, y, z)
      case 1 => o == ColorRGB(y, x, z)
      case 2 => o == ColorRGB(z, x, y)
      case 3 => o == ColorRGB(z, y, x)
      case 4 => o == ColorRGB(y, z, x)
      case _ => o == ColorRGB(x, z, y)
  {}

  /** Swapping the first two or the last two of three values keeps the
      multiset; every other order is reached by chaining these. */
  lemma SwapFront<T>(x: T, y: T, z: T)
    ensures multiset{y, x, z} == multiset{x, y, z}
  {}

  lemma SwapBack<T>(x: T, y: T, z: T)
    ensures multiset{x, z, y} == multiset{x, y, z}
  {}

  /** Every branch of the chain outputs a permutation of x, y and z. */
  lemma ArrangePermutes(h: real, x: Byte, y: Byte, z: Byte)
    ensures Channels(Arrange(h, x, y, z)) == multiset{x, y, z}
  {
    ArrangeBySextant(h, x, y, z);
    SwapFront(x, y, z);
    SwapBack(x, y, z);
    SwapFront(x, z, y);
    SwapBack(z, x, y);
    SwapBack(y, x, z);
  }

  /** `to_rgb` outputs a permutation of its three levels. */
  lemma ToRgbPermutes(c: ColorHSV)
    ensures Channels(ToRgb(c)) == multiset{Top(c), Middle(c), Bottom(c)}
  {
    ArrangePermutes(c.h, Top(c), Middle(c), Bottom(c));
  }

  /** Value 0 gives black whatever the hue and saturation. */
  lemma BlackWhenValueZero(c: ColorHSV)
    requires c.v == 0.0
    ensures ToRgb(c) == ColorRGB(0, 0, 0)
  {
    assert K(c) == 0.0 && M(c) == 0.0;
    assert Z(c) == 0.0 * HueFactor(c.h) == 0.0;
    assert Top(c) == 0 && Middle(c) == 0 && Bottom(c) == 0;
  }

  /** With saturation and value in [0, 1]: 0 <= m <= k <= 255. */
  lemma LevelsInRange(c: ColorHSV)
    requires 0.0 <= c.s <= 1.0 && 0.0 <= c.v <= 1.0
    ensures 0.0 <= M(c) <= K(c) <= 255.0
    ensures K(c) - M(c) == 255.0 * (c.v * c.s)
  {
    var k := K(c);
    ScaleByFraction(k, 1.0 - c.s);
    assert k - k * (1.0 - c.s) == k * c.s;
    assert k * c.s == 255.0 * (c.v * c.s);
  }

  /** For a non-negative hue the hue part lies between 0 and k - m. */
  lemma HuePartInRange(c: ColorHSV)
    requires 0.0 <= c.h && M(c) <= K(c)
    ensures 0.0 <= Z(c) <= K(c) - M(c)
  {
    var d, f := K(c) - M(c), HueFactor(c.h);
    ScaleByFraction(d, f);
    assert Z(c) == d * f;
  }

  /** With saturation and value in [0, 1] the `u8` addition of color.rs:21
      never wraps, for any hue. */
  lemma MiddleDoesNotOverflow(c: ColorHSV)
    requires 0.0 <= c.s <= 1.0 && 0.0 <= c.v <= 1.0
    ensures AsU8(Z(c)) + AsU8(M(c)) <= 255
    ensures Middle(c) == AsU8(Z(c)) + AsU8(M(c))
  {
    LevelsInRange(c);
    var z, m := Z(c), M(c);
    assert AsU8(m) as real <= m;
    if 0.0 <= c.h {
      HuePartInRange(c);
      assert AsU8(z) as real <= z;
    } else {
      ScaleByNonPositive(K(c) - m, HueFactor(c.h));
      assert AsU8(z) == 0;
    }
  }

  /** Full saturation leaves m = 0, so one channel is 0; with full value too,
      one channel is 255. */
  lemma SaturatedHasZeroChannel(c: ColorHSV)
    requires c.s == 1.0
    ensures 0 in Channels(ToRgb(c))
    ensures c.v == 1.0 ==> 255 in Channels(ToRgb(c))
  {
    assert M(c) == K(c) * 0.0 == 0.0;
    assert Bottom(c) == 0;
    assert c.v == 1.0 ==> Top(c) == 255;
    ToRgbPermutes(c);
  }

  /** At full saturation and value: the three bytes for a hue. */
  lemma FullColorLevels(h: real)
    ensures var c := ColorHSV(h, 1.0, 1.0);
      Top(c) == 255 && Bottom(c) == 0 && Middle(c) == AsU8(255.0 * HueFactor(h))
  {
    var c := ColorHSV(h, 1.0, 1.0);
    assert K(c) == 255.0;
    assert M(c) == 255.0 * 0.0 == 0.0;
  }

  /** The primary and secondary colours at full saturation and value;
      a hue of 360 wraps round to red. */
  lemma PrimaryHues()
    ensures ToRgb(ColorHSV(0.0, 1.0, 1.0)) == ColorRGB(255, 0, 0)
    ensures ToRgb(ColorHSV(60.0, 1.0, 1.0)) == ColorRGB(255, 255, 0)
    ensures ToRgb(ColorHSV(120.0, 1.0, 1.0)) == ColorRGB(0, 255, 0)
    ensures ToRgb(ColorHSV(240.0, 1.0, 1.0)) == ColorRGB(0, 0, 255)
    ensures ToRgb(ColorHSV(360.0, 1.0, 1.0)) == ColorRGB(255, 0, 0)
  {
    FullColorLevels(0.0);
    FullColorLevels(60.0);
    FullColorLevels(120.0);
    FullColorLevels(240.0);
    FullColorLevels(360.0);
    assert Trunc(0.0) == 0 && Trunc(0.5) == 0 && Trunc(1.0) == 1 && Trunc(2.0) == 2 && Trunc(3.0) == 3;
    assert HueFactor(0.0) == 0.0;
    assert HueFactor(60.0) == 1.0;
    assert HueFactor(120.0) == 0.0;
    assert HueFactor(240.0) == 0.0;
    assert HueFactor(360.0) == 0.0;
  }

  // ---------------------------------------------------------------------
  // An independent reference: the closed form of the HSV to RGB conversion
  // f(n) = v - v s max(0, min(k, 4 - k, 1)) with k = (n + h/60) mod 6,
  // red = f(5), green = f(3), blue = f(1).

  function RealMod6(x: real): (r: real)
    ensures 0.0 <= r < 6.0
  {
    x - 6.0 * (x / 6.0).Floor as real
  }

  function Clamp01(x: real): real {
    if x < 0.0 then 0.0 else if x > 1.0 then 1.0 else x
  }

  /** The weight by which the reference darkens channel n below v. */
  function ReferenceWeight(n: real, h: real): (w: real)
    ensures 0.0 <= w <= 1.0
  {
    var k := RealMod6(n + h / 60.0);
    Clamp01(if 4.0 - k < k then 4.0 - k else k)
  }

  /** The value v darkened by weight w in proportion to the saturation. */
  function Darkened(c: ColorHSV, w: real): real {
    c.v - c.v * c.s * w
  }

  function ReferenceChannel(n: real, c: ColorHSV): real {
    Darkened(c, ReferenceWeight(n, c.h))
  }

  /** The weight the reference gives to the middle channel: a triangle wave
      of period 120 degrees, rising on even sextants and falling on odd ones. */
  function Ramp(h: real): real {
    var i := Sextant(h);
    if i % 2 == 0 then h / 60.0 - i as real else (i + 1) as real - h / 60.0
  }

  lemma HueFactorIsRamp(h: real)
    requires 0.0 <= h <= 360.0
    ensures HueFactor(h) == Ramp(h)
  {
    var q := h / 60.0;
    var i := Sextant(h);
    if h < 360.0 {
      assert i as real <= q < (i + 1) as real;
      assert Trunc(q / 2.0) == i / 2;
    } else {
      assert Trunc(q / 2.0) == 3;
    }
  }

  lemma RealMod6Of(x: real, m: int)
    requires 6.0 * m as real <= x < 6.0 * m as real + 6.0
    ensures RealMod6(x) == x - 6.0 * m as real
  {
    assert (x / 6.0).Floor == m;
  }

  /** In each sextant of the hue circle the reference leaves one channel at
      full value (weight 0), darkens one fully (weight 1) and gives the
      third the weight 1 - Ramp(h). */
  lemma WeightsInSextant(h: real)
    requires 0.0 <= h <= 360.0
    ensures InSextantOrder(Sextant(h),
      (ReferenceWeight(5.0, h), ReferenceWeight(3.0, h), ReferenceWeight(1.0, h)),
      0.0, 1.0 - Ramp(h), 1.0)
  {
    var q := h / 60.0;
    var i := Sextant(h);
    assert i as real <= q <= (i + 1) as real;
    RealMod6Of(5.0 + q, if i == 0 then 0 else 1);
    RealMod6Of(3.0 + q, if i <= 2 then 0 else 1);
    RealMod6Of(1.0 + q, if i <= 4 then 0 else 1);
  }

  /** Weight 0 keeps the value v; weight 1 darkens it to v - v s. */
  lemma DarkenedExtremes(c: ColorHSV)
    ensures Darkened(c, 0.0) == c.v
    ensures Darkened(c, 1.0) == c.v - c.v * c.s
  {}

  lemma DarkenPartly(a: real, r: real)
    ensures a * (1.0 - r) == a - a * r
  {}

  /** The brightest level of `to_rgb` is 255 v rounded down (v is v
      darkened by weight 0). */
  lemma TopApproximates(c: ColorHSV)
    requires 0.0 <= c.v <= 1.0
    ensures Top(c) as real <= 255.0 * Darkened(c, 0.0) < Top(c) as real + 1.0
  {
    DarkenedExtremes(c);
    assert K(c) == 255.0 * c.v;
  }

  /** The darkest level of `to_rgb` is 255 (v - v s) rounded down (v - v s
      is v darkened by weight 1). */
  lemma BottomApproximates(c: ColorHSV)
    requires 0.0 <= c.s <= 1.0 && 0.0 <= c.v <= 1.0
    ensures Bottom(c) as real <= 255.0 * Darkened(c, 1.0) < Bottom(c) as real + 1.0
  {
    DarkenedExtremes(c);
    LevelsInRange(c);
    var m := M(c);
    assert m == 255.0 * (c.v - c.v * c.s);
    assert Bottom(c) == AsU8(m);
  }

  /** Before truncation, the two summands of the middle level add up to
      255 times v darkened by 1 - Ramp(h). */
  lemma MiddleLevel(c: ColorHSV)
    requires 0.0 <= c.h <= 360.0 && 0.0 <= c.s <= 1.0 && 0.0 <= c.v <= 1.0
    ensures Z(c) + M(c) == 255.0 * Darkened(c, 1.0 - Ramp(c.h))
  {
    HueFactorIsRamp(c.h);
    MiddleSum(c, HueFactor(c.h), Ramp(c.h), K(c), M(c), Z(c));
  }

  /** The arithmetic of MiddleLevel over plain numbers: with k = 255 v,
      m = k (1 - s) and z = (k - m) r, z + m is 255 v darkened by 1 - r. */
  lemma MiddleSum(c: ColorHSV, f: real, r: real, k: real, m: real, z: real)
    requires k == 255.0 * c.v && m == k * (1.0 - c.s) && z == (k - m) * f && f == r
    ensures z + m == 255.0 * Darkened(c, 1.0 - r)
  {
    var vs := c.v * c.s;
    assert k - m == 255.0 * vs by {
      DarkenPartly(k, c.s);
    }
    assert z == 255.0 * (vs * r);
    DarkenPartly(vs, r);
  }

  /** The middle level of `to_rgb` is 255 times v darkened by 1 - Ramp(h),
      less at most two units, one for each truncated summand. */
  lemma MiddleApproximates(c: ColorHSV)
    requires 0.0 <= c.h <= 360.0 && 0.0 <= c.s <= 1.0 && 0.0 <= c.v <= 1.0
    ensures Middle(c) as real <= 255.0 * Darkened(c, 1.0 - Ramp(c.h)) < Middle(c) as real + 2.0
  {
    var m, z := M(c), Z(c);
    assert 0.0 <= m && 0.0 <= z && z + m <= 255.0 by {
      LevelsInRange(c);
      HuePartInRange(c);
    }
    assert Middle(c) == AsU8(z) + AsU8(m) by {
      MiddleDoesNotOverflow(c);
    }
    MiddleLevel(c);
  }

  /** The reference channels (red, green, blue) in the sextant order of the
      hue: v, then v darkened by 1 - Ramp(h), then v darkened fully. */
  lemma ReferenceInSextant(c: ColorHSV)
    requires 0.0 <= c.h <= 360.0
    ensures InSextantOrder(Sextant(c.h),
      (ReferenceChannel(5.0, c), ReferenceChannel(3.0, c), ReferenceChannel(1.0, c)),
      Darkened(c, 0.0), Darkened(c, 1.0 - Ramp(c.h)), Darkened(c, 1.0))
  {
    WeightsInSextant(c.h);
  }

  /** With hue in [0, 360] and saturation and value in [0, 1], each byte of
      `to_rgb` is the reference channel scaled to 255 and rounded down, with
      at most one extra unit lost on the middle channel, which adds two
      truncated values. */
  lemma ToRgbApproximatesReference(c: ColorHSV)
    requires 0.0 <= c.h <= 360.0 && 0.0 <= c.s <= 1.0 && 0.0 <= c.v <= 1.0
    ensures var o := ToRgb(c);
      && o.r as real <= 255.0 * ReferenceChannel(5.0, c) < o.r as real + 2.0
      && o.g as real <= 255.0 * ReferenceChannel(3.0, c) < o.g as real + 2.0
      && o.b as real <= 255.0 * ReferenceChannel(1.0, c) < o.b as real + 2.0
  {
    var hi, mid, lo := Darkened(c, 0.0), Darkened(c, 1.0 - Ramp(c.h)), Darkened(c, 1.0);
    var ref := (ReferenceChannel(5.0, c), ReferenceChannel(3.0, c), ReferenceChannel(1.0, c));
    ReferenceInSextant(c);
    var o := ToRgb(c);
    assert InSextantOrder(Sextant(c.h), (o.r, o.g, o.b), Top(c), Middle(c), Bottom(c)) by {
      ArrangeBySextant(c.h, Top(c), Middle(c), Bottom(c));
    }
    TopApproximates(c);
    MiddleApproximates(c);
    BottomApproximates(c);
    SameOrderApproximates(Sextant(c.h), (o.r, o.g, o.b), Top(c), Middle(c), Bottom(c), ref, hi, mid, lo);
  }

  /** The triple `t` lists the brightest, middle and darkest of three values
      in the channel order (red, green, blue) of sextant i. */
  ghost predicate InSextantOrder<T>(i: nat, t: (T, T, T), hi: T, mid: T, lo: T) {
    match i
    case 0 => t == (hi, mid, lo)
    case 1 => t == (mid, hi, lo)
    case 2 => t == (lo, hi, mid)
    case 3 => t == (lo, mid, hi)
    case 4 => t == (mid, lo, hi)
    case _ => t == (hi, lo, mid)
  }

  /** Bytes and reals listed in the same sextant order keep the per-level
      approximation channel by channel. */
  lemma SameOrderApproximates(i: nat, o: (Byte, Byte, Byte), top: Byte, middle: Byte, bottom: Byte,
                              ref: (real, real, real), hi: real, mid: real, lo: real)
    requires InSextantOrder(i, o, top, middle, bottom) && InSextantOrder(i, ref, hi, mid, lo)
    requires top as real <= 255.0 * hi < top as real + 1.0
    requires middle as real <= 255.0 * mid < middle as real + 2.0
    requires bottom as real <= 255.0 * lo < bottom as real + 1.0
    ensures o.0 as real <= 255.0 * ref.0 < o.0 as real + 2.0
    ensures o.1 as real <= 255.0 * ref.1 < o.1 as real + 2.0
    ensures o.2 as real <= 255.0 * ref.2 < o.2 as real + 2.0
  {}
}
