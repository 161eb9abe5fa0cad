/** From a pixel value to an index in the colour table. */
module Stretch {
  import opened Pixels
  import opened Quotients

  datatype StretchKind = Linear | Log | Pow | Sqrt | Square

  /** What the mathematics library provides. */
  datatype Curves = Curves(log10: real -> real, pow: (real, real) -> real, sqrt: real -> real)

  /** The base of the logarithm and power stretches, and its logarithm. */
  const BASE := 1000.0
  const LOG_BASE := 3.0

  ghost predicate ProperLog(log10: real -> real) {
    && log10(1.0) == 0.0 && log10(BASE) == LOG_BASE
    && forall x: real, y: real | 1.0 <= x <= y :: log10(x) <= log10(y)
  }

  ghost predicate ProperPow(pow: (real, real) -> real) {
    && pow(BASE, 0.0) == 1.0 && pow(BASE, 1.0) == BASE
    && forall x: real, y: real | 0.0 <= x <= y :: pow(BASE, x) <= pow(BASE, y)
  }

  ghost predicate ProperRoot(sqrt: real -> real) {
    forall x: real | x >= 0.0 :: sqrt(x) >= 0.0 && sqrt(x) * sqrt(x) == x
  }

  ghost predicate Proper(c: Curves) {
    ProperLog(c.log10) && ProperPow(c.pow) && ProperRoot(c.sqrt)
  }

  function Curve(kind: StretchKind, c: Curves, p: real): real {
    match kind
    case Linear => p
    case Log => c.log10(p * BASE + 1.0) / LOG_BASE
    case Pow => c.pow(BASE, p) / BASE
    case Sqrt => c.sqrt(p)
    case Square => p * p
  }

  lemma CurveIsIncreasing(kind: StretchKind, c: Curves, x: real, y: real)
    requires Proper(c) && 0.0 <= x <= y
    ensures 0.0 <= Curve(kind, c, x) <= Curve(kind, c, y)
  {
    match kind
    case Linear =>
    case Log =>
      assert c.log10(1.0) <= c.log10(x * BASE + 1.0) <= c.log10(y * BASE + 1.0);
    case Pow =>
      assert c.pow(BASE, 0.0) <= c.pow(BASE, x) <= c.pow(BASE, y);
    case Sqrt => SquaresOrdered(c.sqrt(x), c.sqrt(y));
    case Square => SquaresOrdered(x, y);
  }

  /** The position of `v` between `lo` and `hi`, which may be in either order. */
  function Normalized(v: real, lo: real, hi: real): real
    requires lo != hi
  {
    (v - lo) / (hi - lo)
  }

  /** Scale a position, at most one, to the colours and round half up. */
  function Scaled(p: real, minColor: int, maxColor: int): int {
    var q := if p > 1.0 then 1.0 else p;
    (minColor as real + q * (maxColor - minColor) as real + 0.5).Floor
  }

  function PixIndex(kind: StretchKind, c: Curves, v: real, lo: real, hi: real, minColor: int, maxColor: int): int
    requires lo != hi
  {
    var p := Normalized(v, lo, hi);
    if p < 0.0 then 0 else Scaled(Curve(kind, c, p), minColor, maxColor)
  }

  // --------------------------------------------------------------------------- properties

  lemma FractionsOf(a: real, b: real, span: real)
    requires 0.0 <= a <= b <= 1.0 && span >= 0.0
    ensures 0.0 <= a * span <= b * span <= span
  {
    assert (b - a) * span >= 0.0 && (1.0 - b) * span >= 0.0;
  }

  lemma ScaledIsMonotone(p: real, q: real, minColor: int, maxColor: int)
    requires minColor <= maxColor && 0.0 <= p <= q
    ensures minColor <= Scaled(p, minColor, maxColor) <= Scaled(q, minColor, maxColor) <= maxColor
  {
    var span := (maxColor - minColor) as real;
    FractionsOf(if p > 1.0 then 1.0 else p, if q > 1.0 then 1.0 else q, span);
    assert minColor as real + span == maxColor as real;
  }

  lemma NormalizedIsMonotone(v: real, w: real, lo: real, hi: real)
    requires lo < hi && v <= w
    ensures Normalized(v, lo, hi) <= Normalized(w, lo, hi)
  {
    var d := hi - lo;
    var p, q := Normalized(v, lo, hi), Normalized(w, lo, hi);
    assert p * d == v - lo && q * d == w - lo;
    if p > q {
      assert (p - q) * d > 0.0;
    }
  }

  /** Every stretch sends every finite value, whatever the two scale limits, to a colour of the
      palette. All palettes start at colour zero. */
  lemma IndexIsInPalette(kind: StretchKind, c: Curves, v: real, lo: real, hi: real, maxColor: nat)
    requires Proper(c) && lo != hi
    ensures 0 <= PixIndex(kind, c, v, lo, hi, 0, maxColor) <= maxColor
  {
    var p := Normalized(v, lo, hi);
    if p >= 0.0 {
      CurveIsIncreasing(kind, c, p, p);
      ScaledIsMonotone(Curve(kind, c, p), Curve(kind, c, p), 0, maxColor);
    }
  }

  /** With the scale limits in order, a brighter pixel never gets a lower colour. */
  lemma IndexIsMonotone(kind: StretchKind, c: Curves, v: real, w: real, lo: real, hi: real, maxColor: nat)
    requires Proper(c) && lo < hi && v <= w
    ensures PixIndex(kind, c, v, lo, hi, 0, maxColor) <= PixIndex(kind, c, w, lo, hi, 0, maxColor)
  {
    NormalizedIsMonotone(v, w, lo, hi);
    var p, q := Normalized(v, lo, hi), Normalized(w, lo, hi);
    IndexIsInPalette(kind, c, w, lo, hi, maxColor);
    if p >= 0.0 {
      CurveIsIncreasing(kind, c, p, q);
      ScaledIsMonotone(Curve(kind, c, p), Curve(kind, c, q), 0, maxColor);
    }
  }

  /** `y` is the height of the stretch at `p`, told by what the height satisfies. */
  predicate OnCurve(kind: StretchKind, c: Curves, p: real, y: real) {
    match kind
    case Linear => y == p
    case Log => 3.0 * y == c.log10(1000.0 * p + 1.0)
    case Pow => 1000.0 * y == c.pow(1000.0, p)
    case Sqrt => y >= 0.0 && y * y == p
    case Square => y == p * p
  }

  lemma CurveIsUnique(kind: StretchKind, c: Curves, p: real, y: real)
    requires Proper(c) && p >= 0.0 && OnCurve(kind, c, p, y)
    ensures y == Curve(kind, c, p)
  {
    if kind.Sqrt? {
      SquaresOrdered(y, c.sqrt(p));
      SquaresOrdered(c.sqrt(p), y);
    }
  }

  lemma ScaledIsNearest(y: real, maxColor: nat)
    requires 0.0 <= y <= 1.0
    ensures -0.5 < Scaled(y, 0, maxColor) as real - y * maxColor as real <= 0.5
  {
  }

  lemma ScaledIsFull(y: real, maxColor: nat)
    requires y >= 1.0
    ensures Scaled(y, 0, maxColor) == maxColor
  {
  }

  lemma PositionTimes(v: real, lo: real, hi: real)
    requires lo != hi
    ensures Normalized(v, lo, hi) * (hi - lo) == v - lo
  {
  }

  lemma NotZero(x: real, y: real)
    requires x != 0.0 && y != 0.0
    ensures x * y != 0.0
  {
  }

  lemma PositionIsUnique(v: real, lo: real, hi: real, p: real)
    requires lo != hi && p * (hi - lo) == v - lo
    ensures p == Normalized(v, lo, hi)
  {
    hide Normalized;
    var q, d := Normalized(v, lo, hi), hi - lo;
    PositionTimes(v, lo, hi);
    assert p != q ==> (p - q) * d != 0.0 by {
      if p != q {
        NotZero(p - q, d);
      }
    }
    assert (p - q) * d == p * d - q * d;
  }

  /** The colour of a value is the one nearest to its height on the stretch: a value at the fraction `p`
      of the way from one limit to the other gets zero below the first, the last colour where the
      curve reaches one, and otherwise differs from the exact height by at most half a colour,
      rounded up from the middle. */
  lemma IndexIsNearest(kind: StretchKind, c: Curves, v: real, lo: real, hi: real, maxColor: nat, p: real, y: real)
    requires Proper(c) && lo != hi && p * (hi - lo) == v - lo
    requires p >= 0.0 ==> OnCurve(kind, c, p, y)
    ensures var index := PixIndex(kind, c, v, lo, hi, 0, maxColor);
            if p < 0.0 then index == 0
            else if y >= 1.0 then index == maxColor
            else -0.5 < index as real - y * maxColor as real <= 0.5
  {
    hide Normalized, Scaled, Curve, OnCurve;
    PositionIsUnique(v, lo, hi, p);
    if p >= 0.0 {
      CurveIsUnique(kind, c, p, y);
      CurveIsIncreasing(kind, c, p, p);
      if y >= 1.0 {
        ScaledIsFull(y, maxColor);
      } else {
        ScaledIsNearest(y, maxColor);
      }
    }
  }

  /** Every value has a place on every stretch, so that the nearest colour is always determined. */
  lemma PlaceOnCurve(kind: StretchKind, c: Curves, v: real, lo: real, hi: real) returns (p: real, y: real)
    requires Proper(c) && lo != hi
    ensures p * (hi - lo) == v - lo && (p >= 0.0 ==> OnCurve(kind, c, p, y))
  {
    p := (v - lo) / (hi - lo);
    y := if p >= 0.0 then Curve(kind, c, p) else 0.0;
  }

  lemma FullHeight(kind: StretchKind, c: Curves, p: real)
    requires Proper(c) && p >= 1.0
    ensures Curve(kind, c, p) >= 1.0
  {
    match kind
    case Linear =>
    case Log => assert c.log10(BASE) <= c.log10(p * BASE + 1.0);
    case Pow => assert c.pow(BASE, 1.0) <= c.pow(BASE, p);
    case Sqrt => SquaresOrdered(1.0, c.sqrt(p));
    case Square => SquaresOrdered(1.0, p);
  }

  lemma NoHeight(kind: StretchKind, c: Curves)
    requires Proper(c)
    ensures Curve(kind, c, 0.0) == if kind.Pow? then 0.001 else 0.0
  {
    if kind.Sqrt? {
      SquaresOrdered(c.sqrt(0.0), 0.0);
    }
  }

  /** The ends of the scale: at or above the upper limit every stretch shows the last colour, below the
      lower limit colour zero, and at the lower limit too, except that the power stretch already
      shows a thousandth of the range. In between, the linear stretch is off by half a colour at most. */
  lemma EndsOfScale(kind: StretchKind, c: Curves, v: real, lo: real, hi: real, maxColor: nat)
    requires Proper(c) && lo < hi
    ensures var index := PixIndex(kind, c, v, lo, hi, 0, maxColor);
            && (v >= hi ==> index == maxColor)
            && (v < lo ==> index == 0)
            && (v == lo ==> index == if kind.Pow? then (maxColor as real / 1000.0 + 0.5).Floor else 0)
            && (kind.Linear? && lo <= v <= hi ==>
                  -0.5 * (hi - lo) < index as real * (hi - lo) - (v - lo) * maxColor as real <= 0.5 * (hi - lo))
  {
    hide Curve, Scaled, Normalized, Shown;
    PositionTimes(v, lo, hi);
    EndsAt(kind, c, v - lo, Normalized(v, lo, hi), hi - lo, maxColor);
    IndexIsShown(kind, c, v, lo, hi, maxColor);
  }

  /** The index at a fraction `p` of the way. */
  function Shown(kind: StretchKind, c: Curves, p: real, maxColor: nat): int {
    if p < 0.0 then 0 else Scaled(Curve(kind, c, p), 0, maxColor)
  }

  lemma IndexIsShown(kind: StretchKind, c: Curves, v: real, lo: real, hi: real, maxColor: nat)
    requires lo != hi
    ensures PixIndex(kind, c, v, lo, hi, 0, maxColor) == Shown(kind, c, Normalized(v, lo, hi), maxColor)
  {
    hide Normalized, Scaled;
  }

  lemma EndsAt(kind: StretchKind, c: Curves, rise: real, p: real, d: real, maxColor: nat)
    requires Proper(c) && d > 0.0 && p * d == rise
    ensures var index := Shown(kind, c, p, maxColor);
            && (rise >= d ==> index == maxColor)
            && (rise < 0.0 ==> index == 0)
            && (rise == 0.0 ==> index == if kind.Pow? then (maxColor as real / 1000.0 + 0.5).Floor else 0)
            && (kind.Linear? && 0.0 <= rise <= d ==>
                  -0.5 * d < index as real * d - rise * maxColor as real <= 0.5 * d)
  {
    hide Curve, Scaled;
    PositionEnds(p, d, rise);
    if p >= 0.0 {
      CurveIsIncreasing(kind, c, p, p);
      EndsOfCurve(kind, c, p, maxColor);
      if kind.Linear? && rise <= d {
        LinearAt(c, p, maxColor);
        LinearIsNearest(Shown(kind, c, p, maxColor), rise, p, d, maxColor);
      }
    }
  }

  lemma PositionEnds(p: real, d: real, rise: real)
    requires d > 0.0 && p * d == rise
    ensures rise >= d <==> p >= 1.0
    ensures rise <= d <==> p <= 1.0
    ensures rise == 0.0 <==> p == 0.0
    ensures rise < 0.0 <==> p < 0.0
  {
    SpanTimes(p - 1.0, d);
    SpanTimes(p, d);
    assert (p - 1.0) * d == p * d - d;
  }

  lemma SpanTimes(x: real, d: real)
    requires d > 0.0
    ensures x * d >= 0.0 <==> x >= 0.0
    ensures x * d == 0.0 <==> x == 0.0
  {
    if x > 0.0 {
      PositiveTimes(x, d);
    } else if x < 0.0 {
      PositiveTimes(-x, d);
      assert (-x) * d == -(x * d);
    }
  }

  lemma EndsOfCurve(kind: StretchKind, c: Curves, p: real, maxColor: nat)
    requires Proper(c) && p >= 0.0
    ensures p >= 1.0 ==> Scaled(Curve(kind, c, p), 0, maxColor) == maxColor
    ensures p == 0.0 ==>
              Scaled(Curve(kind, c, p), 0, maxColor)
              == if kind.Pow? then (maxColor as real / 1000.0 + 0.5).Floor else 0
  {
    hide Curve;
    if p >= 1.0 {
      FullHeight(kind, c, p);
      ScaledIsFull(Curve(kind, c, p), maxColor);
    } else if p == 0.0 {
      NoHeight(kind, c);
    }
  }

  lemma LinearAt(c: Curves, p: real, maxColor: nat)
    requires 0.0 <= p <= 1.0
    ensures -0.5 < Shown(Linear, c, p, maxColor) as real - p * maxColor as real <= 0.5
  {
    hide Scaled;
    ScaledIsNearest(p, maxColor);
  }

  lemma LinearIsNearest(index: int, rise: real, p: real, d: real, maxColor: nat)
    requires d > 0.0 && p * d == rise
    requires -0.5 < index as real - p * maxColor as real <= 0.5
    ensures -0.5 * d < index as real * d - rise * maxColor as real <= 0.5 * d
  {
    var e := index as real - p * maxColor as real;
    Regroup(index as real, e, p, d, rise, maxColor as real);
    Spread(e, d);
  }

  lemma Spread(e: real, d: real)
    requires -0.5 < e <= 0.5 && d > 0.0
    ensures -0.5 * d < e * d <= 0.5 * d
  {
    assert (e + 0.5) * d > 0.0 && (0.5 - e) * d >= 0.0;
  }

  lemma Regroup(index: real, e: real, p: real, d: real, rise: real, m: real)
    requires p * d == rise && e == index - p * m
    ensures e * d == index * d - rise * m
  {
    assert p * m * d == p * d * m;
  }

  // ------------------------------------------------------------------------- whole pixels

  /** The first unused colour marks pixels without a finite value, the next one saturated pixels. */
  datatype Palette = Palette(minColor: int, maxColor: int, nanColor: int, satColor: int)

  /** Every colour table numbers its colours from zero and its markers right after them. */
  function PaletteOf(maxColor: nat): Palette {
    Palette(0, maxColor, maxColor + 1, maxColor + 2)
  }

  datatype Scale = Scale(kind: StretchKind, curves: Curves, lo: real, hi: real)

  /** The index of a pixel that is not marked as saturated. */
  function DataIndex(pal: Palette, s: Scale, p: Pixel): int {
    if !p.Fin? then pal.nanColor
    else if s.lo == s.hi then 0
    else PixIndex(s.kind, s.curves, p.v, s.lo, s.hi, pal.minColor, pal.maxColor)
  }

  function Shade(pal: Palette, s: Scale, p: Pixel, marked: bool): int {
    if marked then pal.satColor else DataIndex(pal, s, p)
  }

  /** The three kinds of index are told apart: whether the shown index is the saturation marker, the
      non-finite marker or a palette colour says which kind of pixel is shown. */
  lemma MarkersAreDistinct(maxColor: nat, s: Scale, p: Pixel, marked: bool)
    requires Proper(s.curves)
    ensures var pal := PaletteOf(maxColor);
            var index := Shade(pal, s, p, marked);
            && (index == pal.satColor <==> marked)
            && (index == pal.nanColor <==> !marked && !p.Fin?)
            && (0 <= index <= maxColor <==> !marked && p.Fin?)
  {
    if p.Fin? && s.lo != s.hi {
      IndexIsInPalette(s.kind, s.curves, p.v, s.lo, s.hi, maxColor);
    }
  }
}
