/** The four images that feed the backend (main, dark, mask and saturation mask) and what is read
    from them while a frame is brought in. */
module Sources {
  import opened GlobalStats
  import opened Pixels
  import opened Wrappers

  datatype Source = Source(nx: nat, ny: nat, valid: bool, pixels: seq<Pixel>)

  datatype Images = Images(main: Option<Source>, dark: Option<Source>, mask: Option<Source>, sat: Option<Source>)

  const NO_IMAGES := Images(None, None, None, None)

  predicate Full(image: Option<Source>) {
    image.Some? ==> |image.value.pixels| == image.value.nx * image.value.ny
  }

  /** Every source holds as many pixels as it says; it may say that there are none. */
  predicate Sized(images: Images) {
    Full(images.main) && Full(images.dark) && Full(images.mask) && Full(images.sat)
  }

  predicate ImageValid(image: Option<Source>) {
    image.Some? && image.value.valid
  }

  predicate Matches(image: Option<Source>, nx: nat, ny: nat) {
    image.Some? && image.value.nx == nx && image.value.ny == ny
  }

  // ------------------------------------------------------------------------- calibration

  datatype Calibration = NoCal | SubDark | ApplyMask | SubDarkApplyMask

  /** A dark or mask that can be applied to the main image. */
  predicate Applicable(images: Images, image: Option<Source>)
    requires images.main.Some?
  {
    ImageValid(image) && Matches(image, images.main.value.nx, images.main.value.ny)
  }

  predicate UsesDark(cal: Calibration) {
    cal.SubDark? || cal.SubDarkApplyMask?
  }

  predicate UsesMask(cal: Calibration) {
    cal.ApplyMask? || cal.SubDarkApplyMask?
  }

  /** Which calibration applies; None without a valid main image. Each of dark and mask is used exactly
      if it is asked for and can be applied, and the other, if asked for and present, can be too: one
      that is missing is skipped, but one that does not fit or is not valid turns off both. */
  function CalibrationFor(images: Images, subtractDark: bool, applyMask: bool): (r: Option<Calibration>)
    ensures r.Some? <==> ImageValid(images.main)
    ensures r.Some? ==>
              && (UsesDark(r.value) <==>
                  && subtractDark && Applicable(images, images.dark)
                  && (applyMask && images.mask.Some? ==> Applicable(images, images.mask)))
              && (UsesMask(r.value) <==>
                  && applyMask && Applicable(images, images.mask)
                  && (subtractDark && images.dark.Some? ==> Applicable(images, images.dark)))
  {
    if !ImageValid(images.main) then None
    else
      var nx, ny := images.main.value.nx, images.main.value.ny;
      if subtractDark && !applyMask then
        if !Matches(images.dark, nx, ny) || !images.dark.value.valid then Some(NoCal) else Some(SubDark)
      else if !subtractDark && applyMask then
        if !Matches(images.mask, nx, ny) || !images.mask.value.valid then Some(NoCal) else Some(ApplyMask)
      else if subtractDark && applyMask then
        if images.dark.None? && images.mask.None? then Some(NoCal)
        else if images.mask.None? then
          if !Matches(images.dark, nx, ny) || !images.dark.value.valid then Some(NoCal) else Some(SubDark)
        else if images.dark.None? then
          if !Matches(images.mask, nx, ny) || !images.mask.value.valid then Some(NoCal) else Some(ApplyMask)
        else if !Matches(images.dark, nx, ny) || !Matches(images.mask, nx, ny) then Some(NoCal)
        else if images.dark.value.valid && images.mask.value.valid then Some(SubDarkApplyMask)
        else Some(NoCal)
      else Some(NoCal)
  }

  /** Everything that a calibration reads covers the main image. */
  predicate Calibrates(images: Images, cal: Calibration) {
    && Sized(images) && images.main.Some?
    && (UsesDark(cal) ==> Matches(images.dark, images.main.value.nx, images.main.value.ny))
    && (UsesMask(cal) ==> Matches(images.mask, images.main.value.nx, images.main.value.ny))
  }

  function CalibratedPixel(images: Images, cal: Calibration, n: nat): Pixel
    requires Calibrates(images, cal) && n < |images.main.value.pixels|
  {
    var p := images.main.value.pixels[n];
    match cal
    case NoCal => p
    case SubDark => Minus(p, images.dark.value.pixels[n])
    case ApplyMask => Times(p, images.mask.value.pixels[n])
    case SubDarkApplyMask => Times(Minus(p, images.dark.value.pixels[n]), images.mask.value.pixels[n])
  }

  /** The pixel before the mask is applied. */
  predicate Unmasked(images: Images, cal: Calibration, n: nat, p: Pixel)
    requires Calibrates(images, cal) && n < |images.main.value.pixels|
  {
    var main := images.main.value.pixels[n];
    if !UsesDark(cal) then p == main
    else
      var dark := images.dark.value.pixels[n];
      && (main.NaN? || dark.NaN? || (main.PosInf? && dark.PosInf?) || (main.NegInf? && dark.NegInf?) <==> p.NaN?)
      && (p.Fin? ==> main.Fin? && dark.Fin? && p.v + dark.v == main.v)
      && (main.Fin? && dark.Fin? && -FLT_MAX <= main.v - dark.v <= FLT_MAX ==> p.Fin?)
      && (p.PosInf? <==> (main.PosInf? && (dark.Fin? || dark.NegInf?)) || (main.Fin? && dark.NegInf?)
                         || (main.Fin? && dark.Fin? && main.v - dark.v > FLT_MAX))
  }

  /** Calibrating can be undone where it loses nothing: the raw value is the calibrated one plus the
      dark. A mask of one keeps the pixel and a mask of zero makes a finite pixel zero. */
  lemma CalibrationIsUndone(images: Images, cal: Calibration, n: nat)
    requires Calibrates(images, cal) && n < |images.main.value.pixels|
    ensures var q := CalibratedPixel(images, cal, n);
            exists p: Pixel :: Unmasked(images, cal, n, p)
              && (!UsesMask(cal) ==> q == p)
              && (UsesMask(cal) ==>
                    && (p.Fin? && images.mask.value.pixels[n].Fin?
                        && -FLT_MAX <= p.v * images.mask.value.pixels[n].v <= FLT_MAX ==>
                          q == Fin(p.v * images.mask.value.pixels[n].v))
                    && (images.mask.value.pixels[n] == Fin(1.0) ==> q == p)
                    && (images.mask.value.pixels[n] == Fin(0.0) ==> q == if p.Fin? then Fin(0.0) else NaN))
  {
    var main := images.main.value.pixels[n];
    var p := if UsesDark(cal) then Minus(main, images.dark.value.pixels[n]) else main;
    assert Unmasked(images, cal, n, p);
  }

  /** The whole calibrated frame. */
  function CalibratedImage(images: Images, cal: Calibration): (s: seq<Pixel>)
    requires Calibrates(images, cal)
    ensures |s| == |images.main.value.pixels|
    ensures forall n | 0 <= n < |s| :: s[n] == CalibratedPixel(images, cal, n)
  {
    seq(|images.main.value.pixels|, n requires 0 <= n < |images.main.value.pixels| => CalibratedPixel(images, cal, n))
  }

  // -------------------------------------------------------------------------- saturation

  /** A pixel is saturated if the uncalibrated value reaches the level, or if a valid saturation
      mask of the same size is positive there. */
  predicate Saturated(images: Images, satLevel: real, n: nat)
    requires Sized(images) && images.main.Some? && n < |images.main.value.pixels|
  {
    || AtLeast(images.main.value.pixels[n], satLevel)
    || (ImageValid(images.sat) && Matches(images.sat, images.main.value.nx, images.main.value.ny)
        && Positive(images.sat.value.pixels[n]))
  }

  /** The pixels at the saturation level alone. */
  function LevelFlags(images: Images, satLevel: real): (s: seq<bool>)
    requires images.main.Some?
    ensures |s| == |images.main.value.pixels|
    ensures forall n | 0 <= n < |s| :: s[n] == AtLeast(images.main.value.pixels[n], satLevel)
  {
    seq(|images.main.value.pixels|, n requires 0 <= n < |images.main.value.pixels| =>
      AtLeast(images.main.value.pixels[n], satLevel))
  }

  function SaturationFlags(images: Images, satLevel: real): (s: seq<bool>)
    requires Sized(images) && images.main.Some?
    ensures |s| == |images.main.value.pixels|
    ensures forall n | 0 <= n < |s| :: s[n] == Saturated(images, satLevel, n)
  {
    seq(|images.main.value.pixels|, n requires 0 <= n < |images.main.value.pixels| => Saturated(images, satLevel, n))
  }

  function Count(flags: seq<bool>): nat {
    if flags == [] then 0
    else Count(flags[..|flags| - 1]) + if flags[|flags| - 1] then 1 else 0
  }

  lemma {:induction false} CountIsCardinality(flags: seq<bool>)
    ensures Count(flags) == |set n | 0 <= n < |flags| && flags[n]|
  {
    var all := set n | 0 <= n < |flags| && flags[n];
    if flags == [] {
      assert all == {};
    } else {
      var last := |flags| - 1;
      CountIsCardinality(flags[..last]);
      var before := set n | 0 <= n < last && flags[..last][n];
      assert all == if flags[last] then before + {last} else before;
    }
  }

  lemma CountOneMore(flags: seq<bool>, n: nat)
    requires n < |flags|
    ensures Count(flags[..n + 1]) == Count(flags[..n]) + if flags[n] then 1 else 0
  {
    assert flags[..n + 1][..n] == flags[..n];
  }

  /** Setting one more flag counts one more. */
  lemma {:induction false} CountAfterSet(flags: seq<bool>, n: nat)
    requires n < |flags| && !flags[n]
    ensures Count(flags[n := true]) == Count(flags) + 1
  {
    var last := |flags| - 1;
    if n < last {
      CountAfterSet(flags[..last], n);
      assert flags[n := true][..last] == flags[..last][n := true];
    } else {
      assert flags[n := true][..last] == flags[..last];
    }
  }

  /** The calibrated main image, its saturated pixels, and their number. */
  predicate IsFrameOf(images: Images, cal: Option<Calibration>, satLevel: real,
                      raw: seq<Pixel>, sat: seq<bool>, saturated: nat) {
    && cal.Some? && Calibrates(images, cal.value)
    && raw == CalibratedImage(images, cal.value)
    && sat == SaturationFlags(images, satLevel)
    && saturated == Count(sat)
  }

  // ------------------------------------------------------------------------ mask snapshot

  /** Whether there is something to measure; `useMask` asks for a mask of the same size too. */
  function InputStatus(images: Images, sized: bool, nx: nat, ny: nat, useMask: bool): Status {
    if !ImageValid(images.main) || nx == 0 || ny == 0 || !sized then NoImage
    else if !Matches(images.main, nx, ny) then SizeMismatch
    else if !useMask then Valid
    else if !ImageValid(images.mask) then NoMask
    else if !Matches(images.mask, nx, ny) then SizeMismatch
    else Valid
  }

  /** An image that can be brought in. */
  predicate HasPixels(image: Option<Source>) {
    ImageValid(image) && image.value.nx > 0 && image.value.ny > 0
  }

  /** When each status is reported: there is nothing to measure without a valid main image and a frame
      with pixels; else the first thing that does not fit is named, the main image before the mask;
      and only if nothing is wrong is the status valid. */
  lemma InputStatusTells(images: Images, sized: bool, nx: nat, ny: nat, useMask: bool)
    ensures var status := InputStatus(images, sized, nx, ny, useMask);
            var some := ImageValid(images.main) && sized && nx > 0 && ny > 0;
            var fits := some && images.main.value.nx == nx && images.main.value.ny == ny;
            var masked := ImageValid(images.mask);
            var covers := masked && images.mask.value.nx == nx && images.mask.value.ny == ny;
            && (status.NoImage? <==> !some)
            && (status.NoMask? <==> fits && useMask && !masked)
            && (status.SizeMismatch? <==> some && (!fits || (useMask && masked && !covers)))
            && (status.Valid? <==> fits && (useMask ==> covers))
            && (status.NoImage? || status.NoMask? || status.SizeMismatch? || status.Valid?)
  {
  }

  /** The pixels that a mask selects: those where it is exactly one. */
  function Selected(mask: Source): (s: seq<bool>)
    ensures |s| == |mask.pixels|
    ensures forall n | 0 <= n < |s| :: s[n] <==> mask.pixels[n] == Fin(1.0)
  {
    seq(|mask.pixels|, n requires 0 <= n < |mask.pixels| => mask.pixels[n] == Fin(1.0))
  }
}
