/** The image backend: bringing in a frame, filtering, measuring and colouring it. */
module Backend {
  import opened Boxes
  import opened BoxStats
  import opened GlobalStats
  import opened Indexing
  import opened Measure
  import opened Pixels
  import opened Sources
  import opened Stretch
  import opened Wrappers
  import MaskSnapshot
  import Flip

  /** A numerical filter: an image of the given size and a width, to an image of the same size. */
  type Kernel = (seq<Pixel>, nat, nat, real) -> seq<Pixel>

  ghost predicate KeepsSize(k: Kernel) {
    forall s: seq<Pixel>, nx: nat, ny: nat, fw: real :: |k(s, nx, ny, fw)| == |s|
  }

  /** One of the two filters: its kind, if it is not `none`, its width, and its switch. */
  datatype Filter = Filter(apply: bool, kind: Option<Kernel>, fw: real)

  predicate Acts(f: Filter) {
    f.apply && f.kind.Some? && f.fw > 0.0
  }

  function Filtered(f: Filter, s: seq<Pixel>, nx: nat, ny: nat): seq<Pixel> {
    if Acts(f) then f.kind.value(s, nx, ny, f.fw) else s
  }

  /** High-pass first, then low-pass on its result, then the modulation transfer on theirs. */
  function Chain(hp: Filter, lp: Filter, applyMTF: bool, mtf: Kernel, s: seq<Pixel>, nx: nat, ny: nat): seq<Pixel> {
    var r := Filtered(lp, Filtered(hp, s, nx, ny), nx, ny);
    if applyMTF then mtf(r, nx, ny, 0.0) else r
  }

  /** The active buffer has the size of the frame, whatever the filters. */
  lemma ChainKeepsSize(hp: Filter, lp: Filter, applyMTF: bool, mtf: Kernel, s: seq<Pixel>, nx: nat, ny: nat)
    requires hp.kind.Some? ==> KeepsSize(hp.kind.value)
    requires lp.kind.Some? ==> KeepsSize(lp.kind.value)
    requires KeepsSize(mtf)
    ensures |Chain(hp, lp, applyMTF, mtf, s, nx, ny)| == |s|
  {
  }

  /** Each filter acts exactly if it is switched on, is not `none` and has a positive width: the
      high-pass on the frame, the low-pass on what that leaves, and the modulation transfer on what both
      leave. */
  lemma ChainInOrder(hp: Filter, lp: Filter, applyMTF: bool, mtf: Kernel, s: seq<Pixel>, nx: nat, ny: nat)
    ensures var high, low := hp.apply && hp.kind.Some? && hp.fw > 0.0, lp.apply && lp.kind.Some? && lp.fw > 0.0;
            var r := Chain(hp, lp, applyMTF, mtf, s, nx, ny);
            && (!high && !low && !applyMTF ==> r == s)
            && (high && !low && !applyMTF ==> r == hp.kind.value(s, nx, ny, hp.fw))
            && (!high && low && !applyMTF ==> r == lp.kind.value(s, nx, ny, lp.fw))
            && (high && low && !applyMTF ==> r == lp.kind.value(hp.kind.value(s, nx, ny, hp.fw), nx, ny, lp.fw))
            && (applyMTF ==> r == mtf(Chain(hp, lp, false, mtf, s, nx, ny), nx, ny, 0.0))
  {
  }

  /** The pixel at a position of a frame; positions outside are never asked for. */
  function Pick(pixels: seq<Pixel>, n: nat): Pixel {
    if n < |pixels| then pixels[n] else NaN
  }

  predicate Flagged(flags: seq<bool>, n: nat) {
    n < |flags| && flags[n]
  }

  /** The values collected so far, with their extremes, from the two sentinels, and their sum. */
  datatype Running = Running(work: seq<real>, lo: real, hi: real, sum: real)

  predicate Tracks(r: Running) {
    && r.sum == Sum(r.work)
    && (if r.work == [] then r.lo == FLT_MAX && r.hi == -FLT_MAX else r.lo == Least(r.work) && r.hi == Greatest(r.work))
  }

  /** Take one more value into a running measurement. */
  method Collect(v: real, so: Running) returns (r: Running)
    requires Tracks(so) && -FLT_MAX <= v <= FLT_MAX
    ensures r.work == so.work + [v] && Tracks(r)
  {
    OneMore(so.work, v);
    r := Running(so.work + [v], so.lo, so.hi, so.sum + v);
    if v < r.lo {
      r := r.(lo := v);
    }
    if v > r.hi {
      r := r.(hi := v);
    }
  }

  /** Bring the corners of a box into the image, then put them in order. */
  method NormalizeCorners(box: Box, nx: nat, ny: nat) returns (b: Box)
    ensures b == Boxes.Normalized(box, nx, ny) && Normal(b, nx, ny)
  {
    if nx < 2 || ny < 2 {
      return Box(0, 0, 0, 0);
    }
    b := box;
    if b.i0 < 0 {
      b := b.(i0 := 0);
    } else if b.i0 >= nx - 1 {
      b := b.(i0 := nx - 2);
    }
    if b.i1 < 0 {
      b := b.(i1 := 0);
    } else if b.i1 >= nx - 1 {
      b := b.(i1 := nx - 2);
    }
    if b.i0 > b.i1 {
      b := b.(i0 := b.i1, i1 := b.i0);
    }
    if b.j0 < 0 {
      b := b.(j0 := 0);
    } else if b.j0 >= ny - 1 {
      b := b.(j0 := ny - 2);
    }
    if b.j1 <= 0 {
      b := b.(j1 := 0);
    } else if b.j1 >= ny - 1 {
      b := b.(j1 := ny - 2);
    }
    if b.j0 > b.j1 {
      b := b.(j0 := b.j1, j1 := b.j0);
    }
  }

  /** The buffers that the filters write, each with its own size. */
  datatype FilterBuffers = FilterBuffers(hp: array<Pixel>, lp: array<Pixel>, mtf: array<Pixel>)

  datatype FrameValue = FrameValue(raw: array<Pixel>, sat: array<bool>,
                                   rawValues: seq<Pixel>, satValues: seq<bool>, saturated: nat)

  /** What is derived from the frame for display. */
  datatype View = View(minImage: real, maxImage: real, minScale: real, maxScale: real,
                       colorBox: Box, colorBoxMin: real, colorBoxMax: real,
                       statsBox: Box, statsBoxMeasure: BoxMeasure)

  /** The published global statistics and the mask snapshot behind them. */
  datatype Globals = Globals(refresh: bool, input: Status, selection: seq<bool>, stats: Stats)

  datatype ColorMode = User | MinMaxGlobal | MinMaxBox

  class Imager {
    const median: seq<real> -> real
    const mtf: Kernel
    const curves: Curves

    var images: Images

    var subtractDark: bool
    var applyMask: bool
    var satLevel: real
    var hpf: Filter
    var lpf: Filter
    var applyMTF: bool
    var applySatMask: bool
    var stretch: StretchKind
    var palette: Palette
    var autoScale: bool
    var statsBoxOn: bool
    var colormode: ColorMode

    // The frame. Until the first image arrives there are no buffers, shown by `sized`.
    var sized: bool
    var nx: nat
    var ny: nat
    var calDataRaw: array<Pixel>
    var satData: array<bool>
    var saturated: nat
    var filtered: FilterBuffers
    var calData: array<Pixel>
    var qim: array2<int>

    var view: View
    var globals: Globals

    /** The active buffer is one of the four, and every buffer has the size of the frame. */
    ghost predicate Valid()
      reads this
    {
      && (sized <==> nx > 0 && ny > 0)
      && calDataRaw.Length == nx * ny && satData.Length == nx * ny && calData.Length == nx * ny
      && qim.Length0 == nx && qim.Length1 == ny
      && (calData == calDataRaw || calData == filtered.hp || calData == filtered.lp || calData == filtered.mtf)
      && Sized(images)
    }

    /** A frame of the same size keeps its buffers; one of another size has new ones. */
    twostate predicate Reframed()
      reads this
    {
      if (sized, nx, ny) == (old(sized), old(nx), old(ny))
      then (calDataRaw, calData, satData, qim) == (old(calDataRaw), old(calData), old(satData), old(qim))
      else fresh(calDataRaw) && calData == calDataRaw && fresh(satData) && fresh(qim)
    }

    /** What is asked of the numerical filters. */
    ghost predicate FiltersKeepSize()
      reads this
    {
      && (hpf.kind.Some? ==> KeepsSize(hpf.kind.value)) && (lpf.kind.Some? ==> KeepsSize(lpf.kind.value))
      && KeepsSize(mtf)
    }

    ghost function Snap(): MaskSnapshot.Snap
      reads this
    {
      MaskSnapshot.Snap(sized, nx, ny, globals.refresh, globals.input, globals.selection, globals.stats)
    }

    constructor (median: seq<real> -> real, mtf: Kernel, curves: Curves)
      requires KeepsSize(mtf)
      ensures Valid() && FiltersKeepSize() && Snap() == MaskSnapshot.FRESH && Counted()
    {
      this.median, this.mtf, this.curves := median, mtf, curves;
      images := NO_IMAGES;
      subtractDark, applyMask, satLevel := false, false, FLT_MAX;
      hpf, lpf, applyMTF := Filter(false, None, 0.0), Filter(false, None, 0.0), false;
      applySatMask, stretch, palette, autoScale, colormode := false, Linear, PaletteOf(253), false, MinMaxGlobal;
      sized, nx, ny, saturated := false, 0, 0, 0;
      var none := new Pixel[0];
      calDataRaw, calData, filtered := none, none, FilterBuffers(none, none, none);
      satData := new bool[0];
      qim := new int[0, 0];
      statsBoxOn := false;
      view := View(0.0, 0.0, 0.0, 0.0, Box(0, 0, 0, 0), 0.0, 0.0, Box(0, 0, 0, 0), NO_MEASURE);
      globals := Globals(false, Unavailable, [], BLANK);
    }

    // ------------------------------------------------------------------- bringing in a frame

    method Reallocate(size: nat)
      modifies this`calDataRaw, this`calData, this`satData, this`qim
      ensures fresh(calDataRaw) && fresh(satData) && fresh(qim) && calData == calDataRaw
      ensures calDataRaw.Length == satData.Length == size && qim.Length0 == nx && qim.Length1 == ny
    {
      calDataRaw := new Pixel[size];
      calData := calDataRaw;
      satData := new bool[size];
      qim := new int[nx, ny];
    }

    method SetImsize(x: nat, y: nat)
      requires Valid()
      modifies this`sized, this`nx, this`ny, this`calDataRaw, this`calData, this`satData, this`qim
      ensures Valid() && Snap() == MaskSnapshot.Resized(old(Snap()), x, y)
      ensures Reframed()
    {
      var w := if x == 0 then 1 else x;
      var h := if y == 0 then 1 else y;
      if nx != w || ny != h || !sized {
        nx := w;
        ny := h;
        sized := true;
        Reallocate(w * h);
      }
    }

    /** Calibrate every pixel of the main image and mark those at the saturation level. */
    method FillByLevel(cal: Calibration)
      requires Valid() && Calibrates(images, cal) && Matches(images.main, nx, ny)
      modifies this`saturated, calDataRaw, satData
      ensures calDataRaw[..] == CalibratedImage(images, cal)
      ensures satData[..] == LevelFlags(images, satLevel)
      ensures saturated == Count(satData[..])
    {
      ghost var raw, flags := CalibratedImage(images, cal), LevelFlags(images, satLevel);
      saturated := 0;
      var n: nat := 0;
      var total := nx * ny;
      while n < total
        invariant n <= total == calDataRaw.Length == satData.Length == |raw| == |flags|
        invariant forall k: nat | k < n :: calDataRaw[k] == raw[k]
        invariant forall k: nat | k < n :: satData[k] == flags[k]
        invariant saturated == Count(flags[..n])
      {
        CountOneMore(flags, n);
        if AtLeast(images.main.value.pixels[n], satLevel) {
          satData[n] := true;
          saturated := saturated + 1;
        } else {
          satData[n] := false;
        }
        calDataRaw[n] := CalibratedPixel(images, cal, n);
        n := n + 1;
      }
      assert flags[..total] == flags;
      assert satData[..] == flags;
    }

    /** Mark the pixels at which the saturation mask is positive, unless they are marked already. */
    method FillByMask()
      requires Valid() && images.main.Some? && Matches(images.main, nx, ny)
      requires ImageValid(images.sat) && Matches(images.sat, nx, ny)
      requires satData[..] == LevelFlags(images, satLevel) && saturated == Count(satData[..])
      modifies this`saturated, satData
      ensures satData[..] == SaturationFlags(images, satLevel)
      ensures saturated == Count(satData[..])
    {
      ghost var level, flags := LevelFlags(images, satLevel), SaturationFlags(images, satLevel);
      var n: nat := 0;
      var total := nx * ny;
      while n < total
        invariant n <= total == satData.Length == |flags| == |level|
        invariant forall k: nat | k < n :: satData[k] == flags[k]
        invariant forall k: nat | n <= k < total :: satData[k] == level[k]
        invariant saturated == Count(satData[..])
      {
        if Positive(images.sat.value.pixels[n]) && satData[n] == false {
          CountAfterSet(satData[..], n);
          ghost var before := satData[..];
          satData[n] := true;
          assert satData[..] == before[n := true];
          saturated := saturated + 1;
        }
        n := n + 1;
      }
    }

    method Fill(cal: Calibration)
      requires Valid() && Calibrates(images, cal) && Matches(images.main, nx, ny)
      modifies this`saturated, calDataRaw, satData
      ensures calDataRaw[..] == CalibratedImage(images, cal)
      ensures satData[..] == SaturationFlags(images, satLevel)
      ensures saturated == Count(satData[..])
    {
      FillByLevel(cal);
      if ImageValid(images.sat) {
        if Matches(images.sat, nx, ny) {
          FillByMask();
          return;
        }
      }
      assert satData[..] == SaturationFlags(images, satLevel);
    }

    method SnapshotGlobalStats()
      requires Valid()
      modifies this`globals
      ensures Snap() == MaskSnapshot.Snapshot(old(Snap()), images)
    {
      globals := globals.(input := InputStatus(images, sized, nx, ny, globals.stats.useMask));
      globals := globals.(selection := []);
      if globals.input != Status.Valid || !globals.stats.useMask {
        return;
      }
      ghost var start := globals;
      var n: nat := 0;
      var count := nx * ny;
      while n < count
        invariant n <= count == |images.mask.value.pixels|
        invariant globals == start.(selection := globals.selection)
        invariant |globals.selection| == n
        invariant forall k | 0 <= k < n :: globals.selection[k] <==> images.mask.value.pixels[k] == Fin(1.0)
      {
        globals := globals.(selection := globals.selection + [images.mask.value.pixels[n] == Fin(1.0)]);
        n := n + 1;
      }
      assert globals.selection == Selected(images.mask.value);
    }

    // --------------------------------------------------------------------- the active buffer

    method Buffer(s: seq<Pixel>) returns (a: array<Pixel>)
      ensures fresh(a) && a[..] == s
    {
      a := new Pixel[|s|](i requires 0 <= i < |s| => s[i]);
    }

    /** High-pass and low-pass, either of them or neither; the result is the active buffer. */
    method ApplySpatial(doHP: bool, doLP: bool)
      requires Valid() && (doHP ==> hpf.kind.Some?) && (doLP ==> lpf.kind.Some?)
      modifies this`filtered, this`calData
      ensures calData == calDataRaw || (fresh(calData) && (calData == filtered.hp || calData == filtered.lp))
      ensures var hp := if doHP then hpf.kind.value(calDataRaw[..], nx, ny, hpf.fw) else calDataRaw[..];
              calData[..] == if doLP then lpf.kind.value(hp, nx, ny, lpf.fw) else hp
    {
      if doHP {
        var high := Buffer(hpf.kind.value(calDataRaw[..], nx, ny, hpf.fw));
        filtered := filtered.(hp := high);
        if doLP {
          var low := Buffer(lpf.kind.value(filtered.hp[..], nx, ny, lpf.fw));
          filtered := filtered.(lp := low);
          calData := filtered.lp;
        } else {
          calData := filtered.hp;
        }
      } else if doLP {
        var low := Buffer(lpf.kind.value(calDataRaw[..], nx, ny, lpf.fw));
        filtered := filtered.(lp := low);
        calData := filtered.lp;
      } else {
        calData := calDataRaw;
      }
    }

    method ApplyTransfer()
      modifies this`filtered, this`calData
      ensures calData == filtered.mtf && fresh(calData)
      ensures calData[..] == mtf(old(calData[..]), nx, ny, 0.0)
    {
      var transfer := Buffer(mtf(calData[..], nx, ny, 0.0));
      filtered := filtered.(mtf := transfer);
      calData := filtered.mtf;
    }

    method ApplyFilter()
      requires Valid() && FiltersKeepSize()
      modifies this`filtered, this`calData
      ensures Valid() && (calData == calDataRaw || fresh(calData))
      ensures calData[..] == Chain(hpf, lpf, applyMTF, mtf, calDataRaw[..], nx, ny)
    {
      hide KeepsSize;
      ChainKeepsSize(hpf, lpf, applyMTF, mtf, calDataRaw[..], nx, ny);
      var doHP := hpf.apply && hpf.kind != None && hpf.fw > 0.0;
      var doLP := lpf.apply && lpf.kind != None && lpf.fw > 0.0;
      if !(doHP || doLP || applyMTF) {
        calData := calDataRaw;
        return;
      }
      ApplySpatial(doHP, doLP);
      if applyMTF {
        ApplyTransfer();
      }
    }

    // ----------------------------------------------------------------------------- measuring

    /** The pixel shown at column `i`, row `j`. */
    method CalPixel(i: nat, j: nat) returns (p: Pixel)
      requires Valid() && i < nx && j < ny
      ensures Index(i, j, nx) < calData.Length && p == calData[Index(i, j, nx)]
    {
      InRange(i, j, nx, ny);
      p := calData[Index(i, j, nx)];
    }

    /** Visit one pixel of a scan; `seen` are the positions visited before. */
    method ScanPixel(ghost seen: set<nat>, i: nat, j: nat, lo: real, hi: real) returns (lo': real, hi': real)
      requires Valid() && i < nx && j < ny && ScanResult(calData[..], seen, lo, hi)
      ensures ScanResult(calData[..], seen + {Index(i, j, nx)}, lo', hi')
    {
      var p := CalPixel(i, j);
      ScanStep(calData[..], seen, Index(i, j, nx), lo, hi);
      lo', hi' := lo, hi;
      if !p.Fin? {
        return;
      }
      if p.v < lo {
        lo' := p.v;
      }
      if p.v > hi {
        hi' := p.v;
      }
    }

    method ScanRow(ghost seen: set<nat>, i0: nat, i1: nat, j: nat, lo: real, hi: real) returns (lo': real, hi': real)
      requires Valid() && i0 <= i1 <= nx && j < ny && ScanResult(calData[..], seen, lo, hi)
      ensures ScanResult(calData[..], seen + Patch(i0, i1, j, j + 1, nx), lo', hi')
    {
      lo', hi' := lo, hi;
      var i: nat := i0;
      NextInRow(seen, i0, i0, j, nx);
      while i < i1
        invariant i0 <= i <= i1
        invariant ScanResult(calData[..], seen + Patch(i0, i, j, j + 1, nx), lo', hi')
      {
        NextInRow(seen, i0, i, j, nx);
        lo', hi' := ScanPixel(seen + Patch(i0, i, j, j + 1, nx), i, j, lo', hi');
        i := i + 1;
      }
    }

    method ScanColumn(ghost seen: set<nat>, i: nat, j0: nat, j1: nat, lo: real, hi: real) returns (lo': real, hi': real)
      requires Valid() && i < nx && j0 <= j1 <= ny && ScanResult(calData[..], seen, lo, hi)
      ensures ScanResult(calData[..], seen + Patch(i, i + 1, j0, j1, nx), lo', hi')
    {
      lo', hi' := lo, hi;
      var j: nat := j0;
      NextInColumn(seen, i, j0, j0, nx);
      while j < j1
        invariant j0 <= j <= j1
        invariant ScanResult(calData[..], seen + Patch(i, i + 1, j0, j, nx), lo', hi')
      {
        NextInColumn(seen, i, j0, j, nx);
        lo', hi' := ScanPixel(seen + Patch(i, i + 1, j0, j, nx), i, j, lo', hi');
        j := j + 1;
      }
    }

    /** Row by row, as an image pass visits the whole frame and the colour box. */
    method ScanByRows(i0: nat, i1: nat, j0: nat, j1: nat) returns (lo: real, hi: real)
      requires Valid() && i0 <= i1 <= nx && j0 <= j1 <= ny
      ensures ScanResult(calData[..], Patch(i0, i1, j0, j1, nx), lo, hi)
    {
      lo, hi := FLT_MAX, -FLT_MAX;
      var j: nat := j0;
      while j < j1
        invariant j0 <= j <= j1
        invariant ScanResult(calData[..], Patch(i0, i1, j0, j, nx), lo, hi)
      {
        PatchGainsRow(i0, i1, j0, j, nx);
        lo, hi := ScanRow(Patch(i0, i1, j0, j, nx), i0, i1, j, lo, hi);
        j := j + 1;
      }
    }

    /** Column by column, as a change of colour mode visits the colour box. */
    method ScanByColumns(i0: nat, i1: nat, j0: nat, j1: nat) returns (lo: real, hi: real)
      requires Valid() && i0 <= i1 <= nx && j0 <= j1 <= ny
      ensures ScanResult(calData[..], Patch(i0, i1, j0, j1, nx), lo, hi)
    {
      lo, hi := FLT_MAX, -FLT_MAX;
      var i: nat := i0;
      while i < i1
        invariant i0 <= i <= i1
        invariant ScanResult(calData[..], Patch(i0, i, j0, j1, nx), lo, hi)
      {
        PatchGainsColumn(i0, i, j0, j1, nx);
        lo, hi := ScanColumn(Patch(i0, i, j0, j1, nx), i, j0, j1, lo, hi);
        i := i + 1;
      }
    }

    method NormalizeColorBox()
      modifies this`view
      ensures view == old(view).(colorBox := Boxes.Normalized(old(view).colorBox, nx, ny))
      ensures Normal(view.colorBox, nx, ny)
    {
      var box := NormalizeCorners(view.colorBox, nx, ny);
      view := view.(colorBox := box);
    }

    method NormalizeStatsBox()
      modifies this`view
      ensures view == old(view).(statsBox := Boxes.Normalized(old(view).statsBox, nx, ny))
      ensures Normal(view.statsBox, nx, ny)
    {
      var box := NormalizeCorners(view.statsBox, nx, ny);
      view := view.(statsBox := box);
    }

    method CalcStatsBox()
      requires Valid()
      modifies this`view
      ensures view == if !statsBoxOn then old(view)
                      else if nx < 2 || ny < 2 then old(view).(statsBoxMeasure := NO_MEASURE)
                      else
                        var box := Boxes.Normalized(old(view).statsBox, nx, ny);
                        old(view).(statsBox := box, statsBoxMeasure := BoxMeasured(calData[..], nx, box, median))
    {
      if !statsBoxOn {
        return;
      }
      if nx < 2 || ny < 2 {
        view := view.(statsBoxMeasure := NO_MEASURE);
        return;
      }
      NormalizeStatsBox();
      var m := MeasureBox(view.statsBox);
      view := view.(statsBoxMeasure := m);
    }

    method Finish(r: Running) returns (m: BoxMeasure)
      requires Tracks(r)
      ensures m == MeasureOf(r.work, median)
    {
      if |r.work| == 0 {
        return NO_MEASURE;
      }
      return BoxMeasure(r.lo, r.hi, r.sum / |r.work| as real, median(r.work));
    }

    method MeasureBox(box: Box) returns (m: BoxMeasure)
      requires Valid() && nx >= 2 && ny >= 2 && Normal(box, nx, ny)
      ensures m == BoxMeasured(calData[..], nx, box, median)
    {
      hide Tracks, MeasureOf, PatchValues;
      var r := CollectRows(box.i0, box.i1 + 1, box.j0, box.j1 + 1);
      m := Finish(r);
    }

    method CollectPixel(i: nat, j: nat, ghost n: nat, so: Running) returns (r: Running)
      requires Valid() && i < nx && j < ny && n == Index(i, j, nx) && Tracks(so)
      ensures r.work == so.work + Value(calData[..], n) && Tracks(r)
    {
      var p := CalPixel(i, j);
      r := so;
      if p.Fin? {
        r := Collect(p.v, so);
      }
    }

    method CollectRow(i0: nat, i1: nat, j: nat, so: Running) returns (r: Running)
      requires Valid() && i0 <= i1 <= nx && j < ny && Tracks(so)
      ensures r.work == RowValues(so.work, calData[..], Index(i0, j, nx), Index(i1, j, nx)) && Tracks(r)
    {
      r := so;
      var i: nat := i0;
      ghost var pixels, first, n := calData[..], Index(i0, j, nx), Index(i0, j, nx);
      while i < i1
        invariant i0 <= i <= i1
        invariant n == first + (i - i0) == Index(i, j, nx)
        invariant r.work == RowValues(so.work, pixels, first, n)
        invariant Tracks(r)
      {
        NextValue(so.work, pixels, first, n);
        r := CollectPixel(i, j, n, r);
        i, n := i + 1, n + 1;
      }
    }

    method CollectRows(i0: nat, i1: nat, j0: nat, j1: nat) returns (r: Running)
      requires Valid() && i0 <= i1 <= nx && j0 <= j1 <= ny
      ensures r.work == PatchValues(calData[..], nx, i0, i1, j0, j1) && Tracks(r)
    {
      ghost var pixels := calData[..];
      r := Running([], FLT_MAX, -FLT_MAX, 0.0);
      var j: nat := j0;
      while j < j1
        invariant j0 <= j <= j1
        invariant r.work == PatchValues(pixels, nx, i0, i1, j0, j) && Tracks(r)
      {
        r := CollectRow(i0, i1, j, r);
        j := j + 1;
      }
    }

    method CalcGlobalStats()
      requires Valid() && (globals.input.Valid? && globals.stats.useMask ==> |globals.selection| >= nx * ny)
      modifies this`globals
      ensures Some(Snap()) == MaskSnapshot.Calculate(old(Snap()), calData[..], median)
    {
      var useMask := globals.stats.useMask;
      var result := Cleared(true, useMask, globals.input);
      if result.status.Valid? {
        var work, lo, hi, sum := CollectSelected(useMask);
        if |work| > 0 {
          result := result.(count := |work|, min := lo, max := hi,
                            mean := sum / |work| as real, median := median(work));
        } else {
          result := result.(status := Empty);
        }
      }
      globals := globals.(stats := result);
    }

    method CollectSelected(useMask: bool) returns (work: seq<real>, lo: real, hi: real, sum: real)
      requires Valid() && (useMask ==> |globals.selection| >= nx * ny)
      ensures work == Values(calData[..], globals.selection, useMask, nx * ny)
      ensures sum == Sum(work)
      ensures work != [] ==> lo == Least(work) && hi == Greatest(work)
    {
      hide Least, Greatest, Lower, Upper;
      ghost var pixels := calData[..];
      work, lo, hi, sum := [], 0.0, 0.0, 0.0;
      var n: nat := 0;
      var count := nx * ny;
      while n < count
        invariant n <= count == |pixels|
        invariant work == Values(pixels, globals.selection, useMask, n)
        invariant sum == Sum(work)
        invariant work != [] ==> lo == Least(work) && hi == Greatest(work)
      {
        if (!useMask || globals.selection[n]) && calData[n].Fin? {
          var value := calData[n].v;
          OneMore(work, value);
          if |work| == 0 {
            lo, hi := value, value;
          } else {
            lo, hi := Lower(lo, value), Upper(hi, value);
          }
          sum := sum + value;
          work := work + [value];
        }
        n := n + 1;
      }
    }

    // ----------------------------------------------------------------------------- colouring

    function CurrentScale(): Scale
      reads this
    {
      Scale(stretch, curves, view.minScale, view.maxScale)
    }

    method PaintData()
      requires Valid()
      modifies qim
      ensures forall x: nat, r: nat | x < nx && r < ny ::
                qim[x, r] == DataIndex(palette, CurrentScale(), Pick(calData[..], Flip.Position(x, r, nx, ny)))
    {
      ghost var pixels := calData[..];
      ghost var scale := CurrentScale();
      var i: nat := 0;
      while i < ny
        invariant i <= ny
        invariant forall x: nat, r: nat | x < nx && ny - i <= r < ny ::
                    qim[x, r] == DataIndex(palette, scale, Pick(pixels, Flip.Position(x, r, nx, ny)))
      {
        var j: nat := 0;
        while j < nx
          invariant j <= nx
          invariant forall x: nat, r: nat | x < nx && ny - i <= r < ny ::
                      qim[x, r] == DataIndex(palette, scale, Pick(pixels, Flip.Position(x, r, nx, ny)))
          invariant forall x: nat, r: nat | x < j && r == ny - i - 1 ::
                      qim[x, r] == DataIndex(palette, scale, Pick(pixels, Flip.Position(x, r, nx, ny)))
        {
          var p := CalPixel(j, i);
          if !p.Fin? {
            qim[j, ny - i - 1] := palette.nanColor;
          } else if view.minScale == view.maxScale {
            qim[j, ny - i - 1] := 0;
          } else {
            qim[j, ny - i - 1] :=
              PixIndex(stretch, curves, p.v, view.minScale, view.maxScale, palette.minColor, palette.maxColor);
          }
          j := j + 1;
        }
        i := i + 1;
      }
    }

    method PaintSaturated()
      requires Valid()
      modifies qim
      ensures forall x: nat, r: nat | x < nx && r < ny ::
                qim[x, r] == if Flagged(satData[..], Flip.Position(x, r, nx, ny)) then palette.satColor
                             else old(qim[x, r])
    {
      ghost var flags := satData[..];
      var j: nat := 0;
      while j < ny
        invariant j <= ny
        invariant forall x: nat, r: nat | x < nx && r < ny - j :: qim[x, r] == old(qim[x, r])
        invariant forall x: nat, r: nat | x < nx && ny - j <= r < ny ::
                    qim[x, r] == if Flagged(flags, Flip.Position(x, r, nx, ny)) then palette.satColor
                                 else old(qim[x, r])
      {
        var i: nat := 0;
        while i < nx
          invariant i <= nx
          invariant forall x: nat, r: nat | x < nx && (r < ny - j - 1 || (r == ny - j - 1 && x >= i)) ::
                      qim[x, r] == old(qim[x, r])
          invariant forall x: nat, r: nat | x < nx && r < ny && (ny - j <= r || (r == ny - j - 1 && x < i)) ::
                      qim[x, r] == if Flagged(flags, Flip.Position(x, r, nx, ny)) then palette.satColor
                                 else old(qim[x, r])
        {
          InRange(i, j, nx, ny);
          if satData[Index(i, j, nx)] {
            qim[i, ny - j - 1] := palette.satColor;
          }
          i := i + 1;
        }
        j := j + 1;
      }
    }

    /** The screen shows the active buffer, upside down, with markers over it. */
    ghost predicate Painted()
      requires Valid()
      reads this, qim, calData, satData
    {
      forall x: nat, r: nat | x < nx && r < ny ::
        qim[x, r] == Shade(palette, CurrentScale(), Pick(calData[..], Flip.Position(x, r, nx, ny)),
                           applySatMask && Flagged(satData[..], Flip.Position(x, r, nx, ny)))
    }

    method RecolorImpl()
      requires Valid()
      modifies qim
      ensures sized ==> Painted()
    {
      if !sized {
        return;
      }
      PaintData();
      if applySatMask {
        PaintSaturated();
      }
    }

    /** The scale limits are the extremes of the colour box in box mode; otherwise those of the whole
        frame after a resize or when scaling is automatic; otherwise what they were. */
    ghost predicate Scaled(before: View, resized: bool)
      reads this, calData
    {
      if colormode.MinMaxBox? then
        && view.colorBox == Boxes.Normalized(before.colorBox, nx, ny) && Normal(view.colorBox, nx, ny)
        && ScanResult(calData[..], Area(view.colorBox, nx), view.minScale, view.maxScale)
        && view.colorBoxMin == view.minScale && view.colorBoxMax == view.maxScale
      else
        && (view.minScale, view.maxScale)
           == (if resized || autoScale then (view.minImage, view.maxImage) else (before.minScale, before.maxScale))
        && (view.colorBox, view.colorBoxMin, view.colorBoxMax)
           == (before.colorBox, before.colorBoxMin, before.colorBoxMax)
    }

    /** The scale follows the whole frame, the colour box, or nothing. */
    method Rescale(resized: bool)
      requires Valid() && sized
      modifies this`view
      ensures Scaled(old(view), resized)
      ensures (view.minImage, view.maxImage) == (old(view).minImage, old(view).maxImage)
      ensures (view.statsBox, view.statsBoxMeasure) == (old(view).statsBox, old(view).statsBoxMeasure)
    {
      if (resized || autoScale) && colormode != MinMaxBox {
        view := view.(minScale := view.minImage);
        view := view.(maxScale := view.maxImage);
      } else if colormode == MinMaxBox {
        NormalizeColorBox();
        var lo, hi := ScanColorBox();
        view := view.(colorBoxMin := lo, colorBoxMax := hi);
        view := view.(minScale := lo, maxScale := hi);
      }
    }

    method ScanColorBox() returns (lo: real, hi: real)
      requires Valid() && sized && Normal(view.colorBox, nx, ny)
      ensures ScanResult(calData[..], Area(view.colorBox, nx), lo, hi)
    {
      var box := view.colorBox;
      lo, hi := ScanByRows(box.i0, box.i1 + 1, box.j0, box.j1 + 1);
    }

    // -------------------------------------------------------------------------- a whole pass

    /** The frame already has the size of the main image. */
    ghost predicate FrameFits()
      reads this
    {
      sized && Matches(images.main, nx, ny)
    }

    /** Check that there is a main image, and make the frame fit it; an image without pixels is
        given a frame that still does not fit. */
    method Fit() returns (fits: bool, resized: bool)
      requires Valid()
      modifies this`sized, this`nx, this`ny, this`calDataRaw, this`calData, this`satData, this`qim
      ensures Valid()
      ensures Reframed()
      ensures fits <==> HasPixels(images.main)
      ensures fits ==> sized && Matches(images.main, nx, ny)
      ensures Snap() == if ImageValid(images.main) then MaskSnapshot.Fitted(old(Snap()), images) else old(Snap())
      ensures resized <==> ImageValid(images.main) && !old(FrameFits())
    {
      fits, resized := false, false;
      if !ImageValid(images.main) {
        return;
      }
      var main := images.main.value;
      if main.nx != nx || main.ny != ny || !sized {
        SetImsize(main.nx, main.ny);
        resized := true;
      }
      fits := nx == main.nx && ny == main.ny;
    }

    /** Copy the fitting main image into the frame. */
    method Load()
      requires Valid() && ImageValid(images.main) && Matches(images.main, nx, ny)
      modifies this`saturated, this`globals, calDataRaw, satData
      ensures Snap() == MaskSnapshot.Loaded(old(Snap()), images)
      ensures Holds()
    {
      Fill(CalibrationFor(images, subtractDark, applyMask).value);
      if globals.stats.enabled {
        SnapshotGlobalStats();
        globals := globals.(refresh := false);
      }
    }

    /** The counter is the number of marked pixels. */
    ghost predicate Counted()
      reads this`saturated, this`satData, satData
    {
      saturated == Count(satData[..])
    }

    /** The frame holds the present main image: calibrated, and with its saturated pixels marked and
        counted. */
    ghost predicate Holds()
      reads this`images, this`subtractDark, this`applyMask, this`satLevel, this`nx, this`ny
      reads this`saturated, this`calDataRaw, this`satData, calDataRaw, satData
    {
      && Matches(images.main, nx, ny)
      && IsFrameOf(images, CalibrationFor(images, subtractDark, applyMask), satLevel,
                   calDataRaw[..], satData[..], saturated)
    }

    /** The calibrated frame and its saturation marks: the buffers and what they hold. */
    ghost function Frame(): FrameValue
      reads this`calDataRaw, this`satData, this`saturated, calDataRaw, satData
    {
      FrameValue(calDataRaw, satData, calDataRaw[..], satData[..], saturated)
    }

    /** Unless the frame was replaced, it holds and shows what it did before. */
    twostate predicate Untouched()
      reads this, calDataRaw, calData, satData, qim
    {
      && saturated == old(saturated)
      && (calDataRaw == old(calDataRaw) ==>
            && Frame() == old(Frame()) && calData == old(calData) && calData[..] == old(calData[..]) && qim == old(qim))
    }

    /** The part of a pass under the unique lock. */
    method BringIn() returns (ready: bool, resized: bool)
      requires Valid()
      modifies this`sized, this`nx, this`ny, this`calDataRaw, this`calData, this`satData, this`qim, this`saturated
      modifies this`globals, calDataRaw, satData
      ensures Valid()
      ensures Reframed()
      ensures MaskSnapshot.TakeIn(old(Snap()), images) ==
              if ready then MaskSnapshot.Ready(Snap()) else MaskSnapshot.Abandoned(Snap())
      ensures ready <==> HasPixels(images.main)
      ensures ready ==> sized && Holds()
      ensures resized <==> ImageValid(images.main) && !old(FrameFits())
      ensures !ready ==> Untouched()
      ensures old(Counted()) && !MaskSnapshot.Outsizes(old(Snap()), images) ==> Counted()
    {
      ready, resized := Fit();
      if !ready {
        return;
      }
      Load();
    }

    /** A new frame is brought in on request, or when a statistics refresh is due. */
    method Intake(newdata: bool) returns (ready: bool, resized: bool)
      requires Valid()
      modifies this`sized, this`nx, this`ny, this`calDataRaw, this`calData, this`satData, this`qim, this`saturated
      modifies this`globals, calDataRaw, satData
      ensures Valid()
      ensures Reframed()
      ensures (if newdata || old(globals.refresh) then MaskSnapshot.TakeIn(old(Snap()), images)
               else MaskSnapshot.Ready(old(Snap())))
              == if ready then MaskSnapshot.Ready(Snap()) else MaskSnapshot.Abandoned(Snap())
      ensures newdata || old(globals.refresh) ==> (ready <==> HasPixels(images.main)) && (ready ==> sized && Holds())
      ensures !newdata && !old(globals.refresh) ==> ready && Frame() == old(Frame())
      ensures resized <==> (newdata || old(globals.refresh)) && ImageValid(images.main) && !old(FrameFits())
      ensures !ready || !sized ==> Untouched()
      ensures old(Counted()) && !((newdata || old(globals.refresh)) && MaskSnapshot.Outsizes(old(Snap()), images)) ==>
                Counted()
    {
      ready, resized := true, false;
      if newdata || globals.refresh {
        ready, resized := BringIn();
      }
    }

    /** Point at what is to be shown and take its extremes. */
    method Prepare()
      requires Valid() && FiltersKeepSize()
      modifies this`filtered, this`calData, this`view
      ensures Valid() && (calData == calDataRaw || fresh(calData))
      ensures Prepared()
      ensures view == old(view).(minImage := view.minImage, maxImage := view.maxImage)
    {
      if hpf.apply || lpf.apply || applyMTF {
        ApplyFilter();
      } else {
        calData := calDataRaw;
      }
      var lo, hi := ScanByRows(0, nx, 0, ny);
      view := view.(minImage := lo, maxImage := hi);
    }

    /** If box statistics are on, they are those of the box as it is normalized. */
    ghost predicate Boxed(before: View)
      reads this, calData
    {
      if !statsBoxOn then (view.statsBox, view.statsBoxMeasure) == (before.statsBox, before.statsBoxMeasure)
      else if nx < 2 || ny < 2 then (view.statsBox, view.statsBoxMeasure) == (before.statsBox, NO_MEASURE)
      else
        && view.statsBox == Boxes.Normalized(before.statsBox, nx, ny) && Normal(view.statsBox, nx, ny)
        && view.statsBoxMeasure == BoxMeasured(calData[..], nx, view.statsBox, median)
    }

    method MeasureBoxes(resized: bool)
      requires Valid() && sized
      modifies this`view
      ensures Scaled(old(view), resized) && Boxed(old(view))
      ensures (view.minImage, view.maxImage) == (old(view).minImage, old(view).maxImage)
    {
      Rescale(resized);
      if statsBoxOn {
        CalcStatsBox();
      }
    }

    /** The scale, the box and the global statistics of what is to be shown. */
    method MeasureShown(resized: bool)
      requires Valid() && sized
      requires globals.stats.enabled && globals.input.Valid? && globals.stats.useMask ==> |globals.selection| >= nx * ny
      modifies this`view, this`globals
      ensures Some(Snap()) ==
              if old(globals.stats).enabled then MaskSnapshot.Calculate(old(Snap()), calData[..], median)
              else Some(old(Snap()))
      ensures Scaled(old(view), resized) && Boxed(old(view))
      ensures (view.minImage, view.maxImage) == (old(view).minImage, old(view).maxImage)
    {
      ghost var before := Snap();
      MeasureBoxes(resized);
      assert Snap() == before;
      if globals.stats.enabled {
        CalcGlobalStats();
      }
    }

    /** The active buffer is the filtered frame, and the image extremes are its own. */
    ghost predicate Prepared()
      reads this, calData, calDataRaw
    {
      && calData[..] == Chain(hpf, lpf, applyMTF, mtf, calDataRaw[..], nx, ny)
      && ScanResult(calData[..], Patch(0, nx, 0, ny, nx), view.minImage, view.maxImage)
    }

    /** The part of a pass under the shared lock. */
    method Show(resized: bool)
      requires Valid() && FiltersKeepSize() && sized
      requires globals.stats.enabled && globals.input.Valid? && globals.stats.useMask ==> |globals.selection| >= nx * ny
      modifies this`filtered, this`calData, this`view, this`globals, qim
      ensures Valid() && (calData == calDataRaw || fresh(calData))
      ensures Some(Snap()) ==
              if old(globals.stats).enabled then MaskSnapshot.Calculate(old(Snap()), calData[..], median)
              else Some(old(Snap()))
      ensures Prepared() && Scaled(old(view), resized) && Boxed(old(view)) && Painted()
      ensures Agree(Snap(), calData[..], view.minImage, view.maxImage, median)
    {
      hide Chain, ScanResult, BoxMeasured, MaskSnapshot.Calculate, Agree;
      ghost var before := Snap();
      Prepare();
      MeasureShown(resized);
      ShownAgrees(before);
      RecolorImpl();
    }

    lemma ShownAgrees(before: MaskSnapshot.Snap)
      requires Valid() && Prepared() && (before.nx, before.ny) == (nx, ny)
      requires Some(Snap()) == if before.stats.enabled then MaskSnapshot.Calculate(before, calData[..], median)
                               else Some(before)
      ensures Agree(Snap(), calData[..], view.minImage, view.maxImage, median)
    {
      if before.stats.enabled {
        CalculationAgrees(before, calData[..], view.minImage, view.maxImage, median);
      }
    }

    /** One image pass. A pass that finds nothing to bring in leaves what is shown alone. */
    method ChangeImdata(newdata: bool) returns (shown: bool)
      requires Valid() && FiltersKeepSize() && MaskSnapshot.Kept(Snap())
      modifies this`sized, this`nx, this`ny, this`calDataRaw, this`calData, this`satData, this`qim, this`saturated
      modifies this`filtered, this`view, this`globals, calDataRaw, satData, qim
      ensures Valid()
      ensures Some(Snap()) == MaskSnapshot.Change(old(Snap()), images, newdata, calData[..], median)
      ensures MaskSnapshot.Usable(Snap())
         <==> !MaskSnapshot.Spoils(old(Snap()), MaskSnapshot.Pass(newdata, images, calData[..]))
      ensures shown <==> if newdata || old(globals.refresh) then HasPixels(images.main) else old(sized)
      ensures shown ==> sized && Prepared() && Boxed(old(view)) && Painted()
      ensures shown ==>
                Scaled(old(view), (newdata || old(globals.refresh)) && ImageValid(images.main) && !old(FrameFits()))
      ensures !shown ==> view == old(view) && Reframed() && Untouched()
      ensures shown && (newdata || old(globals.refresh)) ==> Holds()
      ensures !newdata && !old(globals.refresh) ==> Frame() == old(Frame())
      ensures shown ==> Agree(Snap(), calData[..], view.minImage, view.maxImage, median)
      ensures shown && (newdata || old(globals.refresh)) && old(globals.stats).enabled ==>
                MaskSnapshot.Mirrors(Snap(), images)
      ensures old(Counted()) && !((newdata || old(globals.refresh)) && MaskSnapshot.Outsizes(old(Snap()), images)) ==>
                Counted()
    {
      hide Chain, ScanResult, KeepsSize, Holds, Counted, Frame, Agree, MaskSnapshot.Outsizes;
      hide Prepared, Scaled, Boxed, Painted, Reframed, Untouched;
      hide MaskSnapshot.TakeIn, MaskSnapshot.Calculate, MaskSnapshot.Usable, MaskSnapshot.Spoils;
      hide MaskSnapshot.Mirrors, MaskSnapshot.Exact;
      ghost var before := Snap();
      MaskSnapshot.ChangeKeepsUsable(before, images, newdata, calData[..], median);
      var ready, resized := Intake(newdata);
      shown := ready && sized;
      if shown {
        Show(resized);
      }
      MaskSnapshot.ChangeKeepsUsable(before, images, newdata, calData[..], median);
      if shown && before.stats.enabled {
        MaskSnapshot.ChangeIsExact(before, images, newdata, calData[..], median);
      }
    }

    // ------------------------------------------------------------- modes and periodic checks

    /** Switch global statistics: the old measurements are withdrawn, and a refresh falls due if
        they are now enabled. */
    method SetGlobalStats(enabled: bool, useMask: bool)
      modifies this`globals
      ensures Snap() == MaskSnapshot.SetMode(old(Snap()), enabled, useMask)
    {
      globals := globals.(stats := BLANK.(enabled := enabled, useMask := useMask));
      globals := globals.(refresh := enabled);
    }

    /** The locked part of the periodic check: whether a refresh is due, or else whether the published
        status changed. */
    method CheckInput() returns (refresh: bool, changed: bool)
      modifies this`globals
      ensures Snap() == MaskSnapshot.Check(old(Snap()), images)
      ensures refresh <==> MaskSnapshot.RefreshDue(old(Snap()), images)
      ensures changed <==>
                && old(globals.stats).enabled
                && !InputStatus(images, sized, nx, ny, old(globals.stats).useMask).Valid?
                && globals.stats.status != old(globals.stats).status
    {
      refresh, changed := false, false;
      if !globals.stats.enabled {
        return;
      }
      var status := InputStatus(images, sized, nx, ny, globals.stats.useMask);
      if status == Status.Valid {
        refresh := globals.input != status || globals.refresh;
        globals := globals.(refresh := refresh);
      } else {
        globals := globals.(input := status, selection := []);
        changed := globals.stats.status != status;
        var useMask := globals.stats.useMask;
        globals := globals.(stats := Cleared(true, useMask, status));
      }
    }

    /** The periodic check, with the pass that it may ask for. */
    method CheckGlobalStats() returns (updated: bool)
      requires Valid() && FiltersKeepSize() && MaskSnapshot.Kept(Snap())
      modifies this`sized, this`nx, this`ny, this`calDataRaw, this`calData, this`satData, this`qim, this`saturated
      modifies this`filtered, this`view, this`globals, calDataRaw, satData, qim
      ensures Valid() && MaskSnapshot.Usable(Snap())
      ensures var checked := MaskSnapshot.Check(old(Snap()), images);
              Some(Snap()) == if MaskSnapshot.RefreshDue(old(Snap()), images)
                              then MaskSnapshot.Change(checked, images, true, calData[..], median)
                              else Some(checked)
      ensures updated <==>
                && old(globals.stats).enabled
                && !InputStatus(images, old(sized), old(nx), old(ny), old(globals.stats).useMask).Valid?
                && globals.stats.status != old(globals.stats).status
      ensures var input := InputStatus(images, old(sized), old(nx), old(ny), old(globals.stats).useMask);
              old(globals.stats).enabled ==>
                && (!input.Valid? ==> globals.stats.status == input && globals.stats.count == 0)
                && (input.Valid? && (old(globals.refresh) || !old(globals.input).Valid?) ==>
                      MaskSnapshot.Exact(Snap(), calData[..], median) && MaskSnapshot.Mirrors(Snap(), images))
      ensures old(Counted()) ==> Counted()
    {
      hide Chain, ScanResult, Painted, Prepared, Boxed, Scaled, Untouched, Frame, Holds, Agree, Count;
      hide MaskSnapshot.Change, MaskSnapshot.Mirrors, MaskSnapshot.Exact;
      ghost var before := Snap();
      var refresh: bool;
      refresh, updated := CheckInput();
      if refresh {
        ghost var checked := Snap();
        InputStatusTells(images, sized, nx, ny, globals.stats.useMask);
        var shown := ChangeImdata(true);
        MaskSnapshot.ChangeIsExact(checked, images, true, calData[..], median);
      }
    }

    /** Take the scale from the colour box, column by column. */
    method ScaleToColorBox()
      requires Valid() && sized
      modifies this`view
      ensures Normal(view.colorBox, nx, ny)
      ensures (view.colorBoxMin, view.colorBoxMax) == (view.minScale, view.maxScale)
      ensures BoxScale(calData[..], Area(view.colorBox, nx), view.minScale, view.maxScale)
    {
      NormalizeColorBox();
      var lo, hi := ScanColorBoxByColumns();
      ScanIsUnique(calData[..], Area(view.colorBox, nx), lo, hi, lo, hi);
      if lo == FLT_MAX && hi == -FLT_MAX {
        lo, hi := 0.0, 0.0;
      }
      view := view.(colorBoxMin := lo, colorBoxMax := hi);
      view := view.(minScale := lo, maxScale := hi);
    }

    method ScanColorBoxByColumns() returns (lo: real, hi: real)
      requires Valid() && sized && Normal(view.colorBox, nx, ny)
      ensures ScanResult(calData[..], Area(view.colorBox, nx), lo, hi)
    {
      var box := view.colorBox;
      lo, hi := ScanByColumns(box.i0, box.i1 + 1, box.j0, box.j1 + 1);
    }

    /** Change how the scale is chosen, and recolour what is shown. Box mode before there is a frame is
        undefined: the code reads pixel (0, 0) through a null buffer. */
    method SetColormode(m: ColorMode) returns (defined: bool)
      requires Valid()
      modifies this`view, this`colormode, this`autoScale, qim
      ensures defined <==> !(m.MinMaxBox? && !sized)
      ensures defined ==> colormode == m && autoScale == (old(autoScale) && !m.User?)
      ensures defined && m.MinMaxBox? ==>
                && Normal(view.colorBox, nx, ny)
                && (view.colorBoxMin, view.colorBoxMax) == (view.minScale, view.maxScale)
                && BoxScale(calData[..], Area(view.colorBox, nx), view.minScale, view.maxScale)
      ensures !m.MinMaxBox? ==> view == old(view)
      ensures sized ==> Painted()
    {
      defined := true;
      if m == MinMaxBox {
        if !sized {
          return false;
        }
        ScaleToColorBox();
        colormode := MinMaxBox;
      } else {
        if m == User {
          autoScale := false;
        }
        colormode := m;
      }
      RecolorImpl();
    }
  }

  // --------------------------------------------------------------------------- consequences

  /** What a change to box mode takes as its scale: zeros for a box without finite pixels. */
  ghost predicate BoxScale(pixels: seq<Pixel>, region: set<nat>, lo: real, hi: real) {
    if Boxes.Blank(pixels, region) then lo == hi == 0.0 else ScanResult(pixels, region, lo, hi)
  }

  /** The two ways to scan the colour box, by rows in a pass and by columns in a mode change, give
      the same scale if and only if the box has a finite pixel. */
  lemma BoxScansAgree(pixels: seq<Pixel>, region: set<nat>, lo: real, hi: real, lo': real, hi': real)
    requires ScanResult(pixels, region, lo, hi) && BoxScale(pixels, region, lo', hi')
    ensures lo == lo' && hi == hi' <==> !Boxes.Blank(pixels, region)
  {
    if !Boxes.Blank(pixels, region) {
      ScanIsUnique(pixels, region, lo, hi, lo', hi');
    }
  }

  /** The statistics of a pass are exact for the pixels it shows; with the mask off they measure what its
      image scan found: the same extremes if some pixel is finite, and otherwise nothing. */
  ghost predicate Agree(s: MaskSnapshot.Snap, pixels: seq<Pixel>, lo: real, hi: real, median: seq<real> -> real) {
    && (s.stats.enabled ==> MaskSnapshot.Exact(s, pixels, median))
    && (s.stats.enabled && !s.stats.useMask && s.input.Valid? ==>
          && (s.stats.status.Valid? <==> !Boxes.Blank(pixels, Patch(0, s.nx, 0, s.ny, s.nx)))
          && (s.stats.status.Valid? ==> s.stats.min == lo && s.stats.max == hi))
  }

  /** Whatever selection is left over, it is ignored while the mask is off. */
  lemma UnmaskedStatsMatchImage(pixels: seq<Pixel>, selection: seq<bool>, nx: nat, ny: nat, lo: real, hi: real,
                                median: seq<real> -> real)
    requires |pixels| == nx * ny && ScanResult(pixels, Patch(0, nx, 0, ny, nx), lo, hi)
    ensures var s := Published(false, Status.Valid, Values(pixels, selection, false, |pixels|), median);
            && (s.status.Valid? <==> !Boxes.Blank(pixels, Patch(0, nx, 0, ny, nx)))
            && (s.status.Valid? ==> s.min == lo && s.max == hi)
  {
    var region := Patch(0, nx, 0, ny, nx);
    var s := Published(false, Status.Valid, Values(pixels, selection, false, |pixels|), median);
    WholePatch(nx, ny);
    PublishedMeasuresSelection(pixels, selection, false, median);
    var pool := Pool(pixels, selection, false);
    assert forall n: nat :: n in pool <==> n in region && FiniteAt(pixels, n);
    if s.status.Valid? {
      var k :| k in pool && pixels[k] == Fin(s.min);
      var l :| l in pool && pixels[l] == Fin(s.max);
      assert FiniteAt(pixels, k) && FiniteAt(pixels, l);
    } else {
      assert pool == {};
    }
  }

  lemma CalculationAgrees(s: MaskSnapshot.Snap, pixels: seq<Pixel>, lo: real, hi: real, median: seq<real> -> real)
    requires |pixels| == s.nx * s.ny && ScanResult(pixels, Patch(0, s.nx, 0, s.ny, s.nx), lo, hi)
    ensures var r := MaskSnapshot.Calculate(s, pixels, median);
            r.Some? ==> Agree(r.value, pixels, lo, hi, median)
  {
    hide ScanResult, MaskSnapshot.Exact;
    if MaskSnapshot.Calculate(s, pixels, median).Some? {
      MaskSnapshot.CalculateIsExact(s, pixels, median);
    }
    if s.input.Valid? && !s.stats.useMask {
      UnmaskedStatsMatchImage(pixels, s.selection, s.nx, s.ny, lo, hi, median);
    }
  }

  /** On a painted screen with the overlay on, exactly as many places carry the saturation marker as
      pixels were counted when the frame was brought in. */
  lemma OverlayPaintsTheCount(im: Imager, maxColor: nat)
    requires im.Valid() && im.Painted() && im.applySatMask
    requires im.palette == PaletteOf(maxColor) && Proper(im.curves)
    requires im.Counted()
    ensures im.saturated ==
            |set x: nat, r: nat | x < im.nx && r < im.ny && im.qim[x, r] == im.palette.satColor :: Flip.Place(x, r)|
  {
    var flags := im.satData[..];
    var painted := set x: nat, r: nat
      | x < im.nx && r < im.ny && im.qim[x, r] == im.palette.satColor :: Flip.Place(x, r);
    forall x: nat, r: nat | x < im.nx && r < im.ny
      ensures im.qim[x, r] == im.palette.satColor <==> flags[Flip.Position(x, r, im.nx, im.ny)]
    {
      Flip.FlipIsBijective(im.nx, im.ny);
      var n := Flip.Position(x, r, im.nx, im.ny);
      MarkersAreDistinct(maxColor, im.CurrentScale(), Pick(im.calData[..], n), Flagged(flags, n));
    }
    Flip.FlipIsBijective(im.nx, im.ny);
    assert painted == Flip.Marked(flags, im.nx, im.ny, |flags|);
    Flip.MarksAreCounted(flags, im.nx, im.ny, |flags|);
    assert flags[..|flags|] == flags;
  }

  /** A painted screen tells the three kinds of pixel apart: at each place the index is the saturation
      marker, the non-finite marker or a palette colour according to the pixel shown there. */
  lemma ScreenTellsPixelsApart(im: Imager, maxColor: nat, x: nat, r: nat)
    requires im.Valid() && im.Painted() && im.palette == PaletteOf(maxColor) && Proper(im.curves)
    requires x < im.nx && r < im.ny
    ensures var n := Flip.Position(x, r, im.nx, im.ny);
            && n < im.calData.Length
            && var marked := im.applySatMask && im.satData[n];
            && (im.qim[x, r] == im.palette.satColor <==> marked)
            && (im.qim[x, r] == im.palette.nanColor <==> !marked && !im.calData[n].Fin?)
            && (0 <= im.qim[x, r] <= maxColor <==> !marked && im.calData[n].Fin?)
  {
    Flip.FlipIsBijective(im.nx, im.ny);
    var n := Flip.Position(x, r, im.nx, im.ny);
    MarkersAreDistinct(maxColor, im.CurrentScale(), im.calData[n], im.applySatMask && im.satData[n]);
  }

  /** A painted screen shows the values themselves: at column `x` of screen row `r` stands the pixel of
      that column in the frame row counted from the other end, as the colour nearest to its height on
      the stretch. */
  lemma ScreenShowsValues(im: Imager, maxColor: nat, x: nat, r: nat, p: real, y: real)
    requires im.Valid() && im.Painted() && im.palette == PaletteOf(maxColor) && Proper(im.curves)
    requires x < im.nx && r < im.ny
    ensures var n := (im.ny - 1 - r) * im.nx + x;
            && n < im.calData.Length == im.satData.Length
            && var index := im.qim[x, r];
            && var lo, hi := im.view.minScale, im.view.maxScale;
            if im.applySatMask && im.satData[n] then index == maxColor + 2
            else if !im.calData[n].Fin? then index == maxColor + 1
            else if lo == hi then index == 0
            else
              p * (hi - lo) == im.calData[n].v - lo && (p >= 0.0 ==> OnCurve(im.stretch, im.curves, p, y)) ==>
                if p < 0.0 then index == 0
                else if y >= 1.0 then index == maxColor
                else -0.5 < index as real - y * maxColor as real <= 0.5
  {
    hide PixIndex, OnCurve;
    Flip.FlipIsBijective(im.nx, im.ny);
    var n := Flip.Position(x, r, im.nx, im.ny);
    var lo, hi := im.view.minScale, im.view.maxScale;
    if im.calData[n].Fin? && lo != hi && p * (hi - lo) == im.calData[n].v - lo
       && (p >= 0.0 ==> OnCurve(im.stretch, im.curves, p, y)) {
      IndexIsNearest(im.stretch, im.curves, im.calData[n].v, lo, hi, maxColor, p, y);
    }
  }

  /** What a frame that was brought in holds. The dark counts if it is asked for, valid and of the main
      image's size, and no mask is asked for that is there and cannot be applied; and the other way
      round. Adding the dark back gives the raw value; a mask of one keeps it, a mask of zero
      leaves zero; and a pixel is marked exactly if its raw value reaches the level or a valid
      saturation mask of the same size is positive there. */
  lemma FrameIsCalibrated(im: Imager, n: nat)
    requires im.Holds() && n < im.calDataRaw.Length
    ensures n < im.satData.Length && im.images.main.Some? && n < |im.images.main.value.pixels|
    ensures var raw, q := im.images.main.value.pixels[n], im.calDataRaw[n];
            var dark := im.subtractDark && Applicable(im.images, im.images.dark)
                        && (im.applyMask && im.images.mask.Some? ==> Applicable(im.images, im.images.mask));
            var mask := im.applyMask && Applicable(im.images, im.images.mask)
                        && (im.subtractDark && im.images.dark.Some? ==> Applicable(im.images, im.images.dark));
            && (!dark && !mask ==> q == raw)
            && (dark ==> n < |im.images.dark.value.pixels|) && (mask ==> n < |im.images.mask.value.pixels|)
            && (dark && (mask ==> im.images.mask.value.pixels[n] == Fin(1.0)) && q.Fin? ==>
                  raw.Fin? && im.images.dark.value.pixels[n].Fin? && q.v + im.images.dark.value.pixels[n].v == raw.v)
            && (mask && !dark && im.images.mask.value.pixels[n] == Fin(1.0) ==> q == raw)
            && (mask && im.images.mask.value.pixels[n] == Fin(0.0) ==> q == Fin(0.0) || q.NaN?)
    ensures var raw := im.images.main.value.pixels[n];
            im.satData[n] <==>
              || raw.PosInf? || (raw.Fin? && raw.v >= im.satLevel)
              || (&& im.images.sat.Some? && im.images.sat.value.valid
                  && im.images.sat.value.nx == im.nx && im.images.sat.value.ny == im.ny
                  && n < |im.images.sat.value.pixels|
                  && var over := im.images.sat.value.pixels[n]; over.PosInf? || (over.Fin? && over.v > 0.0))
  {
    hide Count, CalibratedPixel, Unmasked;
    var cal := CalibrationFor(im.images, im.subtractDark, im.applyMask).value;
    assert im.calDataRaw[..][n] == CalibratedPixel(im.images, cal, n);
    assert im.satData[..][n] == Saturated(im.images, im.satLevel, n);
    CalibrationMeans(im.images, cal, n);
  }

  lemma CalibrationMeans(images: Images, cal: Calibration, n: nat)
    requires Calibrates(images, cal) && n < |images.main.value.pixels|
    ensures UsesDark(cal) ==> n < |images.dark.value.pixels|
    ensures UsesMask(cal) ==> n < |images.mask.value.pixels|
    ensures var raw, q := images.main.value.pixels[n], CalibratedPixel(images, cal, n);
            && (!UsesDark(cal) && !UsesMask(cal) ==> q == raw)
            && (UsesDark(cal) && (UsesMask(cal) ==> images.mask.value.pixels[n] == Fin(1.0)) && q.Fin? ==>
                  raw.Fin? && images.dark.value.pixels[n].Fin? && q.v + images.dark.value.pixels[n].v == raw.v)
            && (UsesMask(cal) && !UsesDark(cal) && images.mask.value.pixels[n] == Fin(1.0) ==> q == raw)
            && (UsesMask(cal) && images.mask.value.pixels[n] == Fin(0.0) ==> q == Fin(0.0) || q.NaN?)
  {
    hide CalibratedPixel;
    CalibrationIsUndone(images, cal, n);
  }
}
