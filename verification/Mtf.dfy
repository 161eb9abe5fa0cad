/** The modulation transfer function: the modulus of the Fourier transform of an image, normalised
    by the zero frequency and shifted to the centre, computed from a packed half spectrum. */
module Mtf {
  import opened Indexing
  import opened Pixels
  import opened Quotients
  import opened Spectrum

  // ---------------------------------------------------------------- index arithmetic

  /** The remainder of truncating division. */
  function Remainder(a: int, b: int): int
    requires b > 0
  {
    if a >= 0 then a % b else -((-a) % b)
  }

  /** Wrap a possibly negative Fourier index into an image dimension. */
  function WrapIndex(idx: int, dim: int): int
    requires dim > 0
  {
    var r := Remainder(idx, dim);
    if r < 0 then r + dim else r
  }

  /** Where the shifted image shows frequency `k` of a dimension. */
  function Shifted(k: int, dim: int): int
    requires dim > 0
  {
    WrapIndex(k + dim / 2, dim)
  }

  /** The frequency shown at position `u` of the shifted image. */
  function Unshifted(u: int, dim: int): int
    requires dim > 0
  {
    WrapIndex(u - dim / 2, dim)
  }

  lemma WrapsToRange(idx: int, dim: int)
    requires dim > 0 && -dim <= idx < 2 * dim
    ensures WrapIndex(idx, dim) == if idx < 0 then idx + dim else if idx < dim then idx else idx - dim
  {
  }

  /** The shift is a permutation of the indices, with `Unshifted` as its inverse; it takes the zero
      frequency to the centre. */
  lemma ShiftIsPermutation(k: int, dim: int)
    requires 0 <= k < dim
    ensures 0 <= Shifted(k, dim) < dim && 0 <= Unshifted(k, dim) < dim
    ensures Unshifted(Shifted(k, dim), dim) == k && Shifted(Unshifted(k, dim), dim) == k
    ensures Shifted(k, dim) == if k + dim / 2 < dim then k + dim / 2 else k + dim / 2 - dim
  {
    WrapsToRange(k + dim / 2, dim);
    WrapsToRange(k - dim / 2, dim);
    WrapsToRange(Shifted(k, dim) - dim / 2, dim);
    WrapsToRange(Unshifted(k, dim) + dim / 2, dim);
  }

  /** Columns of the packed half spectrum. */
  function PackedColumns(ny: nat): nat {
    ny / 2 + 1
  }

  /** The packed half spectrum fits in a buffer for the full one. */
  lemma PackedFits(nx: nat, ny: nat)
    requires ny > 0
    ensures nx * PackedColumns(ny) <= nx * ny
  {
    assert nx * ny - nx * PackedColumns(ny) == nx * (ny - PackedColumns(ny)) >= 0;
  }

  // ---------------------------------------------------------------- specification

  /** A read-only image, pixel (x, y) at y*nx + x. */
  datatype Image = Image(nx: nat, ny: nat, data: seq<Pixel>) {
    predicate Valid() {
      |data| == nx * ny
    }

    function At(x: nat, y: nat): Pixel
      requires Valid() && x < nx && y < ny
    {
      InRange(x, y, nx, ny);
      data[Index(x, y, nx)]
    }
  }

  /** Non-finite pixels count as zero. */
  function Sanitized(p: Pixel): real {
    if p.Fin? then p.v else 0.0
  }

  /** The image as transform input: pixel (x, y) at x*ny + y. */
  function Flat(im: Image): (f: seq<real>)
    requires im.Valid() && im.ny > 0
    ensures |f| == im.nx * im.ny
  {
    seq(im.nx * im.ny, n requires 0 <= n < im.nx * im.ny => FlatAt(im, n))
  }

  function FlatAt(im: Image, n: nat): real
    requires im.Valid() && im.ny > 0 && n < im.nx * im.ny
  {
    RowInRange(n, im.ny, im.nx);
    Sanitized(im.At(n / im.ny, n % im.ny))
  }

  /** What the numerical library provides: a square root, the circle functions of every image size,
      and the packed transform. */
  datatype Library = Library(root: real -> real,
                             circle: (nat, nat) -> Circle,
                             fft: (nat, nat, seq<real>) -> seq<Coefficient>)

  /** The packed transform holds the coefficients with 0 <= ky <= ny/2, row after row. */
  ghost predicate HalfSpectrum(lib: Library, nx: nat, ny: nat, f: seq<real>, packed: seq<Coefficient>)
    requires ny > 0
  {
    && |packed| == nx * PackedColumns(ny)
    && forall x, y | 0 <= x < nx && 0 <= y < PackedColumns(ny) ::
         Packed(packed, nx, ny, x, y) == Transform(lib.circle(nx, ny), nx, ny, f, x, y)
  }

  function Packed(packed: seq<Coefficient>, nx: nat, ny: nat, x: nat, y: nat): Coefficient
    requires x < nx && y < PackedColumns(ny) && |packed| == nx * PackedColumns(ny)
  {
    InRange(y, x, PackedColumns(ny), nx);
    packed[Index(y, x, PackedColumns(ny))]
  }

  ghost predicate Sound(lib: Library) {
    && (forall nx: nat, ny: nat :: EvenAndOdd(lib.circle(nx, ny)) && Periodic(lib.circle(nx, ny), nx * ny))
    && (forall nx: nat, ny: nat, f: seq<real> | nx > 0 && ny > 0 && |f| == nx * ny ::
          HalfSpectrum(lib, nx, ny, f, lib.fft(nx, ny, f)))
    && (forall x: real | x >= 0.0 :: lib.root(x) >= 0.0 && lib.root(x) * lib.root(x) == x)
  }

  function Energy(z: Coefficient): real {
    z.re * z.re + z.im * z.im
  }

  function Modulus(lib: Library, z: Coefficient): Pixel {
    Overflowing(lib.root(Energy(z)))
  }

  /** The modulus is the length of the coefficient in the complex plane, or an infinity if that is out of
      range. */
  lemma ModulusIsLength(lib: Library, z: Coefficient)
    requires Sound(lib)
    ensures var m := Modulus(lib, z);
            if m.Fin? then m.v >= 0.0 && m.v * m.v == z.re * z.re + z.im * z.im
            else m.PosInf? && z.re * z.re + z.im * z.im > FLT_MAX * FLT_MAX
  {
    hide Sound;
    var square := Energy(z);
    EnergyIsNotNegative(z);
    RootOf(lib, square);
    SquaresOrdered(lib.root(square), FLT_MAX);
  }

  lemma RootOf(lib: Library, x: real)
    requires Sound(lib) && x >= 0.0
    ensures lib.root(x) >= 0.0 && lib.root(x) * lib.root(x) == x
  {
  }

  lemma EnergyIsNotNegative(z: Coefficient)
    ensures Energy(z) >= 0.0
  {
    SquareIsNotNegative(z.re);
    SquareIsNotNegative(z.im);
  }

  lemma SquareIsNotNegative(x: real)
    ensures x * x >= 0.0
  {
  }

  /** A modulus as displayed: divided by a positive finite zero-frequency modulus `dc`, and zero when
      the outcome is not finite. */
  function Display(modulus: Pixel, dc: Pixel): real {
    Sanitized(if dc.Fin? && dc.v > 0.0 then Times(modulus, Overflowing(1.0 / dc.v)) else modulus)
  }

  /** The reference definition: frequency (kx, ky) of the full transform. */
  function FullMtf(lib: Library, im: Image, kx: int, ky: int): real
    requires im.Valid() && im.ny > 0
  {
    var circle := lib.circle(im.nx, im.ny);
    var f := Flat(im);
    Display(Modulus(lib, Transform(circle, im.nx, im.ny, f, kx, ky)),
            Modulus(lib, Transform(circle, im.nx, im.ny, f, 0, 0)))
  }

  /** Away from overflow the reference definition is the plain ratio of moduli. */
  lemma DisplayIsRatio(modulus: Pixel, dc: Pixel)
    requires modulus.Fin? && dc.Fin? && dc.v > 0.0 && 1.0 / dc.v <= FLT_MAX
    requires -FLT_MAX <= modulus.v * (1.0 / dc.v) <= FLT_MAX
    ensures Display(modulus, dc) == modulus.v / dc.v
  {
  }

  // ---------------------------------------------------------------- the definition on the image

  /** Column `x` of the sum for frequency (kx, ky), rows below `y`: pixel times cosine, and pixel times
      minus sine, of the angle kx*x/nx + ky*y/ny of a turn. Non-finite pixels add nothing. */
  function ColumnSum(c: Circle, im: Image, kx: int, ky: int, x: nat, y: nat): Coefficient
    requires im.Valid() && x < im.nx && y <= im.ny
  {
    if y == 0 then Coefficient(0.0, 0.0)
    else
      var s := ColumnSum(c, im, kx, ky, x, y - 1);
      var p := im.At(x, y - 1);
      if !p.Fin? then s
      else
        var angle := kx * x * im.ny + ky * (y - 1) * im.nx;
        Coefficient(s.re + p.v * c.cos(angle), s.im - p.v * c.sin(angle))
  }

  /** The sum over all columns before `x`. */
  function ImageSum(c: Circle, im: Image, kx: int, ky: int, x: nat): Coefficient
    requires im.Valid() && x <= im.nx
  {
    if x == 0 then Coefficient(0.0, 0.0)
    else
      var s := ImageSum(c, im, kx, ky, x - 1);
      var t := ColumnSum(c, im, kx, ky, x - 1, im.ny);
      Coefficient(s.re + t.re, s.im + t.im)
  }

  lemma FlatTerm(c: Circle, im: Image, kx: int, ky: int, x: nat, y: nat)
    requires im.Valid() && x < im.nx && y < im.ny
    ensures x * im.ny + y < |Flat(im)|
    ensures Partial(c, im.nx, im.ny, Flat(im), kx, ky, x * im.ny + y + 1)
         == Plus(c, Partial(c, im.nx, im.ny, Flat(im), kx, ky, x * im.ny + y),
                 Sanitized(im.At(x, y)), Phase(im.nx, im.ny, kx, ky, x, y))
  {
    InRange(y, x, im.ny, im.nx);
    Unique(y, x, im.ny, x * im.ny + y);
  }

  lemma {:induction false} ColumnIsSummed(c: Circle, im: Image, kx: int, ky: int, x: nat, y: nat)
    requires im.Valid() && x < im.nx && y <= im.ny && im.ny > 0
    ensures x * im.ny + y <= |Flat(im)|
    ensures var s := Partial(c, im.nx, im.ny, Flat(im), kx, ky, x * im.ny);
            var t := ColumnSum(c, im, kx, ky, x, y);
            Partial(c, im.nx, im.ny, Flat(im), kx, ky, x * im.ny + y) == Coefficient(s.re + t.re, s.im + t.im)
  {
    hide ColumnSum, Partial, Phase, Flat, Sanitized;
    InRange(im.ny - 1, x, im.ny, im.nx);
    if y > 0 {
      ColumnIsSummed(c, im, kx, ky, x, y - 1);
      FlatTerm(c, im, kx, ky, x, y - 1);
      ColumnTerm(c, im, kx, ky, x, y - 1);
    } else {
      NoRows(c, im, kx, ky, x);
    }
  }

  lemma NoRows(c: Circle, im: Image, kx: int, ky: int, x: nat)
    requires im.Valid() && x < im.nx
    ensures ColumnSum(c, im, kx, ky, x, 0) == Coefficient(0.0, 0.0)
  {
  }

  lemma ColumnTerm(c: Circle, im: Image, kx: int, ky: int, x: nat, y: nat)
    requires im.Valid() && x < im.nx && y < im.ny
    ensures ColumnSum(c, im, kx, ky, x, y + 1)
         == Plus(c, ColumnSum(c, im, kx, ky, x, y), Sanitized(im.At(x, y)), Phase(im.nx, im.ny, kx, ky, x, y))
  {
    assert Phase(im.nx, im.ny, kx, ky, x, y) == kx * x * im.ny + ky * (y + 1 - 1) * im.nx;
  }

  lemma {:induction false} ColumnsAreSummed(c: Circle, im: Image, kx: int, ky: int, x: nat)
    requires im.Valid() && x <= im.nx && im.ny > 0
    ensures x * im.ny <= |Flat(im)|
    ensures Partial(c, im.nx, im.ny, Flat(im), kx, ky, x * im.ny) == ImageSum(c, im, kx, ky, x)
  {
    hide Partial, Flat, ColumnSum;
    if x > 0 {
      ColumnsAreSummed(c, im, kx, ky, x - 1);
      ColumnIsSummed(c, im, kx, ky, x - 1, im.ny);
      OneRowMore(x - 1, im.ny);
    } else {
      NoColumns(c, im, kx, ky);
    }
  }

  lemma OneRowMore(x: nat, n: nat)
    ensures (x + 1) * n == x * n + n
  {
  }

  lemma NoColumns(c: Circle, im: Image, kx: int, ky: int)
    requires im.Valid() && im.ny > 0
    ensures Partial(c, im.nx, im.ny, Flat(im), kx, ky, 0) == Coefficient(0.0, 0.0)
  {
  }

  /** The transform that the display rests on is the double sum over the image itself. */
  lemma TransformIsImageSum(c: Circle, im: Image, kx: int, ky: int)
    requires im.Valid() && im.ny > 0
    ensures Transform(c, im.nx, im.ny, Flat(im), kx, ky) == ImageSum(c, im, kx, ky, im.nx)
  {
    ColumnsAreSummed(c, im, kx, ky, im.nx);
  }

  lemma SquareOfRatio(a: real, b: real)
    requires b > 0.0
    ensures (a / b) * (a / b) * (b * b) == a * a
  {
    var q := a / b;
    assert q * b == a;
    assert q * q * (b * b) == (q * b) * (q * b);
  }

  /** What is displayed for a frequency, told from the image: its sum's length over the length of the
      sum for the zero frequency, as long as the division loses nothing; the plain length if there is
      nothing to divide by; and zero for a length out of range that is not divided. */
  lemma DisplayIsNormalized(lib: Library, im: Image, kx: int, ky: int)
    requires Sound(lib) && im.Valid() && im.ny > 0
    ensures var z := ImageSum(lib.circle(im.nx, im.ny), im, kx, ky, im.nx);
            var d := ImageSum(lib.circle(im.nx, im.ny), im, 0, 0, im.nx);
            var m, dc := Modulus(lib, z), Modulus(lib, d);
            var w := FullMtf(lib, im, kx, ky);
            && (m.Fin? && dc.Fin? && dc.v > 0.0 && 1.0 / dc.v <= FLT_MAX && m.v / dc.v <= FLT_MAX ==>
                  w >= 0.0 && w * w * (d.re * d.re + d.im * d.im) == z.re * z.re + z.im * z.im)
            && (m.Fin? && (!dc.Fin? || dc.v == 0.0) ==> w >= 0.0 && w * w == z.re * z.re + z.im * z.im)
            && (!m.Fin? && (!dc.Fin? || dc.v == 0.0) ==> w == 0.0)
  {
    hide ImageSum, Transform, Modulus, Sound, Flat;
    var c := lib.circle(im.nx, im.ny);
    TransformIsImageSum(c, im, kx, ky);
    TransformIsImageSum(c, im, 0, 0);
    var z, d := ImageSum(c, im, kx, ky, im.nx), ImageSum(c, im, 0, 0, im.nx);
    ModulusIsLength(lib, z);
    ModulusIsLength(lib, d);
    var m, dc := Modulus(lib, z), Modulus(lib, d);
    if m.Fin? && dc.Fin? && dc.v > 0.0 && 1.0 / dc.v <= FLT_MAX && m.v / dc.v <= FLT_MAX {
      RatioInRange(m.v, dc.v);
      DisplayIsRatio(m, dc);
      SquareOfRatio(m.v, dc.v);
    }
  }

  lemma RatioInRange(a: real, b: real)
    requires a >= 0.0 && b > 0.0
    ensures a * (1.0 / b) == a / b >= 0.0
  {
  }

  // ---------------------------------------------------------------- the half spectrum suffices

  /** Row and column of the packed spectrum that stand for frequency (x, y). */
  function SourceX(x: nat, y: nat, nx: nat, ny: nat): int
    requires x < nx
  {
    if y < PackedColumns(ny) then x else WrapIndex(-(x as int), nx)
  }

  function SourceY(y: nat, ny: nat): int
    requires y < ny
  {
    if y < PackedColumns(ny) then y else ny - y
  }

  lemma SourceInBounds(x: nat, y: nat, nx: nat, ny: nat)
    requires x < nx && y < ny
    ensures 0 <= SourceX(x, y, nx, ny) < nx && 0 <= SourceY(y, ny) < PackedColumns(ny)
  {
    WrapsToRange(-(x as int), nx);
  }

  /** The packed coefficient read for frequency (x, y) has the modulus of the full coefficient. */
  lemma SourceHasModulus(lib: Library, f: seq<real>, packed: seq<Coefficient>, nx: nat, ny: nat, x: nat, y: nat)
    requires Sound(lib) && x < nx && y < ny && |f| == nx * ny && HalfSpectrum(lib, nx, ny, f, packed)
    ensures 0 <= SourceX(x, y, nx, ny) < nx && 0 <= SourceY(y, ny) < PackedColumns(ny)
    ensures Modulus(lib, Packed(packed, nx, ny, SourceX(x, y, nx, ny), SourceY(y, ny)))
         == Modulus(lib, Transform(lib.circle(nx, ny), nx, ny, f, x, y))
  {
    SourceInBounds(x, y, nx, ny);
    if y >= PackedColumns(ny) {
      WrapsToRange(-(x as int), nx);
      var a := if x == 0 then 0 else 1;
      assert SourceX(x, y, nx, ny) == a * nx - x && SourceY(y, ny) == 1 * ny - y;
      Hermitian(lib.circle(nx, ny), nx, ny, f, x, y, a, 1, |f|);
      ConjugateModulus(lib, Transform(lib.circle(nx, ny), nx, ny, f, x, y));
    }
  }

  lemma ConjugateModulus(lib: Library, z: Coefficient)
    ensures Modulus(lib, Conjugate(z)) == Modulus(lib, z)
  {
    var w := Conjugate(z);
    SameSquare(z.im, w.im);
    assert Energy(w) == Energy(z);
  }

  lemma SameSquare(v: real, w: real)
    requires w == -v
    ensures w * w == v * v
  {
  }

  // ---------------------------------------------------------------- the computation

  /** Output pixel (u, v) has been written when the loops stand at frequency (x, y). */
  predicate Written(u: int, v: int, x: int, y: int, nx: nat, ny: nat)
    requires nx > 0 && ny > 0
  {
    Unshifted(v, ny) < y || (Unshifted(v, ny) == y && Unshifted(u, nx) < x)
  }

  /** Showing frequency (x, y) writes exactly the pixel at its shifted position. */
  lemma WritesOne(u: nat, v: nat, x: nat, y: nat, nx: nat, ny: nat)
    requires u < nx && v < ny && x < nx && y < ny
    ensures Written(u, v, x + 1, y, nx, ny)
       <==> Written(u, v, x, y, nx, ny) || (u == Shifted(x, nx) && v == Shifted(y, ny))
    ensures !Written(Shifted(x, nx), Shifted(y, ny), x, y, nx, ny)
    ensures 0 <= Unshifted(u, nx) < nx && 0 <= Unshifted(v, ny) < ny
  {
    ShiftIsPermutation(u, nx);
    ShiftIsPermutation(v, ny);
    ShiftIsPermutation(x, nx);
    ShiftIsPermutation(y, ny);
  }

  /** `f` holds the sanitized pixels that the loops have passed when they stand at (x, y). */
  ghost predicate Loaded(f: seq<real>, im: Image, x: nat, y: nat)
    requires im.Valid()
  {
    && |f| == im.ny * im.nx
    && forall u: nat, v: nat | u < im.nx && v < im.ny && (v < y || (v == y && u < x)) ::
         (InRange(v, u, im.ny, im.nx); f[Index(v, u, im.ny)] == Sanitized(im.At(u, v)))
  }

  lemma LoadedIsFlat(f: seq<real>, im: Image)
    requires im.Valid() && im.ny > 0 && Loaded(f, im, 0, im.ny)
    ensures f == Flat(im)
  {
    assert im.ny * im.nx == im.nx * im.ny;
    forall n: nat | n < |f|
      ensures f[n] == Flat(im)[n]
    {
      RowInRange(n, im.ny, im.nx);
      Unique(n % im.ny, n / im.ny, im.ny, n);
    }
  }

  /** The image shows what the full transform prescribes for frequency (kx, ky), at its shifted position. */
  ghost predicate ShowsFrequency(lib: Library, im: Image, outim: array2<real>, kx: nat, ky: nat)
    requires im.Valid() && kx < im.nx && ky < im.ny && outim.Length0 == im.nx && outim.Length1 == im.ny
    reads outim
  {
    ShiftIsPermutation(kx, im.nx);
    ShiftIsPermutation(ky, im.ny);
    outim[Shifted(kx, im.nx), Shifted(ky, im.ny)] == FullMtf(lib, im, kx, ky)
  }

  /** Working state kept between calculations. */
  class MtfContext {
    var fftInput: array<real>
    var fftOutput: seq<Coefficient>
    var nx: nat
    var ny: nat

    constructor ()
      ensures nx == ny == 0
    {
      fftInput := new real[0];
      fftOutput := [];
      nx, ny := 0, 0;
    }

    method LoadPixel(im: Image, x: nat, y: nat)
      requires im.Valid() && x < im.nx && y < im.ny && Loaded(fftInput[..], im, x, y)
      modifies fftInput
      ensures Loaded(fftInput[..], im, x + 1, y)
    {
      InRange(y, x, im.ny, im.nx);
      var value := im.At(x, y);
      fftInput[Index(y, x, im.ny)] := if value.Fin? then value.v else 0.0;
      forall u: nat, v: nat | u < im.nx && v < im.ny && (v < y || (v == y && u < x + 1))
        ensures Index(v, u, im.ny) < fftInput.Length
        ensures fftInput[Index(v, u, im.ny)] == Sanitized(im.At(u, v))
      {
        InRange(v, u, im.ny, im.nx);
        Injective(v, u, y, x, im.ny);
      }
    }

    /** Copy the image into the row-major transform input. */
    method LoadInput(im: Image)
      requires im.Valid() && im.ny > 0
      modifies this`fftInput
      ensures fresh(fftInput) && fftInput[..] == Flat(im)
    {
      fftInput := new real[im.ny * im.nx];
      var y := 0;
      while y < im.ny
        invariant 0 <= y <= im.ny && fresh(fftInput) && Loaded(fftInput[..], im, 0, y)
      {
        var x := 0;
        while x < im.nx
          invariant 0 <= x <= im.nx && fresh(fftInput) && Loaded(fftInput[..], im, x, y)
        {
          LoadPixel(im, x, y);
          x := x + 1;
        }
        y := y + 1;
      }
      LoadedIsFlat(fftInput[..], im);
    }

    /** The display of the packed coefficient that stands for frequency (x, y). */
    ghost function Value(lib: Library, x: int, y: int): real
      reads this
      requires nx > 0 && ny > 0 && |fftOutput| == nx * PackedColumns(ny) && 0 <= x < nx && 0 <= y < ny
    {
      SourceInBounds(x, y, nx, ny);
      Display(Modulus(lib, Packed(fftOutput, nx, ny, SourceX(x, y, nx, ny), SourceY(y, ny))),
              Modulus(lib, Packed(fftOutput, nx, ny, 0, 0)))
    }

    /** The image shows every frequency the loops have passed when they stand at (x, y), at its
        shifted position, and zero elsewhere. */
    ghost predicate Shows(lib: Library, outim: array2<real>, x: int, y: int)
      reads this, outim
      requires nx > 0 && ny > 0 && |fftOutput| == nx * PackedColumns(ny)
    {
      && outim.Length0 == nx && outim.Length1 == ny
      && forall u, v | 0 <= u < nx && 0 <= v < ny ::
           (ShiftIsPermutation(u, nx); ShiftIsPermutation(v, ny);
            outim[u, v] == if Written(u, v, x, y, nx, ny) then Value(lib, Unshifted(u, nx), Unshifted(v, ny)) else 0.0)
    }

    method ShowPixel(lib: Library, outim: array2<real>, x: nat, y: nat, dc: Pixel)
      requires x < nx && y < ny && |fftOutput| == nx * PackedColumns(ny)
      requires dc == Modulus(lib, Packed(fftOutput, nx, ny, 0, 0))
      requires Shows(lib, outim, x, y)
      modifies outim
      ensures Shows(lib, outim, x + 1, y)
    {
      SourceInBounds(x, y, nx, ny);
      var srcX := if y < PackedColumns(ny) then x else WrapIndex(-(x as int), nx);
      var srcY := if y < PackedColumns(ny) then y else ny - y;
      var modulus := Modulus(lib, Packed(fftOutput, nx, ny, srcX, srcY));
      if dc.Fin? && dc.v > 0.0 {
        modulus := Times(modulus, Overflowing(1.0 / dc.v));
      }
      if !modulus.Fin? {
        modulus := Fin(0.0);
      }
      ShiftIsPermutation(x, nx);
      ShiftIsPermutation(y, ny);
      assert modulus.v == Value(lib, x, y);
      outim[Shifted(x, nx), Shifted(y, ny)] := modulus.v;
      forall u, v | 0 <= u < nx && 0 <= v < ny
        ensures 0 <= Unshifted(u, nx) < nx && 0 <= Unshifted(v, ny) < ny
        ensures outim[u, v]
             == if Written(u, v, x + 1, y, nx, ny) then Value(lib, Unshifted(u, nx), Unshifted(v, ny)) else 0.0
      {
        WritesOne(u, v, x, y, nx, ny);
      }
    }

    /** Show one row of frequencies. */
    method ShowRow(lib: Library, outim: array2<real>, y: nat, dc: Pixel)
      requires nx > 0 && y < ny && |fftOutput| == nx * PackedColumns(ny)
      requires dc == Modulus(lib, Packed(fftOutput, nx, ny, 0, 0))
      requires Shows(lib, outim, 0, y)
      modifies outim
      ensures Shows(lib, outim, 0, y + 1)
    {
      var x := 0;
      while x < nx
        invariant 0 <= x <= nx && Shows(lib, outim, x, y)
      {
        ShowPixel(lib, outim, x, y, dc);
        x := x + 1;
      }
      RowShown(lib, outim, y);
    }

    lemma RowShown(lib: Library, outim: array2<real>, y: nat)
      requires nx > 0 && y < ny && |fftOutput| == nx * PackedColumns(ny) && Shows(lib, outim, nx, y)
      ensures Shows(lib, outim, 0, y + 1)
    {
      forall u, v | 0 <= u < nx && 0 <= v < ny
        ensures Written(u, v, 0, y + 1, nx, ny) == Written(u, v, nx, y, nx, ny)
      {
        ShiftIsPermutation(u, nx);
        ShiftIsPermutation(v, ny);
      }
    }

    /** With every frequency shown, each is where and what the full transform prescribes. */
    lemma AllShown(lib: Library, im: Image, outim: array2<real>, kx: nat, ky: nat)
      requires im.Valid() && Sound(lib) && nx == im.nx && ny == im.ny && kx < nx && ky < ny
      requires HalfSpectrum(lib, nx, ny, Flat(im), fftOutput)
      requires Shows(lib, outim, 0, ny)
      ensures ShowsFrequency(lib, im, outim, kx, ky)
    {
      ShiftIsPermutation(kx, nx);
      ShiftIsPermutation(ky, ny);
      var u, v := Shifted(kx, nx), Shifted(ky, ny);
      assert Written(u, v, 0, ny, nx, ny);
      assert outim[u, v] == Value(lib, kx, ky);
      SourceHasModulus(lib, Flat(im), fftOutput, nx, ny, kx, ky);
      SourceHasModulus(lib, Flat(im), fftOutput, nx, ny, 0, 0);
    }

    /** calculateMTF: the image shows, at the shifted position of every frequency, what the full
        transform prescribes. */
    method CalculateMTF(lib: Library, im: Image) returns (outim: array2<real>)
      requires im.Valid() && Sound(lib)
      modifies this
      ensures fresh(outim) && outim.Length0 == im.nx && outim.Length1 == im.ny
      ensures forall kx: nat, ky: nat | kx < im.nx && ky < im.ny :: ShowsFrequency(lib, im, outim, kx, ky)
    {
      outim := new real[im.nx, im.ny]((u, v) => 0.0);
      if im.nx == 0 || im.ny == 0 {
        return;
      }
      LoadInput(im);
      if nx != im.nx || ny != im.ny {
        nx := im.nx;
        ny := im.ny;
      }
      fftOutput := lib.fft(nx, ny, fftInput[..]);
      assert HalfSpectrum(lib, nx, ny, Flat(im), fftOutput);
      var dc := Modulus(lib, Packed(fftOutput, nx, ny, 0, 0));
      NothingShown(lib, outim);
      var y := 0;
      while y < ny
        invariant 0 <= y <= ny && Shows(lib, outim, 0, y)
        modifies outim
      {
        ShowRow(lib, outim, y, dc);
        y := y + 1;
      }
      forall kx: nat, ky: nat | kx < im.nx && ky < im.ny
        ensures ShowsFrequency(lib, im, outim, kx, ky)
      {
        AllShown(lib, im, outim, kx, ky);
      }
    }

    lemma NothingShown(lib: Library, outim: array2<real>)
      requires nx > 0 && ny > 0 && |fftOutput| == nx * PackedColumns(ny)
      requires outim.Length0 == nx && outim.Length1 == ny
      requires forall u, v | 0 <= u < nx && 0 <= v < ny :: outim[u, v] == 0.0
      ensures Shows(lib, outim, 0, 0)
    {
      forall u, v | 0 <= u < nx && 0 <= v < ny
        ensures 0 <= Unshifted(u, nx) < nx && 0 <= Unshifted(v, ny) < ny
      {
        ShiftIsPermutation(u, nx);
        ShiftIsPermutation(v, ny);
      }
    }
  }
}
