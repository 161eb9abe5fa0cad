/** The two-dimensional discrete Fourier transform of a real image, over exact reals, and the
    symmetry that lets half of it stand for the whole.

    The cosine and sine of the multiples of 1/(nx*ny) of a turn are given as two functions of which
    only periodicity and parity are used. */
module Spectrum {

  datatype Coefficient = Coefficient(re: real, im: real)

  datatype Circle = Circle(cos: int -> real, sin: int -> real)

  ghost predicate EvenAndOdd(c: Circle) {
    forall k: int :: c.cos(-k) == c.cos(k) && c.sin(-k) == -c.sin(k)
  }

  ghost predicate Periodic(c: Circle, turn: nat) {
    forall k: int :: c.cos(k + turn) == c.cos(k) && c.sin(k + turn) == c.sin(k)
  }

  /** Phase of pixel (x, y) in coefficient (kx, ky), in units of 1/(nx*ny) of a turn. */
  function Phase(nx: nat, ny: nat, kx: int, ky: int, x: int, y: int): int {
    kx * x * ny + ky * y * nx
  }

  function Plus(c: Circle, s: Coefficient, value: real, phase: int): Coefficient {
    Coefficient(s.re + value * c.cos(phase), s.im - value * c.sin(phase))
  }

  function Conjugate(s: Coefficient): Coefficient {
    Coefficient(s.re, -s.im)
  }

  /** The first `n` terms of the sum for coefficient (kx, ky); pixel (x, y) is term x*ny + y. */
  function Partial(c: Circle, nx: nat, ny: nat, f: seq<real>, kx: int, ky: int, n: nat): Coefficient
    requires n <= |f| && ny > 0
  {
    if n == 0 then Coefficient(0.0, 0.0)
    else
      Plus(c, Partial(c, nx, ny, f, kx, ky, n - 1), f[n - 1], Phase(nx, ny, kx, ky, (n - 1) / ny, (n - 1) % ny))
  }

  /** Coefficient (kx, ky) of the full transform. */
  function Transform(c: Circle, nx: nat, ny: nat, f: seq<real>, kx: int, ky: int): Coefficient
    requires ny > 0
  {
    Partial(c, nx, ny, f, kx, ky, |f|)
  }

  lemma {:induction false} ManyTurns(c: Circle, turn: nat, k: int, m: nat)
    requires Periodic(c, turn)
    ensures c.cos(k + m * turn) == c.cos(k) && c.sin(k + m * turn) == c.sin(k)
  {
    if m > 0 {
      ManyTurns(c, turn, k, m - 1);
      assert (k + (m - 1) * turn) + turn == k + m * turn;
    }
  }

  lemma AnyTurns(c: Circle, turn: nat, k: int, m: int)
    requires Periodic(c, turn)
    ensures c.cos(k + m * turn) == c.cos(k) && c.sin(k + m * turn) == c.sin(k)
  {
    if m >= 0 {
      ManyTurns(c, turn, k, m);
    } else {
      ManyTurns(c, turn, k + m * turn, -m);
      assert (k + m * turn) + (-m) * turn == k;
    }
  }

  /** Reflecting the frequency negates the phase up to whole turns. */
  lemma ReflectedPhase(nx: nat, ny: nat, kx: int, ky: int, a: int, b: int, x: int, y: int)
    ensures Phase(nx, ny, a * nx - kx, b * ny - ky, x, y)
         == -Phase(nx, ny, kx, ky, x, y) + (a * x + b * y) * (nx * ny)
  {
    assert (a * nx - kx) * x * ny == a * x * (nx * ny) - kx * x * ny;
    assert (b * ny - ky) * y * nx == b * y * (nx * ny) - ky * y * nx;
    assert (a * x + b * y) * (nx * ny) == a * x * (nx * ny) + b * y * (nx * ny);
  }

  /** Hermitian symmetry: the coefficient at the reflected frequency is the complex conjugate. */
  lemma {:induction false} Hermitian(c: Circle, nx: nat, ny: nat, f: seq<real>,
                                     kx: int, ky: int, a: int, b: int, n: nat)
    requires EvenAndOdd(c) && Periodic(c, nx * ny) && ny > 0 && n <= |f|
    ensures Partial(c, nx, ny, f, a * nx - kx, b * ny - ky, n) == Conjugate(Partial(c, nx, ny, f, kx, ky, n))
  {
    if n > 0 {
      Hermitian(c, nx, ny, f, kx, ky, a, b, n - 1);
      var x, y := (n - 1) / ny, (n - 1) % ny;
      ReflectedTerm(c, nx, ny, Partial(c, nx, ny, f, kx, ky, n - 1), f[n - 1], kx, ky, a, b, x, y);
    }
  }

  lemma ReflectedTerm(c: Circle, nx: nat, ny: nat, s: Coefficient, value: real,
                      kx: int, ky: int, a: int, b: int, x: int, y: int)
    requires EvenAndOdd(c) && Periodic(c, nx * ny)
    ensures Plus(c, Conjugate(s), value, Phase(nx, ny, a * nx - kx, b * ny - ky, x, y))
         == Conjugate(Plus(c, s, value, Phase(nx, ny, kx, ky, x, y)))
  {
    var p := Phase(nx, ny, kx, ky, x, y);
    ReflectedPhase(nx, ny, kx, ky, a, b, x, y);
    AnyTurns(c, nx * ny, -p, a * x + b * y);
    Opposite(c, s, value, p, Phase(nx, ny, a * nx - kx, b * ny - ky, x, y));
  }

  lemma Opposite(c: Circle, s: Coefficient, value: real, p: int, q: int)
    requires c.cos(q) == c.cos(p) && c.sin(q) == -c.sin(p)
    ensures Plus(c, Conjugate(s), value, q) == Conjugate(Plus(c, s, value, p))
  {
    Negate(value, c.sin(p), c.sin(q));
    var t := Plus(c, s, value, p);
    var u := Plus(c, Conjugate(s), value, q);
    assert u.re == t.re;
    assert u.im == -s.im - value * c.sin(q) == -t.im;
  }

  lemma Negate(v: real, x: real, y: real)
    requires y == -x
    ensures v * y == -(v * x)
  {
  }
}
