/** Pixel boxes: how their corners are brought into the image, and the extremes found in them. */
module Boxes {
  import opened Indexing
  import opened Pixels

  /** Two opposite corners, in any order and anywhere. */
  datatype Box = Box(i0: int, i1: int, j0: int, j1: int)

  /** One corner coordinate brought into an image of `n` columns or rows: the last is never used. */
  function Inside(c: int, n: nat): int {
    if c < 0 then 0 else if c >= n - 1 then n - 2 else c
  }

  function Normalized(b: Box, nx: nat, ny: nat): Box {
    if nx < 2 || ny < 2 then Box(0, 0, 0, 0)
    else
      var i0, i1 := Inside(b.i0, nx), Inside(b.i1, nx);
      var j0, j1 := Inside(b.j0, ny), Inside(b.j1, ny);
      Box(if i0 > i1 then i1 else i0, if i0 > i1 then i0 else i1,
          if j0 > j1 then j1 else j0, if j0 > j1 then j0 else j1)
  }

  /** Ordered corners inside the image; an image too thin for a box is represented by its corner. */
  predicate Normal(b: Box, nx: nat, ny: nat) {
    if nx < 2 || ny < 2 then b == Box(0, 0, 0, 0)
    else 0 <= b.i0 <= b.i1 <= nx - 2 && 0 <= b.j0 <= b.j1 <= ny - 2
  }

  /** The four ways to name the same two opposite corners. */
  predicate SameCorners(a: Box, b: Box) {
    && ((a.i0 == b.i0 && a.i1 == b.i1) || (a.i0 == b.i1 && a.i1 == b.i0))
    && ((a.j0 == b.j0 && a.j1 == b.j1) || (a.j0 == b.j1 && a.j1 == b.j0))
  }

  function Distance(a: int, b: int): nat {
    if a < b then b - a else a - b
  }

  /** `d` is the coordinate nearest to `c` of those that an image of `n` columns or rows admits. */
  predicate Nearest(c: int, d: int, n: nat) {
    0 <= d <= n - 2 && forall e | 0 <= e <= n - 2 :: Distance(c, d) <= Distance(c, e)
  }

  /** Each side of a normalized box is where the nearest admissible coordinates of the two corners are,
      the smaller one first. */
  lemma CornersMoveNearest(b: Box, nx: nat, ny: nat)
    requires nx >= 2 && ny >= 2
    ensures var r := Normalized(b, nx, ny);
            && r.i0 <= r.i1 && r.j0 <= r.j1
            && ((Nearest(b.i0, r.i0, nx) && Nearest(b.i1, r.i1, nx))
                || (Nearest(b.i0, r.i1, nx) && Nearest(b.i1, r.i0, nx)))
            && ((Nearest(b.j0, r.j0, ny) && Nearest(b.j1, r.j1, ny))
                || (Nearest(b.j0, r.j1, ny) && Nearest(b.j1, r.j0, ny)))
  {
    InsideIsNearest(b.i0, nx);
    InsideIsNearest(b.i1, nx);
    InsideIsNearest(b.j0, ny);
    InsideIsNearest(b.j1, ny);
  }

  lemma InsideIsNearest(c: int, n: nat)
    requires n >= 2
    ensures Nearest(c, Inside(c, n), n)
  {
  }

  /** A normalized box is normal; normalizing it again, or starting from the corners in any other
      order, gives the same box; and a box that was normal already is left alone. */
  lemma NormalizationIsCanonical(a: Box, b: Box, nx: nat, ny: nat)
    ensures Normal(Normalized(a, nx, ny), nx, ny)
    ensures Normalized(Normalized(a, nx, ny), nx, ny) == Normalized(a, nx, ny)
    ensures SameCorners(a, b) ==> Normalized(a, nx, ny) == Normalized(b, nx, ny)
    ensures Normal(a, nx, ny) ==> Normalized(a, nx, ny) == a
  {
  }

  // -------------------------------------------------------------------------------- scans

  /** The positions of columns `i0` up to `i1` in rows `j0` up to `j1`, upper bounds excluded. */
  ghost function Patch(i0: nat, i1: nat, j0: nat, j1: nat, nx: nat): set<nat> {
    set i, j | i0 <= i < i1 && j0 <= j < j1 :: Index(i, j, nx)
  }

  ghost function Area(b: Box, nx: nat): set<nat>
    requires b.i0 >= 0 && b.i1 >= -1 && b.j0 >= 0 && b.j1 >= -1
  {
    Patch(b.i0, b.i1 + 1, b.j0, b.j1 + 1, nx)
  }

  lemma PatchGrowsRight(i0: nat, i: nat, j: nat, nx: nat)
    requires i0 <= i
    ensures Patch(i0, i + 1, j, j + 1, nx) == Patch(i0, i, j, j + 1, nx) + {Index(i, j, nx)}
  {
  }

  lemma PatchGrowsDown(i: nat, j0: nat, j: nat, nx: nat)
    requires j0 <= j
    ensures Patch(i, i + 1, j0, j + 1, nx) == Patch(i, i + 1, j0, j, nx) + {Index(i, j, nx)}
  {
  }

  lemma NextInRow(seen: set<nat>, i0: nat, i: nat, j: nat, nx: nat)
    requires i0 <= i
    ensures seen + Patch(i0, i0, j, j + 1, nx) == seen
    ensures seen + Patch(i0, i + 1, j, j + 1, nx) == seen + Patch(i0, i, j, j + 1, nx) + {Index(i, j, nx)}
  {
    PatchGrowsRight(i0, i, j, nx);
  }

  lemma NextInColumn(seen: set<nat>, i: nat, j0: nat, j: nat, nx: nat)
    requires j0 <= j
    ensures seen + Patch(i, i + 1, j0, j0, nx) == seen
    ensures seen + Patch(i, i + 1, j0, j + 1, nx) == seen + Patch(i, i + 1, j0, j, nx) + {Index(i, j, nx)}
  {
    PatchGrowsDown(i, j0, j, nx);
  }

  lemma PatchGainsRow(i0: nat, i1: nat, j0: nat, j: nat, nx: nat)
    requires j0 <= j
    ensures Patch(i0, i1, j0, j + 1, nx) == Patch(i0, i1, j0, j, nx) + Patch(i0, i1, j, j + 1, nx)
  {
  }

  lemma PatchGainsColumn(i0: nat, i: nat, j0: nat, j1: nat, nx: nat)
    requires i0 <= i
    ensures Patch(i0, i + 1, j0, j1, nx) == Patch(i0, i, j0, j1, nx) + Patch(i, i + 1, j0, j1, nx)
  {
  }

  /** All rows and columns together are all positions. */
  lemma WholePatch(nx: nat, ny: nat)
    ensures forall n: nat :: n in Patch(0, nx, 0, ny, nx) <==> n < nx * ny
  {
    forall n: nat | n < nx * ny
      ensures n in Patch(0, nx, 0, ny, nx)
    {
      RowInRange(n, nx, ny);
      assert n == Index(n % nx, n / nx, nx);
    }
    forall i: nat, j: nat | i < nx && j < ny
      ensures Index(i, j, nx) < nx * ny
    {
      InRange(i, j, nx, ny);
    }
  }

  predicate FiniteAt(pixels: seq<Pixel>, n: nat) {
    n < |pixels| && pixels[n].Fin?
  }

  ghost predicate Blank(pixels: seq<Pixel>, region: set<nat>) {
    forall n | n in region :: !FiniteAt(pixels, n)
  }

  ghost predicate Attained(pixels: seq<Pixel>, region: set<nat>, v: real) {
    exists n :: n in region && FiniteAt(pixels, n) && pixels[n].v == v
  }

  /** What a scan that starts from the two opposite sentinels ends with: the attained extremes of
      the finite pixels, or the sentinels themselves when there is none. */
  ghost predicate ScanResult(pixels: seq<Pixel>, region: set<nat>, lo: real, hi: real) {
    && (forall n | n in region && FiniteAt(pixels, n) :: lo <= pixels[n].v <= hi)
    && (Blank(pixels, region) ==> lo == FLT_MAX && hi == -FLT_MAX)
    && (!Blank(pixels, region) ==> Attained(pixels, region, lo) && Attained(pixels, region, hi))
  }

  /** Visiting one more pixel, wherever it is. */
  lemma ScanStep(pixels: seq<Pixel>, region: set<nat>, n: nat, lo: real, hi: real)
    requires ScanResult(pixels, region, lo, hi)
    ensures !FiniteAt(pixels, n) ==> ScanResult(pixels, region + {n}, lo, hi)
    ensures FiniteAt(pixels, n) ==>
              ScanResult(pixels, region + {n},
                         if pixels[n].v < lo then pixels[n].v else lo,
                         if pixels[n].v > hi then pixels[n].v else hi)
  {
    var grown := region + {n};
    if FiniteAt(pixels, n) {
      assert n in grown && !Blank(pixels, grown);
    }
    if !Blank(pixels, region) {
      var k :| k in region && FiniteAt(pixels, k) && pixels[k].v == lo;
      var l :| l in region && FiniteAt(pixels, l) && pixels[l].v == hi;
      assert k in grown && l in grown;
    }
  }

  /** A scan's answer does not depend on the order in which the pixels are visited; the sentinels
      come back exactly when there is nothing finite to see. */
  lemma ScanIsUnique(pixels: seq<Pixel>, region: set<nat>, lo: real, hi: real, lo': real, hi': real)
    requires ScanResult(pixels, region, lo, hi) && ScanResult(pixels, region, lo', hi')
    ensures lo == lo' && hi == hi'
    ensures lo > hi <==> Blank(pixels, region)
  {
    if !Blank(pixels, region) {
      var k :| k in region && FiniteAt(pixels, k) && pixels[k].v == lo;
      var l :| l in region && FiniteAt(pixels, l) && pixels[l].v == lo';
      var m :| m in region && FiniteAt(pixels, m) && pixels[m].v == hi;
      var p :| p in region && FiniteAt(pixels, p) && pixels[p].v == hi';
    }
  }
}
