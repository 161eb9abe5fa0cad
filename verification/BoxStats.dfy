/** The statistics of a user-drawn box. */
module BoxStats {
  import opened Boxes
  import opened Indexing
  import opened Measure
  import opened Pixels

  function Value(pixels: seq<Pixel>, n: nat): seq<real> {
    if FiniteAt(pixels, n) then [pixels[n].v] else []
  }

  /** The values found before, followed by the finite ones at positions `n` up to `end`. */
  function RowValues(before: seq<real>, pixels: seq<Pixel>, n: nat, end: nat): seq<real> {
    if end <= n then before else RowValues(before, pixels, n, end - 1) + Value(pixels, end - 1)
  }

  lemma NextValue(before: seq<real>, pixels: seq<Pixel>, n: nat, end: nat)
    requires n <= end
    ensures RowValues(before, pixels, n, end + 1) == RowValues(before, pixels, n, end) + Value(pixels, end)
  {
  }

  /** The finite values of a patch, row by row. */
  function PatchValues(pixels: seq<Pixel>, nx: nat, i0: nat, i1: nat, j0: nat, j: nat): seq<real> {
    if j <= j0 then []
    else RowValues(PatchValues(pixels, nx, i0, i1, j0, j - 1), pixels, Index(i0, j - 1, nx), Index(i1, j - 1, nx))
  }

  lemma {:induction false} RowValuesAreShown(before: seq<real>, pixels: seq<Pixel>,
                                             nx: nat, i0: nat, i: nat, j: nat, v: real)
    requires i0 <= i
    ensures v in RowValues(before, pixels, Index(i0, j, nx), Index(i, j, nx))
       <==> v in before || Attained(pixels, Patch(i0, i, j, j + 1, nx), v)
  {
    if i > i0 {
      RowValuesAreShown(before, pixels, nx, i0, i - 1, j, v);
      PatchGrowsRight(i0, i - 1, j, nx);
      var n := Index(i - 1, j, nx);
      assert n in Patch(i0, i, j, j + 1, nx) && n + 1 == Index(i, j, nx);
    }
  }

  lemma {:induction false} PatchValuesAreShown(pixels: seq<Pixel>, nx: nat, i0: nat, i1: nat, j0: nat, j: nat, v: real)
    requires i0 <= i1 && j0 <= j
    ensures v in PatchValues(pixels, nx, i0, i1, j0, j) <==> Attained(pixels, Patch(i0, i1, j0, j, nx), v)
  {
    if j > j0 {
      PatchValuesAreShown(pixels, nx, i0, i1, j0, j - 1, v);
      RowValuesAreShown(PatchValues(pixels, nx, i0, i1, j0, j - 1), pixels, nx, i0, i1, j - 1, v);
      PatchGainsRow(i0, i1, j0, j - 1, nx);
    }
  }

  lemma NothingAttained(pixels: seq<Pixel>, region: set<nat>)
    requires forall v: real :: !Attained(pixels, region, v)
    ensures Blank(pixels, region)
  {
    if n :| n in region && FiniteAt(pixels, n) {
      assert Attained(pixels, region, pixels[n].v);
    }
  }

  datatype BoxMeasure = BoxMeasure(min: real, max: real, mean: real, median: real)

  const NO_MEASURE := BoxMeasure(0.0, 0.0, 0.0, 0.0)

  function MeasureOf(values: seq<real>, median: seq<real> -> real): BoxMeasure {
    if values == [] then NO_MEASURE
    else BoxMeasure(Least(values), Greatest(values), Mean(values), median(values))
  }

  /** The measure of a box whose corners are in order. */
  function BoxMeasured(pixels: seq<Pixel>, nx: nat, b: Box, median: seq<real> -> real): BoxMeasure
    requires 0 <= b.i0 && 0 <= b.i1 && 0 <= b.j0 && 0 <= b.j1
  {
    MeasureOf(PatchValues(pixels, nx, b.i0, b.i1 + 1, b.j0, b.j1 + 1), median)
  }

  /** Zeros for a box without finite pixels; otherwise the attained extremes of its finite pixels,
      with the mean and the median between them. */
  lemma BoxMeasureIsCorrect(pixels: seq<Pixel>, nx: nat, i0: nat, i1: nat, j0: nat, j1: nat, median: seq<real> -> real)
    requires i0 <= i1 && j0 <= j1 && IsMedian(median)
    ensures var patch := Patch(i0, i1, j0, j1, nx);
            var m := MeasureOf(PatchValues(pixels, nx, i0, i1, j0, j1), median);
            && (Blank(pixels, patch) ==> m == NO_MEASURE)
            && (!Blank(pixels, patch) ==>
                  ScanResult(pixels, patch, m.min, m.max) && m.min <= m.mean <= m.max && m.min <= m.median <= m.max)
  {
    var patch := Patch(i0, i1, j0, j1, nx);
    var values := PatchValues(pixels, nx, i0, i1, j0, j1);
    forall v: real
      ensures v in values <==> Attained(pixels, patch, v)
    {
      PatchValuesAreShown(pixels, nx, i0, i1, j0, j1, v);
    }
    if values != [] {
      MeanBetween(values);
      AreExtremes(values);
      var lo, hi := Least(values), Greatest(values);
      assert Attained(pixels, patch, lo) && Attained(pixels, patch, hi);
      forall n | n in patch && FiniteAt(pixels, n)
        ensures lo <= pixels[n].v <= hi
      {
        assert Attained(pixels, patch, pixels[n].v);
      }
    } else {
      assert forall v: real :: !Attained(pixels, patch, v);
      NothingAttained(pixels, patch);
    }
  }

  // ------------------------------------------------------------------------ exact measures

  /** The finite pixels of a patch. */
  ghost function FinitePatch(pixels: seq<Pixel>, nx: nat, i0: nat, i1: nat, j0: nat, j1: nat): set<nat> {
    set n | n in Patch(i0, i1, j0, j1, nx) && n < |pixels| && pixels[n].Fin?
  }

  /** Everything in earlier rows, or earlier in the same row, comes before. */
  lemma ComesBefore(nx: nat, i0: nat, i1: nat, j0: nat, j: nat, i: nat)
    requires i0 <= i < i1 <= nx
    ensures forall n | n in Patch(i0, i1, j0, j, nx) || n in Patch(i0, i, j, j + 1, nx) :: n < Index(i, j, nx)
  {
    forall u: nat, v: nat | i0 <= u < i1 && j0 <= v < j
      ensures Index(u, v, nx) < Index(i, j, nx)
    {
      RowsApart(j, v, nx);
    }
  }

  lemma {:induction false} RowIsListed(before: seq<real>, pixels: seq<Pixel>,
                                       nx: nat, i0: nat, i1: nat, i: nat, j0: nat, j: nat)
    requires i0 <= i <= i1 <= nx && j0 <= j
    requires Lists(before, pixels, FinitePatch(pixels, nx, i0, i1, j0, j))
    ensures Lists(RowValues(before, pixels, Index(i0, j, nx), Index(i, j, nx)), pixels,
                  FinitePatch(pixels, nx, i0, i1, j0, j) + FinitePatch(pixels, nx, i0, i, j, j + 1))
  {
    hide Lists;
    var above := FinitePatch(pixels, nx, i0, i1, j0, j);
    if i == i0 {
      assert above + FinitePatch(pixels, nx, i0, i0, j, j + 1) == above;
    } else {
      RowIsListed(before, pixels, nx, i0, i1, i - 1, j0, j);
      RowGrows(before, pixels, nx, i0, i1, i - 1, j0, j);
    }
  }

  /** One more pixel of the row. */
  lemma RowGrows(before: seq<real>, pixels: seq<Pixel>, nx: nat, i0: nat, i1: nat, i: nat, j0: nat, j: nat)
    requires i0 <= i < i1 <= nx && j0 <= j
    requires Lists(RowValues(before, pixels, Index(i0, j, nx), Index(i, j, nx)), pixels,
                   FinitePatch(pixels, nx, i0, i1, j0, j) + FinitePatch(pixels, nx, i0, i, j, j + 1))
    ensures Lists(RowValues(before, pixels, Index(i0, j, nx), Index(i + 1, j, nx)), pixels,
                  FinitePatch(pixels, nx, i0, i1, j0, j) + FinitePatch(pixels, nx, i0, i + 1, j, j + 1))
  {
    hide Lists, FinitePatch, RowValues;
    var n := Index(i, j, nx);
    var seen := FinitePatch(pixels, nx, i0, i1, j0, j) + FinitePatch(pixels, nx, i0, i, j, j + 1);
    FiniteGrows(pixels, nx, i0, i1, i, j0, j);
    NextValue(before, pixels, Index(i0, j, nx), n);
    if FiniteAt(pixels, n) {
      ListGrows(RowValues(before, pixels, Index(i0, j, nx), n), pixels, seen, n);
    } else {
      var values := RowValues(before, pixels, Index(i0, j, nx), n);
      assert values + Value(pixels, n) == values;
    }
  }

  lemma FiniteGrows(pixels: seq<Pixel>, nx: nat, i0: nat, i1: nat, i: nat, j0: nat, j: nat)
    requires i0 <= i < i1 <= nx && j0 <= j
    ensures var n := Index(i, j, nx);
            var seen := FinitePatch(pixels, nx, i0, i1, j0, j) + FinitePatch(pixels, nx, i0, i, j, j + 1);
            && (forall m | m in seen :: m < n)
            && FinitePatch(pixels, nx, i0, i1, j0, j) + FinitePatch(pixels, nx, i0, i + 1, j, j + 1)
            == if FiniteAt(pixels, n) then seen + {n} else seen
  {
    hide Patch, Index;
    ComesBefore(nx, i0, i1, j0, j, i);
    PatchGrowsRight(i0, i, j, nx);
  }

  lemma {:induction false} PatchIsListed(pixels: seq<Pixel>, nx: nat, i0: nat, i1: nat, j0: nat, j: nat)
    requires i0 <= i1 <= nx && j0 <= j
    ensures Lists(PatchValues(pixels, nx, i0, i1, j0, j), pixels, FinitePatch(pixels, nx, i0, i1, j0, j))
  {
    hide Lists;
    if j == j0 {
      assert FinitePatch(pixels, nx, i0, i1, j0, j0) == {};
      EmptyList(pixels);
    } else {
      PatchIsListed(pixels, nx, i0, i1, j0, j - 1);
      RowIsListed(PatchValues(pixels, nx, i0, i1, j0, j - 1), pixels, nx, i0, i1, i1, j0, j - 1);
      PatchGainsRow(i0, i1, j0, j - 1, nx);
      assert FinitePatch(pixels, nx, i0, i1, j0, j)
          == FinitePatch(pixels, nx, i0, i1, j0, j - 1) + FinitePatch(pixels, nx, i0, i1, j - 1, j);
    }
  }

  /** The measure of a box inside the image is exactly that of its finite pixels: their attained
      extremes, their mean, and the median of their values. */
  lemma BoxMeasureIsExact(pixels: seq<Pixel>, nx: nat, b: Box, median: seq<real> -> real)
    requires 0 <= b.i0 <= b.i1 < nx && 0 <= b.j0 <= b.j1
    ensures var finite := set n | n in Area(b, nx) && n < |pixels| && pixels[n].Fin?;
            var m := BoxMeasured(pixels, nx, b, median);
            if finite == {} then m == BoxMeasure(0.0, 0.0, 0.0, 0.0)
            else Measures(m.min, m.max, m.mean, m.median, pixels, finite, median)
  {
    hide Lists, Measures, PatchValues, Patch, Least, Greatest, Mean;
    var i0, i1, j0, j1 := b.i0, b.i1 + 1, b.j0, b.j1 + 1;
    var values := PatchValues(pixels, nx, i0, i1, j0, j1);
    var finite := FinitePatch(pixels, nx, i0, i1, j0, j1);
    assert finite == set n | n in Area(b, nx) && n < |pixels| && pixels[n].Fin?;
    PatchIsListed(pixels, nx, i0, i1, j0, j1);
    ListIsEmpty(values, pixels, finite);
    if values != [] {
      ListMeasures(values, pixels, finite, median);
    }
  }
}
