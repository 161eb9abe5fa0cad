/** Count, extremes, mean and median of the finite pixel values that a statistics pass collects. */
module Measure {
  import opened GlobalStats
  import opened Pixels

  function Sum(s: seq<real>): real {
    if s == [] then 0.0 else Sum(s[..|s| - 1]) + s[|s| - 1]
  }

  function Lower(a: real, b: real): real {
    if b < a then b else a
  }

  function Upper(a: real, b: real): real {
    if a < b then b else a
  }

  function Least(s: seq<real>): real
    requires s != []
  {
    if |s| == 1 then s[0] else Lower(Least(s[..|s| - 1]), s[|s| - 1])
  }

  function Greatest(s: seq<real>): real
    requires s != []
  {
    if |s| == 1 then s[0] else Upper(Greatest(s[..|s| - 1]), s[|s| - 1])
  }

  /** The least and the greatest value are among the values and bound them all. */
  lemma {:induction false} AreExtremes(s: seq<real>)
    requires s != []
    ensures Least(s) in s && Greatest(s) in s
    ensures forall v | v in s :: Least(s) <= v <= Greatest(s)
  {
    var last := |s| - 1;
    assert s == s[..last] + [s[last]];
    if last > 0 {
      AreExtremes(s[..last]);
    }
  }

  lemma OneMore(s: seq<real>, v: real)
    ensures Sum(s + [v]) == Sum(s) + v
    ensures s == [] ==> Least(s + [v]) == Greatest(s + [v]) == v
    ensures s != [] ==> Least(s + [v]) == Lower(Least(s), v) && Greatest(s + [v]) == Upper(Greatest(s), v)
  {
    assert (s + [v])[..|s|] == s;
  }

  /** The median routine sorts a work buffer that is not part of this model; all that is used of it
      is that its answer lies within the values it is given. */
  ghost predicate IsMedian(median: seq<real> -> real) {
    forall s: seq<real> | s != [] :: Least(s) <= median(s) <= Greatest(s)
  }

  predicate Within(s: seq<real>, lo: real, hi: real) {
    forall i | 0 <= i < |s| :: lo <= s[i] <= hi
  }

  lemma {:induction false} SumBounds(s: seq<real>, lo: real, hi: real)
    requires Within(s, lo, hi)
    ensures lo * |s| as real <= Sum(s) <= hi * |s| as real
  {
    if s != [] {
      var last := |s| - 1;
      SumBounds(s[..last], lo, hi);
      var n := last as real;
      assert |s| as real == n + 1.0;
      assert lo * (n + 1.0) == lo * n + lo && hi * (n + 1.0) == hi * n + hi;
    }
  }

  function Mean(s: seq<real>): real
    requires s != []
  {
    Sum(s) / |s| as real
  }

  lemma QuotientBetween(total: real, n: real, lo: real, hi: real)
    requires n > 0.0 && lo * n <= total <= hi * n
    ensures lo <= total / n <= hi
  {
    var q := total / n;
    assert q * n == total;
    assert q < lo ==> (lo - q) * n > 0.0;
    assert q > hi ==> (q - hi) * n > 0.0;
  }

  lemma MeanWithin(s: seq<real>, lo: real, hi: real)
    requires s != [] && Within(s, lo, hi)
    ensures lo <= Mean(s) <= hi
  {
    SumBounds(s, lo, hi);
    QuotientBetween(Sum(s), |s| as real, lo, hi);
  }

  lemma MeanBetween(s: seq<real>)
    requires s != []
    ensures Least(s) <= Mean(s) <= Greatest(s)
  {
    AreExtremes(s);
    var lo, hi := Least(s), Greatest(s);
    assert Within(s, lo, hi) by {
      assert forall i | 0 <= i < |s| :: s[i] in s;
    }
    MeanWithin(s, lo, hi);
  }

  // ------------------------------------------------------------- what a statistics pass keeps

  /** Pixel `n` takes part in the statistics. */
  predicate Chosen(pixels: seq<Pixel>, selection: seq<bool>, useMask: bool, n: nat)
    requires n < |pixels| && (useMask ==> n < |selection|)
  {
    (useMask ==> selection[n]) && pixels[n].Fin?
  }

  /** The values kept from the first `k` pixels, in order. */
  function Values(pixels: seq<Pixel>, selection: seq<bool>, useMask: bool, k: nat): seq<real>
    requires k <= |pixels| && (useMask ==> k <= |selection|)
  {
    if k == 0 then []
    else
      var before := Values(pixels, selection, useMask, k - 1);
      if Chosen(pixels, selection, useMask, k - 1) then before + [pixels[k - 1].v] else before
  }

  /** The kept values are the finite selected pixels, neither more nor fewer. */
  lemma {:induction false} ValuesAreChosen(pixels: seq<Pixel>, selection: seq<bool>, useMask: bool, k: nat)
    requires k <= |pixels| && (useMask ==> k <= |selection|)
    ensures forall v | v in Values(pixels, selection, useMask, k) ::
              exists n: nat :: n < k && Chosen(pixels, selection, useMask, n) && pixels[n].v == v
    ensures forall n: nat | n < k && Chosen(pixels, selection, useMask, n) ::
              pixels[n].v in Values(pixels, selection, useMask, k)
    ensures |Values(pixels, selection, useMask, k)|
         == |set n: nat | n < k && Chosen(pixels, selection, useMask, n)|
  {
    if k > 0 {
      ValuesAreChosen(pixels, selection, useMask, k - 1);
      var before := set n: nat | n < k - 1 && Chosen(pixels, selection, useMask, n);
      var now := set n: nat | n < k && Chosen(pixels, selection, useMask, n);
      if Chosen(pixels, selection, useMask, k - 1) {
        assert now == before + {k - 1};
        assert pixels[k - 1].v in Values(pixels, selection, useMask, k);
      } else {
        assert now == before;
      }
    }
  }

  // ------------------------------------------------------------- measured without a work list

  /** The values of the chosen positions below `k`, added up position by position. */
  function Total(pixels: seq<Pixel>, chosen: set<nat>, k: nat): real
    requires k <= |pixels|
  {
    if k == 0 then 0.0
    else Total(pixels, chosen, k - 1) + if k - 1 in chosen && pixels[k - 1].Fin? then pixels[k - 1].v else 0.0
  }

  /** The chosen positions, each once and in ascending order. */
  ghost predicate Enumerates(ps: seq<nat>, chosen: set<nat>) {
    && (forall i, j | 0 <= i < j < |ps| :: ps[i] < ps[j])
    && (forall n :: n in ps <==> n in chosen)
  }

  /** The values are exactly those of the chosen positions, in the order of the positions. */
  ghost predicate ListsAt(values: seq<real>, ps: seq<nat>, pixels: seq<Pixel>, chosen: set<nat>) {
    && Enumerates(ps, chosen) && |values| == |ps|
    && forall i | 0 <= i < |ps| :: ps[i] < |pixels| && pixels[ps[i]] == Fin(values[i])
  }

  ghost predicate Lists(values: seq<real>, pixels: seq<Pixel>, chosen: set<nat>) {
    exists ps :: ListsAt(values, ps, pixels, chosen)
  }

  /** The four measurements are those of the chosen positions: the attained extremes, the mean of
      their values, and the median routine's answer for exactly their values. */
  ghost predicate Measures(lo: real, hi: real, mean: real, med: real,
                           pixels: seq<Pixel>, chosen: set<nat>, median: seq<real> -> real) {
    && (forall n | n in chosen :: n < |pixels| && pixels[n].Fin? && lo <= pixels[n].v <= hi)
    && (exists n :: n in chosen && n < |pixels| && pixels[n] == Fin(lo))
    && (exists n :: n in chosen && n < |pixels| && pixels[n] == Fin(hi))
    && mean * |chosen| as real == Total(pixels, chosen, |pixels|)
    && exists values :: Lists(values, pixels, chosen) && med == median(values)
  }

  /** One more position, beyond all that were chosen before. */
  lemma ListGrows(values: seq<real>, pixels: seq<Pixel>, chosen: set<nat>, n: nat)
    requires Lists(values, pixels, chosen) && n < |pixels| && pixels[n].Fin?
    requires forall m | m in chosen :: m < n
    ensures Lists(values + [pixels[n].v], pixels, chosen + {n})
  {
    hide Enumerates;
    var ps :| ListsAt(values, ps, pixels, chosen);
    MoreEnumerated(ps, chosen, n);
    assert ListsAt(values + [pixels[n].v], ps + [n], pixels, chosen + {n});
  }

  lemma MoreEnumerated(ps: seq<nat>, chosen: set<nat>, n: nat)
    requires Enumerates(ps, chosen) && forall m | m in chosen :: m < n
    ensures Enumerates(ps + [n], chosen + {n})
  {
    var qs := ps + [n];
    forall i, j | 0 <= i < j < |qs|
      ensures qs[i] < qs[j]
    {
      assert qs[i] == ps[i] && ps[i] in ps;
    }
    forall m
      ensures m in qs <==> m in chosen + {n}
    {
      assert m in qs <==> m in ps || m == n;
    }
  }

  lemma EmptyList(pixels: seq<Pixel>)
    ensures Lists([], pixels, {})
  {
    assert ListsAt([], [], pixels, {});
  }

  lemma {:induction false} TotalsAgree(pixels: seq<Pixel>, chosen: set<nat>, other: set<nat>, k: nat)
    requires k <= |pixels| && forall n: nat | n < k :: n in chosen <==> n in other
    ensures Total(pixels, chosen, k) == Total(pixels, other, k)
  {
    if k > 0 {
      TotalsAgree(pixels, chosen, other, k - 1);
    }
  }

  lemma {:induction false} NothingBeyond(pixels: seq<Pixel>, chosen: set<nat>, k: nat, l: nat)
    requires k <= l <= |pixels| && forall n | n in chosen :: n < k
    ensures Total(pixels, chosen, l) == Total(pixels, chosen, k)
  {
    if k < l {
      NothingBeyond(pixels, chosen, k, l - 1);
    }
  }

  /** Without the last position. */
  lemma RestListed(values: seq<real>, ps: seq<nat>, pixels: seq<Pixel>, chosen: set<nat>)
    requires ListsAt(values, ps, pixels, chosen) && ps != []
    ensures var last := |ps| - 1;
            && |values| == |ps| && ps[last] < |pixels| && pixels[ps[last]] == Fin(values[last])
            && ps[last] in chosen && (forall n | n in chosen && n != ps[last] :: n < ps[last])
            && ListsAt(values[..last], ps[..last], pixels, chosen - {ps[last]})
  {
    var last := |ps| - 1;
    var front := ps[..last];
    assert ps == front + [ps[last]];
    assert ps[last] in ps;
    forall n
      ensures n in front <==> n in chosen - {ps[last]}
    {
      assert n in ps <==> n in front || n == ps[last];
    }
    forall n | n in chosen && n != ps[last]
      ensures n < ps[last]
    {
      assert n in ps;
    }
  }

  lemma NothingListed(values: seq<real>, pixels: seq<Pixel>, chosen: set<nat>)
    requires ListsAt(values, [], pixels, chosen)
    ensures values == [] && chosen == {}
  {
  }

  /** A list of the chosen positions' values has their number and their total. */
  lemma {:induction false} ListIsExact(values: seq<real>, ps: seq<nat>, pixels: seq<Pixel>, chosen: set<nat>)
    requires ListsAt(values, ps, pixels, chosen)
    ensures |values| == |chosen| && Sum(values) == Total(pixels, chosen, |pixels|)
  {
    hide ListsAt;
    if ps == [] {
      NothingListed(values, pixels, chosen);
      NothingBeyond(pixels, {}, 0, |pixels|);
    } else {
      var last := |ps| - 1;
      RestListed(values, ps, pixels, chosen);
      ListIsExact(values[..last], ps[..last], pixels, chosen - {ps[last]});
      TotalWithout(pixels, chosen, ps[last]);
    }
  }

  /** The last position adds its value. */
  lemma TotalWithout(pixels: seq<Pixel>, chosen: set<nat>, p: nat)
    requires p in chosen && p < |pixels| && pixels[p].Fin? && forall n | n in chosen && n != p :: n < p
    ensures |chosen| == |chosen - {p}| + 1
    ensures Total(pixels, chosen, |pixels|) == Total(pixels, chosen - {p}, |pixels|) + pixels[p].v
  {
    hide Total;
    var rest := chosen - {p};
    assert chosen == rest + {p};
    NothingBeyond(pixels, rest, p, |pixels|);
    NothingBeyond(pixels, chosen, p + 1, |pixels|);
    TotalStep(pixels, chosen, p);
    TotalsAgree(pixels, chosen, rest, p);
  }

  lemma TotalStep(pixels: seq<Pixel>, chosen: set<nat>, p: nat)
    requires p in chosen && p < |pixels| && pixels[p].Fin?
    ensures Total(pixels, chosen, p + 1) == Total(pixels, chosen, p) + pixels[p].v
  {
  }

  lemma ListBounds(values: seq<real>, ps: seq<nat>, pixels: seq<Pixel>, chosen: set<nat>)
    requires ListsAt(values, ps, pixels, chosen) && values != []
    ensures forall n | n in chosen :: n < |pixels| && pixels[n].Fin? && Least(values) <= pixels[n].v <= Greatest(values)
    ensures exists n :: n in chosen && n < |pixels| && pixels[n] == Fin(Least(values))
    ensures exists n :: n in chosen && n < |pixels| && pixels[n] == Fin(Greatest(values))
  {
    hide Least, Greatest;
    AreExtremes(values);
    var k :| 0 <= k < |values| && values[k] == Least(values);
    var l :| 0 <= l < |values| && values[l] == Greatest(values);
    assert ps[k] in ps && ps[l] in ps;
    forall n | n in chosen
      ensures n < |pixels| && pixels[n].Fin? && Least(values) <= pixels[n].v <= Greatest(values)
    {
      assert n in ps;
      var i :| 0 <= i < |ps| && ps[i] == n;
      assert values[i] in values;
    }
  }

  /** Least, greatest, mean and median of a list of the chosen positions' values measure them. */
  lemma ListMeasures(values: seq<real>, pixels: seq<Pixel>, chosen: set<nat>, median: seq<real> -> real)
    requires Lists(values, pixels, chosen) && values != []
    ensures |values| == |chosen|
    ensures Measures(Least(values), Greatest(values), Mean(values), median(values), pixels, chosen, median)
  {
    hide ListsAt, Least, Greatest, Mean, Total, Sum;
    var ps :| ListsAt(values, ps, pixels, chosen);
    ListIsExact(values, ps, pixels, chosen);
    ListBounds(values, ps, pixels, chosen);
    MeanTimes(values);
  }

  lemma ListIsEmpty(values: seq<real>, pixels: seq<Pixel>, chosen: set<nat>)
    requires Lists(values, pixels, chosen)
    ensures |values| == |chosen| && (values == [] <==> chosen == {})
  {
    hide ListsAt;
    var ps :| ListsAt(values, ps, pixels, chosen);
    ListIsExact(values, ps, pixels, chosen);
  }

  lemma MeanTimes(values: seq<real>)
    requires values != []
    ensures Mean(values) * |values| as real == Sum(values)
  {
  }

  // ------------------------------------------------------------------ the published snapshot

  /** What a pass with the given input status publishes about the values it kept. */
  function Published(useMask: bool, input: Status, values: seq<real>, median: seq<real> -> real): Stats {
    var s := Cleared(true, useMask, input);
    if input.Valid? then
      if values == [] then s.(status := Empty)
      else s.(count := |values|, min := Least(values), max := Greatest(values), mean := Mean(values),
              median := median(values))
    else s
  }

  /** Whatever a pass publishes is coherent, and a valid snapshot encloses its mean and median. */
  lemma PublishedIsCoherent(useMask: bool, input: Status, values: seq<real>, median: seq<real> -> real)
    requires IsMedian(median)
    ensures var s := Published(useMask, input, values, median);
            && Coherent(s) && s.enabled && s.useMask == useMask
            && (s.status.Valid? <==> input.Valid? && values != [])
            && (s.status.Valid? ==>
                  s.min <= s.mean <= s.max && s.min <= s.median <= s.max)
  {
    if values != [] {
      MeanBetween(values);
    }
  }

  /** The positions that statistics are about: finite pixels, and under a mask only selected ones. */
  ghost function Pool(pixels: seq<Pixel>, selection: seq<bool>, useMask: bool): set<nat> {
    set n: nat | n < |pixels| && pixels[n].Fin? && (useMask ==> n < |selection| && selection[n])
  }

  lemma {:induction false} ValuesAreListed(pixels: seq<Pixel>, selection: seq<bool>, useMask: bool, k: nat)
    requires k <= |pixels| && (useMask ==> |pixels| <= |selection|)
    ensures Lists(Values(pixels, selection, useMask, k), pixels,
                  set n | n in Pool(pixels, selection, useMask) && n < k)
  {
    var all := Pool(pixels, selection, useMask);
    var now := set n | n in all && n < k;
    if k == 0 {
      assert now == {};
      EmptyList(pixels);
    } else {
      ValuesAreListed(pixels, selection, useMask, k - 1);
      var before := set n | n in all && n < k - 1;
      if Chosen(pixels, selection, useMask, k - 1) {
        ListGrows(Values(pixels, selection, useMask, k - 1), pixels, before, k - 1);
        assert now == before + {k - 1};
      } else {
        assert now == before;
      }
    }
  }

  /** A valid snapshot measures exactly the finite selected pixels: their number, their attained
      extremes, their mean, and the median of their values. */
  lemma PublishedMeasuresSelection(pixels: seq<Pixel>, selection: seq<bool>, useMask: bool, median: seq<real> -> real)
    requires useMask ==> |pixels| <= |selection|
    ensures var s := Published(useMask, Valid, Values(pixels, selection, useMask, |pixels|), median);
            var pool := Pool(pixels, selection, useMask);
            && s.count == |pool| && (s.status.Valid? <==> pool != {})
            && (pool != {} ==> Measures(s.min, s.max, s.mean, s.median, pixels, pool, median))
  {
    var values := Values(pixels, selection, useMask, |pixels|);
    var pool := Pool(pixels, selection, useMask);
    ValuesAreListed(pixels, selection, useMask, |pixels|);
    assert pool == set n | n in pool && n < |pixels|;
    ListIsEmpty(values, pixels, pool);
    if values != [] {
      ListMeasures(values, pixels, pool, median);
    }
  }
}
