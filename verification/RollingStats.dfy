/** The client's rolling transport statistics: running sums over bounded windows of samples. */
module RollingStats {
  import opened Measure
  import opened Quotients
  import opened Wrappers

  /** The last `w` samples, or all of them if there are fewer. */
  function Last(samples: seq<real>, w: nat): seq<real> {
    if |samples| <= w then samples else samples[|samples| - w..]
  }

  lemma {:induction false} SumFromFront(s: seq<real>)
    requires s != []
    ensures Sum(s) == s[0] + Sum(s[1..])
  {
    var last := |s| - 1;
    if last > 0 {
      SumFromFront(s[..last]);
      assert s[..last][1..] == s[1..][..last - 1];
      assert s[1..][|s[1..]| - 1] == s[last];
    } else {
      assert s[..last] == [] && s[1..] == [];
    }
  }

  /** Sliding a window that already holds the last samples gives the last samples again. */
  lemma LastSlides(samples: seq<real>, x: real, w: nat)
    ensures Last(Last(samples, w) + [x], w) == Last(samples + [x], w)
  {
  }

  /** Append a sample to a window and its running sum, then drop from the front until it fits. */
  method Slide(recent: seq<real>, sum: real, x: real, w: nat) returns (recent': seq<real>, sum': real)
    requires sum == Sum(recent)
    ensures recent' == Last(recent + [x], w) && sum' == Sum(recent')
  {
    OneMore(recent, x);
    recent', sum' := recent + [x], sum + x;
    ghost var all := recent';
    ghost var dropped: nat := 0;
    while |recent'| > w
      invariant dropped <= |all| && recent' == all[dropped..]
      invariant dropped == 0 || |recent'| >= w
      invariant sum' == Sum(recent')
    {
      SumFromFront(recent');
      sum' := sum' - recent'[0];
      recent' := recent'[1..];
      dropped := dropped + 1;
    }
  }

  /** The window of one averaged quantity, and the running sum of the window. */
  datatype Window = Window(recent: seq<real>, sum: real)

  const NO_SAMPLES := Window([], 0.0)

  /** What the simple definition keeps of all the samples accepted so far. */
  function WindowOf(samples: seq<real>, w: nat): Window {
    Window(Last(samples, w), Sum(Last(samples, w)))
  }

  /** The mean of the last samples. */
  function Average(samples: seq<real>, w: nat): real
    requires samples != [] && w >= 1
  {
    Mean(Last(samples, w))
  }

  /** The average lies between the least and the greatest of the last samples. */
  lemma AverageIsBetween(samples: seq<real>, w: nat)
    requires samples != [] && w >= 1
    ensures Last(samples, w) != [] && |Last(samples, w)| <= w
    ensures Least(Last(samples, w)) <= Average(samples, w) <= Greatest(Last(samples, w))
  {
    MeanBetween(Last(samples, w));
  }

  /** The samples from position `k` on, added up. */
  function TotalFrom(samples: seq<real>, k: nat): real
    requires k <= |samples|
    decreases |samples| - k
  {
    if k == |samples| then 0.0 else samples[k] + TotalFrom(samples, k + 1)
  }

  lemma {:induction false} TailSum(samples: seq<real>, k: nat)
    requires k <= |samples|
    ensures Sum(samples[k..]) == TotalFrom(samples, k)
    decreases |samples| - k
  {
    if k < |samples| {
      TailSum(samples, k + 1);
      SumFromFront(samples[k..]);
      assert samples[k..][1..] == samples[k + 1..];
    }
  }

  /** The average times the number of samples in the window, which is the window's size or all there
      are, is the total of exactly the most recent ones. */
  lemma AverageIsExact(samples: seq<real>, w: nat)
    requires samples != [] && w >= 1
    ensures var n := if |samples| < w then |samples| else w;
            Average(samples, w) * n as real == TotalFrom(samples, |samples| - n)
  {
    hide Sum, Mean, TotalFrom;
    var n := if |samples| < w then |samples| else w;
    assert Last(samples, w) == samples[|samples| - n..];
    TailSum(samples, |samples| - n);
    MeanTimes(Last(samples, w));
  }

  /** A published frame rate times the average interval is one. */
  lemma RateIsReciprocal(rate: real, intervals: seq<real>, w: nat)
    requires RateOf(rate, intervals, w)
    ensures rate * Average(intervals, w) == 1.0
  {
    hide Average;
    QuotientTimes(1.0, Average(intervals, w));
  }

  /** Take one more sample. */
  method Accept(win: Window, ghost samples: seq<real>, x: real, w: nat) returns (r: Window, avg: real)
    requires w >= 1 && win == WindowOf(samples, w)
    ensures r == WindowOf(samples + [x], w)
    ensures avg == Average(samples + [x], w)
  {
    LastSlides(samples, x, w);
    var recent, sum := Slide(win.recent, win.sum, x, w);
    r, avg := Window(recent, sum), sum / |recent| as real;
  }

  /** Seconds between two publications of the frame rate. */
  const PUBLISH_INTERVAL := 1.0

  function SourceBytes(nx: nat, ny: nat, bytesPerPixel: nat): nat {
    nx * ny * bytesPerPixel
  }

  /** The frame rate is published at most once per interval. */
  predicate Due(lastPublish: Option<real>, now: real) {
    lastPublish.None? || now - lastPublish.value >= PUBLISH_INTERVAL
  }

  lemma DueAfterInterval(lastPublish: Option<real>, now: real)
    ensures Due(lastPublish, now) <==> lastPublish.None? || now - lastPublish.value >= 1.0
  {
  }

  /** A frame rate that belongs to the average of the last intervals. */
  predicate RateOf(rate: real, intervals: seq<real>, w: nat) {
    intervals != [] && w >= 1 && Average(intervals, w) > 0.0 && rate == Quotient(1.0, Average(intervals, w))
  }

  class TransportStats {
    var rollingStatsFrames: int

    var lastRtt: real
    var rtt: Window
    var avgRtt: real
    var lastArrival: Option<real>
    var interval: Window
    var lastPublish: Option<real>
    var avgFrameRate: real
    var lastRatio: real
    var ratio: Window
    var avgRatio: real

    // The samples accepted since the last reset.
    ghost var rtts: seq<real>
    ghost var intervals: seq<real>
    ghost var ratios: seq<real>

    /** The number of frames averaged over: never less than one. */
    function Frames(): nat
      reads this`rollingStatsFrames
    {
      if rollingStatsFrames < 1 then 1 else rollingStatsFrames
    }

    /** Each window holds exactly the last samples, and each running sum is that of its window. */
    ghost predicate Valid()
      reads this
    {
      && rtt == WindowOf(rtts, Frames())
      && interval == WindowOf(intervals, Frames())
      && ratio == WindowOf(ratios, Frames())
      && Positive(intervals)
    }

    constructor (frames: int)
      ensures Valid() && rollingStatsFrames == frames && rtts == intervals == ratios == []
    {
      rollingStatsFrames := frames;
      rtt, interval, ratio := NO_SAMPLES, NO_SAMPLES, NO_SAMPLES;
      lastRtt, avgRtt, lastRatio, avgRatio, avgFrameRate := 0.0, 0.0, 0.0, 0.0, 0.0;
      lastArrival, lastPublish := None, None;
      rtts, intervals, ratios := [], [], [];
    }

    /** A newly configured connection starts from nothing; one that a probe renews keeps its samples. */
    method Reset()
      modifies this
      ensures Valid() && rollingStatsFrames == old(rollingStatsFrames)
      ensures rtts == intervals == ratios == []
      ensures lastRatio == avgRatio == avgFrameRate == lastRtt == avgRtt == 0.0
      ensures lastArrival == lastPublish == None
    {
      lastRatio := 0.0;
      avgRatio := 0.0;
      avgFrameRate := 0.0;
      lastRtt := 0.0;
      avgRtt := 0.0;
      rtt, interval, ratio := NO_SAMPLES, NO_SAMPLES, NO_SAMPLES;
      lastArrival := None;
      lastPublish := None;
      rtts, intervals, ratios := [], [], [];
    }

    method ClampFrames()
      modifies this`rollingStatsFrames
      ensures rollingStatsFrames == old(Frames())
      ensures rollingStatsFrames == if old(rollingStatsFrames) < 1 then 1 else old(rollingStatsFrames)
    {
      if rollingStatsFrames < 1 {
        rollingStatsFrames := 1;
      }
    }

    method UpdateRtt(sample: real)
      requires Valid()
      modifies this`rollingStatsFrames, this`lastRtt, this`rtt, this`avgRtt, this`rtts
      ensures Valid() && rollingStatsFrames == old(Frames())
      ensures lastRtt == sample && rtts == old(rtts) + [sample]
      ensures avgRtt == Average(rtts, rollingStatsFrames)
    {
      hide Average, WindowOf;
      ClampFrames();
      lastRtt := sample;
      rtt, avgRtt := Accept(rtt, rtts, sample, rollingStatsFrames);
      rtts := rtts + [sample];
    }

    method AddInterval(seconds: real) returns (avg: real)
      requires Valid() && rollingStatsFrames >= 1 && seconds > 0.0
      modifies this`interval, this`intervals
      ensures Valid() && intervals == old(intervals) + [seconds]
      ensures avg == Average(intervals, rollingStatsFrames)
    {
      hide Average, WindowOf;
      interval, avg := Accept(interval, intervals, seconds, rollingStatsFrames);
      intervals := intervals + [seconds];
    }

    /** Publish the frame rate that belongs to an average interval, unless it was just published. */
    method PublishRate(now: real, avg: real)
      modifies this`avgFrameRate, this`lastPublish
      ensures if avg > 0.0 && Due(old(lastPublish), now)
              then lastPublish == Some(now) && avgFrameRate == Quotient(1.0, avg)
              else lastPublish == old(lastPublish) && avgFrameRate == old(avgFrameRate)
    {
      if avg > 0.0 {
        if lastPublish.None? || now - lastPublish.value >= PUBLISH_INTERVAL {
          avgFrameRate := Quotient(1.0, avg);
          lastPublish := Some(now);
        }
      }
    }

    /** A positive time between two arrivals is a sample, and brings the frame rate up to date. */
    method AddArrival(seconds: real, now: real)
      requires Valid() && rollingStatsFrames >= 1 && seconds > 0.0
      modifies this`interval, this`intervals, this`avgFrameRate, this`lastPublish
      ensures Valid() && intervals == old(intervals) + [seconds]
      ensures if Due(old(lastPublish), now)
              then lastPublish == Some(now) && RateOf(avgFrameRate, intervals, rollingStatsFrames)
              else lastPublish == old(lastPublish) && avgFrameRate == old(avgFrameRate)
    {
      hide Average, WindowOf, Quotient, Positive, Due;
      var avg := AddInterval(seconds);
      AverageIsPositive(intervals, rollingStatsFrames);
      PublishRate(now, avg);
    }

    method UpdateFrameRate(now: real)
      requires Valid() && rollingStatsFrames >= 1
      modifies this`lastArrival, this`interval, this`intervals, this`avgFrameRate, this`lastPublish
      ensures Valid() && lastArrival == Some(now)
      ensures intervals == if old(lastArrival).Some? && now > old(lastArrival).value
                           then old(intervals) + [now - old(lastArrival).value] else old(intervals)
      ensures if intervals != old(intervals) && Due(old(lastPublish), now)
              then lastPublish == Some(now) && RateOf(avgFrameRate, intervals, rollingStatsFrames)
              else lastPublish == old(lastPublish) && avgFrameRate == old(avgFrameRate)
    {
      hide RateOf, WindowOf, Positive, Due;
      if lastArrival.Some? {
        var seconds := now - lastArrival.value;
        if seconds > 0.0 {
          AddArrival(seconds, now);
        }
      }
      lastArrival := Some(now);
    }

    method UpdateTransport(nx: nat, ny: nat, compressedBytes: nat, sourceBytesPerPixel: nat, validPayload: bool,
                           now: real)
      requires Valid()
      modifies this`rollingStatsFrames, this`lastArrival, this`interval, this`intervals
      modifies this`avgFrameRate, this`lastPublish
      modifies this`lastRatio, this`ratio, this`avgRatio, this`ratios
      ensures Valid() && rollingStatsFrames == old(Frames()) && lastArrival == Some(now)
      ensures intervals == if old(lastArrival).Some? && now > old(lastArrival).value
                           then old(intervals) + [now - old(lastArrival).value] else old(intervals)
      ensures if intervals != old(intervals) && Due(old(lastPublish), now)
              then lastPublish == Some(now) && RateOf(avgFrameRate, intervals, rollingStatsFrames)
              else lastPublish == old(lastPublish) && avgFrameRate == old(avgFrameRate)
      ensures if validPayload && compressedBytes > 0
                 && sourceBytesPerPixel > 0 && SourceBytes(nx, ny, sourceBytesPerPixel) > 0
              then && ratios == old(ratios) + [lastRatio]
                   && lastRatio == Quotient(SourceBytes(nx, ny, sourceBytesPerPixel) as real, compressedBytes as real)
                   && avgRatio == Average(ratios, rollingStatsFrames)
              else ratios == old(ratios) && lastRatio == old(lastRatio) && avgRatio == old(avgRatio)
      ensures lastPublish == (if intervals != old(intervals)
                                 && (old(lastPublish).None? || now - old(lastPublish).value >= 1.0)
                              then Some(now) else old(lastPublish))
      ensures ratios != old(ratios) ==> lastRatio * compressedBytes as real == (nx * ny * sourceBytesPerPixel) as real
    {
      hide Average, RateOf, WindowOf, Quotient, Positive, Due;
      DueAfterInterval(lastPublish, now);
      ClampFrames();
      UpdateFrameRate(now);
      if !validPayload || compressedBytes == 0 || sourceBytesPerPixel == 0 {
        return;
      }
      var sourceBytes := SourceBytes(nx, ny, sourceBytesPerPixel);
      if sourceBytes <= 0 {
        return;
      }
      QuotientTimes(sourceBytes as real, compressedBytes as real);
      AddRatio(Quotient(sourceBytes as real, compressedBytes as real));
    }

    method AddRatio(sample: real)
      requires Valid() && rollingStatsFrames >= 1
      modifies this`lastRatio, this`ratio, this`avgRatio, this`ratios
      ensures Valid() && lastRatio == sample && ratios == old(ratios) + [sample]
      ensures avgRatio == Average(ratios, rollingStatsFrames)
    {
      hide Average, WindowOf;
      lastRatio := sample;
      ratio, avgRatio := Accept(ratio, ratios, sample, rollingStatsFrames);
      ratios := ratios + [sample];
    }
  }

  predicate Positive(samples: seq<real>) {
    forall i | 0 <= i < |samples| :: samples[i] > 0.0
  }

  /** The guard on the average interval never fails: recorded intervals are positive. */
  lemma AverageIsPositive(samples: seq<real>, w: nat)
    requires samples != [] && Positive(samples) && w >= 1
    ensures Average(samples, w) > 0.0
  {
    AreExtremes(Last(samples, w));
    AverageIsBetween(samples, w);
  }
}
