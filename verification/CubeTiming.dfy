/** Scheduling cube playback: the frame period that a wished rate gets when new images are polled for
    at most every `imageTimeout` milliseconds. Rates are per second; both are exact. */
module CubeTiming {
  import opened Quotients
  import opened Wrappers

  /** Rounding to the nearest integer, halves away from zero. */
  function Round(x: real): int {
    if x >= 0.0 then (x + 0.5).Floor else -((-x + 0.5).Floor)
  }

  function Product(a: real, b: real): real {
    a * b
  }

  /** The length of `f` polls. */
  function Span(f: int, t: int): int {
    f * t
  }

  datatype Settings = Settings(desiredFPS: real, mult: real, nz: nat, cubeMode: bool, imageTimeout: int)

  /** What scheduling decides: the reported rate, the period of the cube timer (None when it is
      stopped), what becomes of the frame-counter timer (None when it is left alone), and how often to
      poll for images. */
  datatype Schedule = Schedule(cubeFPS: real, period: Option<int>, frameTimer: Option<bool>, polling: int)

  predicate Wished(s: Settings) {
    s.desiredFPS > 0.0 && s.nz > 1
  }

  /** The exact-arithmetic premises: a positive multiplier and a positive polling limit. */
  predicate Sensible(s: Settings) {
    s.mult > 0.0 && s.imageTimeout >= 1
  }

  /** The period wished for, in whole milliseconds and at least one. */
  function Wish(s: Settings): (w: int)
    requires Sensible(s) && Wished(s)
    ensures w >= 1
  {
    ProductIsPositive(s.desiredFPS, s.mult);
    var w := Round(Quotient(1000.0, Product(s.desiredFPS, s.mult)));
    if w < 1 then 1 else w
  }

  /** The number of polls that comes closest to the wish. */
  function Polls(s: Settings): int
    requires Sensible(s) && Wished(s)
  {
    var f := Round(Quotient(Wish(s) as real, s.imageTimeout as real));
    if f <= 0 then 1 else f
  }

  /** The period that is reported as a rate. */
  function Granted(s: Settings): int
    requires Sensible(s) && Wished(s)
  {
    if Wish(s) <= s.imageTimeout then Wish(s) else Span(Polls(s), s.imageTimeout)
  }

  function Scheduled(s: Settings): Schedule
    requires Sensible(s)
  {
    if !Wished(s) then Schedule(0.0, None, Some(s.nz > 1), s.imageTimeout)
    else
      var polling := if Wish(s) <= s.imageTimeout then Wish(s) else s.imageTimeout;
      if s.cubeMode then
        GrantedIsPositive(s);
        Schedule(Quotient(Quotient(1000.0, Granted(s) as real), s.mult), Some(Granted(s)), Some(true), polling)
      else Schedule(0.0, None, None, polling)
  }

  // ------------------------------------------------------------------------- arithmetic

  lemma ProductIsPositive(a: real, b: real)
    requires a > 0.0 && b > 0.0
    ensures Product(a, b) > 0.0
  {
  }

  lemma RoundIsNearest(x: real)
    ensures -0.5 <= Round(x) as real - x <= 0.5
  {
  }

  lemma SpanDifference(f: int, x: real, t: int)
    ensures Product(f as real - x, t as real) == Span(f, t) as real - Product(x, t as real)
  {
    assert Span(f, t) as real == f as real * t as real;
  }

  lemma HalfOf(d: real, t: real)
    requires -0.5 <= d <= 0.5 && t >= 0.0
    ensures -t <= 2.0 * Product(d, t) <= t
  {
    NotNegativeTimes(d + 0.5, t);
    NotNegativeTimes(0.5 - d, t);
    assert (d + 0.5) * t == d * t + 0.5 * t && (0.5 - d) * t == 0.5 * t - d * t;
  }

  lemma BeyondOne(x: real, t: real)
    requires t > 0.0 && Product(x, t) > t
    ensures x > 1.0
  {
    assert x <= 1.0 ==> (1.0 - x) * t >= 0.0;
  }

  /** The nearest whole multiple of `t` is within half of `t`. */
  lemma NearestMultiple(w: int, t: int)
    requires w > t >= 1
    ensures var f := Round(Quotient(w as real, t as real));
            f >= 1 && -t <= 2 * (Span(f, t) - w) <= t
  {
    hide Quotient, Round, Span, Product;
    var x := Quotient(w as real, t as real);
    var f := Round(x);
    QuotientIsExact(w as real, t as real);
    RoundIsNearest(x);
    BeyondOne(x, t as real);
    HalfOf(f as real - x, t as real);
    SpanDifference(f, x, t);
  }

  lemma QuotientIsExact(a: real, b: real)
    requires b > 0.0
    ensures Product(Quotient(a, b), b) == a
  {
    hide Quotient;
    QuotientTimes(a, b);
  }

  lemma GrantedIsPositive(s: Settings)
    requires Sensible(s) && Wished(s)
    ensures Granted(s) >= 1
  {
    hide Wish;
    if Wish(s) > s.imageTimeout {
      NearestMultiple(Wish(s), s.imageTimeout);
      AtLeast(Polls(s), s.imageTimeout);
    }
  }

  lemma AtLeast(f: int, t: int)
    requires f >= 1 && t >= 1
    ensures Span(f, t) >= t
  {
    assert (f - 1) * t >= 0;
  }

  /** Reporting a period as a rate and computing the period back gives the same period. */
  lemma RateDeterminesPeriod(period: int, mult: real)
    requires period >= 1 && mult > 0.0
    ensures var fps := Quotient(Quotient(1000.0, period as real), mult);
            && Product(fps, mult) > 0.0
            && Product(fps, mult) * period as real == 1000.0
            && Round(Quotient(1000.0, Product(fps, mult))) == period
  {
    var a := period as real;
    var perSecond := Quotient(1000.0, a);
    var fps := Quotient(perSecond, mult);
    QuotientTimes(1000.0, a);
    QuotientTimes(perSecond, mult);
    assert fps * mult == perSecond;
    QuotientTimes(1000.0, perSecond);
    UniqueQuotient(1000.0, perSecond, a);
  }

  // ------------------------------------------------------------------------- properties

  /** For positive rate, multiplier and polling limit, the granted period is a whole number of polls
      and no further than half a polling limit from the wish; polling stays within its limit; and
      while a cube plays, the reported rate times the multiplier times the period is one second. The
      count of polls never has to be raised to one. */
  lemma ScheduleIsCorrect(s: Settings)
    requires Sensible(s)
    ensures var r := Scheduled(s);
            && 1 <= r.polling <= s.imageTimeout
            && (r.period.Some? <==> Wished(s) && s.cubeMode)
            && (r.period.None? ==> r.cubeFPS == 0.0)
            && r.frameTimer == (if !Wished(s) then Some(s.nz > 1) else if s.cubeMode then Some(true) else None)
            && (!Wished(s) ==> r.polling == s.imageTimeout)
            && (r.period.Some? ==>
                  && r.period.value >= 1 && r.cubeFPS > 0.0
                  && Product(r.cubeFPS, s.mult) * r.period.value as real == 1000.0)
    ensures Wished(s) ==>
              && -s.imageTimeout <= 2 * (Granted(s) - Wish(s)) <= s.imageTimeout
              && (exists k: int :: k >= 1 && Granted(s) == k * Scheduled(s).polling)
              && (Wish(s) > s.imageTimeout ==> Round(Quotient(Wish(s) as real, s.imageTimeout as real)) >= 1)
  {
    hide Wish, Quotient, Round;
    if Wished(s) {
      GrantedIsPositive(s);
      if Wish(s) > s.imageTimeout {
        NearestMultiple(Wish(s), s.imageTimeout);
        assert Granted(s) == Polls(s) * Scheduled(s).polling;
      } else {
        assert Granted(s) == 1 * Scheduled(s).polling;
      }
      if s.cubeMode {
        RateDeterminesPeriod(Granted(s), s.mult);
        QuotientTimes(1000.0, Granted(s) as real);
        QuotientTimes(Quotient(1000.0, Granted(s) as real), s.mult);
      }
    }
  }

  lemma WishIsRounded(s: Settings, ideal: real)
    requires Sensible(s) && Wished(s) && ideal * (s.desiredFPS * s.mult) == 1000.0
    ensures ideal > 0.0 && Wish(s) == if ideal < 0.5 then 1 else (ideal + 0.5).Floor
  {
    hide Quotient;
    ProductIsPositive(s.desiredFPS, s.mult);
    UniqueQuotient(1000.0, Product(s.desiredFPS, s.mult), ideal);
    QuotientTimes(1000.0, Product(s.desiredFPS, s.mult));
  }

  /** Measured against the exact period `ideal` of the wished rate: a period that fits into one poll is
      its nearest millisecond, at least one, and is polled for; a longer one is the nearest whole
      number of polls, off by at most half a poll and half a millisecond. The cube timer runs with
      that very period if and only if a cube plays. */
  lemma ScheduleIsNearIdeal(s: Settings, ideal: real)
    requires Sensible(s) && Wished(s) && ideal * (s.desiredFPS * s.mult) == 1000.0
    ensures var r := Scheduled(s);
            var t := s.imageTimeout;
            && r.period == (if s.cubeMode then Some(Granted(s)) else None)
            && (ideal < 0.5 ==> Granted(s) == 1 && r.polling == 1)
            && (0.5 <= ideal < t as real + 0.5 ==>
                  r.polling == Granted(s) && -0.5 <= Granted(s) as real - ideal <= 0.5)
            && (t as real + 0.5 <= ideal ==>
                  && r.polling == t && (exists k: int :: k >= 1 && Granted(s) == k * t)
                  && -(t as real + 1.0) / 2.0 <= Granted(s) as real - ideal <= (t as real + 1.0) / 2.0)
  {
    hide Wish, Quotient, Round;
    WishIsRounded(s, ideal);
    if Wish(s) > s.imageTimeout {
      NearestMultiple(Wish(s), s.imageTimeout);
      assert Granted(s) == Polls(s) * s.imageTimeout;
    }
  }

  // ---------------------------------------------------------------------------- objects

  /** The frame-counter timer after scheduling, given whether it ran before. */
  function FrameTimer(r: Schedule, before: bool): bool {
    if r.frameTimer.Some? then r.frameTimer.value else before
  }

  /** The timing part of the backend. */
  class BackendTimer {
    var desiredCubeFPS: real
    var cubeFPSMult: real
    var nz: nat
    var cubeMode: bool
    var imageTimeout: int

    var cubeFPS: real
    var currImageTimeout: int
    var cubeTimer: Option<int>
    var cubeFrameUpdateTimer: bool
    var imageTimer: Option<int>

    ghost function Inputs(): Settings
      reads this
    {
      Settings(desiredCubeFPS, cubeFPSMult, nz, cubeMode, imageTimeout)
    }

    /** The image timer is restarted only when the polling time changes. */
    method SetCurrImageTimeout()
      requires Sensible(Inputs())
      modifies this`cubeFPS, this`cubeTimer, this`cubeFrameUpdateTimer, this`currImageTimeout, this`imageTimer
      ensures var r := Scheduled(Inputs());
              && cubeFPS == r.cubeFPS && cubeTimer == r.period && currImageTimeout == r.polling
              && cubeFrameUpdateTimer == FrameTimer(r, old(cubeFrameUpdateTimer))
              && imageTimer == if r.polling == old(currImageTimeout) then old(imageTimer) else Some(r.polling)
    {
      hide Quotient, Round, Product, Span;
      ghost var s := Inputs();
      var timeout: int;
      if desiredCubeFPS <= 0.0 || nz <= 1 {
        cubeTimer := None;
        if nz <= 1 {
          cubeFrameUpdateTimer := false;
        } else {
          cubeFrameUpdateTimer := true;
        }
        cubeFPS := 0.0;
        timeout := imageTimeout;
      } else {
        ProductIsPositive(desiredCubeFPS, cubeFPSMult);
        GrantedIsPositive(s);
        var cubeTimeout := Round(Quotient(1000.0, Product(desiredCubeFPS, cubeFPSMult)));
        if cubeTimeout < 1 {
          cubeTimeout := 1;
        }
        assert cubeTimeout == Wish(s);
        if cubeTimeout <= imageTimeout {
          cubeFPS := Quotient(Quotient(1000.0, cubeTimeout as real), cubeFPSMult);
          timeout := cubeTimeout;
        } else {
          var f := Round(Quotient(cubeTimeout as real, imageTimeout as real));
          if f <= 0 {
            f := 1;
          }
          assert f == Polls(s);
          RateDeterminesPeriod(Span(f, imageTimeout), cubeFPSMult);
          cubeFPS := Quotient(Quotient(1000.0, Span(f, imageTimeout) as real), cubeFPSMult);
          cubeTimeout := Round(Quotient(1000.0, Product(cubeFPS, cubeFPSMult)));
          timeout := imageTimeout;
        }
        if cubeMode {
          cubeTimer := Some(cubeTimeout);
          cubeFrameUpdateTimer := true;
        } else {
          cubeFPS := 0.0;
          cubeTimer := None;
        }
        assert Inputs() == s && cubeTimeout == Granted(s);
      }
      if timeout == currImageTimeout {
        return;
      }
      currImageTimeout := timeout;
      imageTimer := None;
      imageTimer := Some(currImageTimeout);
    }
  }

  /** The timing part of the remote client, which has no image timer and its own copy of the code. */
  class ClientTimer {
    var desiredCubeFPS: real
    var cubeFPSMult: real
    var nz: nat
    var cubeMode: bool
    var imageTimeout: int

    var cubeFPS: real
    var currImageTimeout: int
    var cubeTimer: Option<int>
    var cubeFrameUpdateTimer: bool

    ghost function Inputs(): Settings
      reads this
    {
      Settings(desiredCubeFPS, cubeFPSMult, nz, cubeMode, imageTimeout)
    }

    method SetCurrImageTimeout()
      requires Sensible(Inputs())
      modifies this`cubeFPS, this`cubeTimer, this`cubeFrameUpdateTimer, this`currImageTimeout
      ensures var r := Scheduled(Inputs());
              && cubeFPS == r.cubeFPS && cubeTimer == r.period && currImageTimeout == r.polling
              && cubeFrameUpdateTimer == FrameTimer(r, old(cubeFrameUpdateTimer))
    {
      hide Quotient, Round, Product, Span;
      ghost var s := Inputs();
      var timeout: int;
      if desiredCubeFPS <= 0.0 || nz <= 1 {
        cubeTimer := None;
        if nz <= 1 {
          cubeFrameUpdateTimer := false;
        } else {
          cubeFrameUpdateTimer := true;
        }
        cubeFPS := 0.0;
        timeout := imageTimeout;
      } else {
        ProductIsPositive(desiredCubeFPS, cubeFPSMult);
        GrantedIsPositive(s);
        var cubeTimeout := Round(Quotient(1000.0, Product(desiredCubeFPS, cubeFPSMult)));
        if cubeTimeout < 1 {
          cubeTimeout := 1;
        }
        assert cubeTimeout == Wish(s);
        if cubeTimeout <= imageTimeout {
          cubeFPS := Quotient(Quotient(1000.0, cubeTimeout as real), cubeFPSMult);
          timeout := cubeTimeout;
        } else {
          var f := Round(Quotient(cubeTimeout as real, imageTimeout as real));
          if f <= 0 {
            f := 1;
          }
          assert f == Polls(s);
          RateDeterminesPeriod(Span(f, imageTimeout), cubeFPSMult);
          cubeFPS := Quotient(Quotient(1000.0, Span(f, imageTimeout) as real), cubeFPSMult);
          cubeTimeout := Round(Quotient(1000.0, Product(cubeFPS, cubeFPSMult)));
          timeout := imageTimeout;
        }
        if cubeMode {
          cubeTimer := Some(cubeTimeout);
          cubeFrameUpdateTimer := true;
        } else {
          cubeFPS := 0.0;
          cubeTimer := None;
        }
        assert Inputs() == s && cubeTimeout == Granted(s);
      }
      currImageTimeout := timeout;
    }
  }
}
