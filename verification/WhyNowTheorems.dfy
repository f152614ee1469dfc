/** Laws of the scores over all signal lists. */
module WhyNowTheorems {
  import opened WhyNow

  // ------------------------------------------------------- order of the signals

  lemma TotalNext(signals: seq<Signal>, s: Signal, now: real)
    ensures Total(signals + [s], now) == Add(Total(signals, now), Of(s, now))
  {
    assert (signals + [s])[..|signals|] == signals;
  }

  lemma {:induction false} TotalSum(a: seq<Signal>, b: seq<Signal>, now: real)
    ensures Total(a + b, now) == Add(Total(a, now), Total(b, now))
  {
    hide Of;
    if b == [] {
      assert a + b == a;
    } else {
      assert (a + b)[..|a + b| - 1] == a + b[..|b| - 1];
      TotalSum(a, b[..|b| - 1], now);
    }
  }

  /** Moving signal k to the end does not change the total. */
  lemma TotalWithout(signals: seq<Signal>, k: nat, now: real)
    requires k < |signals|
    ensures Total(signals, now) == Add(Total(signals[..k] + signals[k + 1..], now), Of(signals[k], now))
  {
    hide Of;
    assert signals == signals[..k] + ([signals[k]] + signals[k + 1..]);
    TotalSum(signals[..k], [signals[k]] + signals[k + 1..], now);
    TotalSum([signals[k]], signals[k + 1..], now);
    TotalSum(signals[..k], signals[k + 1..], now);
    TotalNext([], signals[k], now);
    assert [] + [signals[k]] == [signals[k]];
  }

  lemma {:induction false} TotalIsUnordered(a: seq<Signal>, b: seq<Signal>, now: real)
    requires multiset(a) == multiset(b)
    ensures Total(a, now) == Total(b, now)
  {
    hide Of;
    assert |multiset(a)| == |a| && |multiset(b)| == |b|;
    if a == [] {
    } else {
      var n := |a| - 1;
      assert a[n] in multiset(b);
      var k :| 0 <= k < |b| && b[k] == a[n];
      WithoutOne(a, b, k);
      TotalIsUnordered(a[..n], b[..k] + b[k + 1..], now);
      TotalWithout(b, k, now);
    }
  }

  lemma WithoutOne(a: seq<Signal>, b: seq<Signal>, k: nat)
    requires multiset(a) == multiset(b) && a != [] && k < |b| && b[k] == a[|a| - 1]
    ensures multiset(a[..|a| - 1]) == multiset(b[..k] + b[k + 1..])
  {
    var p, q := a[..|a| - 1], b[..k] + b[k + 1..];
    assert a == p + [b[k]];
    assert b == b[..k] + [b[k]] + b[k + 1..];
    assert multiset(a) == multiset(p) + multiset{b[k]};
    assert multiset(b) == multiset(q) + multiset{b[k]};
    assert multiset(p) == multiset(a) - multiset{b[k]} == multiset(q);
  }

  /** All five numbers are the same in whatever order the signals come. */
  lemma OrderOfSignalsIsMoot(fit: Fit, a: seq<Signal>, b: seq<Signal>, now: real)
    requires multiset(a) == multiset(b)
    ensures Assess(fit, a, now) == Assess(fit, b, now)
  {
    TotalIsUnordered(a, b, now);
    assert |multiset(a)| == |a| && |multiset(b)| == |b|;
  }

  // ------------------------------------------------------------- more evidence

  lemma ProductNonNegative(x: real, y: real)
    requires x >= 0.0 && y >= 0.0
    ensures x * y >= 0.0
  {}

  lemma PositiveDeltas(s: Signal, now: real)
    requires InRange(s) && !s.negative
    ensures IntentDelta(s) >= 0.0 && TimingDelta(s, now) >= 0.0
  {
    var w, v := 30.0 + (if s.trigger then 28.0 else 8.0), if s.trigger then 65.0 else 40.0;
    ProductNonNegative(w, s.confidence);
    ProductNonNegative(w * s.confidence, s.relevance);
    assert IntentDelta(s) == w * s.confidence * s.relevance;
    ProductNonNegative(v, Decay(s, now));
    ProductNonNegative(v * Decay(s, now), s.confidence);
    ProductNonNegative(v * Decay(s, now) * s.confidence, s.relevance);
    assert TimingDelta(s, now) == v * Decay(s, now) * s.confidence * s.relevance;
  }

  lemma OverallMonotone(fit: int, i1: int, i2: int, t1: int, t2: int)
    requires i1 <= i2 && t1 <= t2
    ensures Overall(fit, i1, t1) <= Overall(fit, i2, t2)
  {
    ClampMonotone(fit as real * 0.4 + i1 as real * 0.35 + t1 as real * 0.25,
                  fit as real * 0.4 + i2 as real * 0.35 + t2 as real * 0.25);
  }

  /** Larger tallies give larger scores. */
  lemma AssessMonotone(fit: Fit, a: seq<Signal>, now1: real, b: seq<Signal>, now2: real)
    requires Total(a, now1).intent <= Total(b, now2).intent && Total(a, now1).timing <= Total(b, now2).timing
    ensures Assess(fit, a, now1).intent <= Assess(fit, b, now2).intent
    ensures Assess(fit, a, now1).timing <= Assess(fit, b, now2).timing
    ensures Assess(fit, a, now1).overall <= Assess(fit, b, now2).overall
  {
    hide Total, ClampScore, Overall, Confidence;
    var x, y := 15.0 + Total(a, now1).intent, 15.0 + Total(b, now2).intent;
    ClampMonotone(x, y);
    ClampMonotone(Min(x, 40.0), Min(y, 40.0));
    ClampMonotone(10.0 + Total(a, now1).timing, 10.0 + Total(b, now2).timing);
    var p, q := Assess(fit, a, now1), Assess(fit, b, now2);
    OverallMonotone(p.fit, p.intent, q.intent, p.timing, q.timing);
  }

  /** One more signal that is not negative, wherever it stands, never lowers intent, timing or overall. */
  lemma PositiveSignalNeverLowers(fit: Fit, signals: seq<Signal>, s: Signal, more: seq<Signal>, now: real)
    requires InRange(s) && !s.negative && multiset(more) == multiset(signals) + multiset{s}
    ensures Assess(fit, signals, now).intent <= Assess(fit, more, now).intent
    ensures Assess(fit, signals, now).timing <= Assess(fit, more, now).timing
    ensures Assess(fit, signals, now).overall <= Assess(fit, more, now).overall
  {
    TotalIsUnordered(more, signals + [s], now);
    TotalNext(signals, s, now);
    PositiveDeltas(s, now);
    AssessMonotone(fit, signals, now, more, now);
  }

  // -------------------------------------------------------------- passing time

  lemma DecayFalls(s: Signal, now1: real, now2: real)
    requires now1 <= now2
    ensures Decay(s, now2) <= Decay(s, now1)
  {
    DaysGrow(now1, now2, s.occurredAt);
  }

  lemma DaysGrow(now1: real, now2: real, at: real)
    requires now1 <= now2
    ensures DaysBetween(now1, at) <= DaysBetween(now2, at)
  {}

  lemma ProductMonotone(x: real, y: real, z: real)
    requires x <= y && z >= 0.0
    ensures x * z <= y * z
  {}

  lemma TimingDeltaFalls(s: Signal, now1: real, now2: real)
    requires InRange(s) && !s.negative && now1 <= now2
    ensures TimingDelta(s, now2) <= TimingDelta(s, now1)
  {
    DecayFalls(s, now1, now2);
    PositiveTiming(s, now1);
    PositiveTiming(s, now2);
    hide TimingDelta, Decay;
    ScaledMonotone(if s.trigger then 65.0 else 40.0, Decay(s, now2), Decay(s, now1), s.confidence, s.relevance);
  }

  /** v * x * c * r, as the timing of a signal multiplies it. */
  function Scaled(v: real, x: real, c: real, r: real): real
  {
    v * x * c * r
  }

  lemma PositiveTiming(s: Signal, now: real)
    requires !s.negative
    ensures TimingDelta(s, now) == Scaled(if s.trigger then 65.0 else 40.0, Decay(s, now), s.confidence, s.relevance)
  {
    assert Polarity(s) * (if s.trigger then 65.0 else 40.0) == if s.trigger then 65.0 else 40.0;
  }

  lemma ScaledMonotone(v: real, x: real, y: real, c: real, r: real)
    requires x <= y && v >= 0.0 && c >= 0.0 && r >= 0.0
    ensures Scaled(v, x, c, r) <= Scaled(v, y, c, r)
  {
    ProductMonotone(x, y, v);
    var p, q := v * x, v * y;
    ProductMonotone(p, q, c);
    ProductMonotone(p * c, q * c, r);
  }

  lemma {:induction false} TimingTotalFalls(signals: seq<Signal>, now1: real, now2: real)
    requires now1 <= now2 && forall s <- signals :: InRange(s) && !s.negative
    ensures Total(signals, now2).timing <= Total(signals, now1).timing
    ensures Total(signals, now2).intent == Total(signals, now1).intent
  {
    hide TimingDelta, IntentDelta, Decay;
    if signals == [] {
    } else {
      var n := |signals| - 1;
      assert signals[n] in signals && forall s <- signals[..n] :: s in signals;
      TimingTotalFalls(signals[..n], now1, now2);
      TimingDeltaFalls(signals[n], now1, now2);
    }
  }

  /** Without negative signals waiting never raises timing or overall. */
  lemma WaitingNeverRaises(fit: Fit, signals: seq<Signal>, now1: real, now2: real)
    requires now1 <= now2 && forall s <- signals :: InRange(s) && !s.negative
    ensures Assess(fit, signals, now2).timing <= Assess(fit, signals, now1).timing
    ensures Assess(fit, signals, now2).overall <= Assess(fit, signals, now1).overall
  {
    TimingTotalFalls(signals, now1, now2);
    AssessMonotone(fit, signals, now2, signals, now1);
  }

  /** However many non-negative signals it is added to, waiting never raises the timing score. */
  ghost predicate SafeToWait(s: Signal)
  {
    forall fit, base, now1, now2 | now1 <= now2 && Positive(base) ::
      Assess(fit, base + [s], now2).timing <= Assess(fit, base + [s], now1).timing
  }

  ghost predicate Positive(signals: seq<Signal>)
  {
    forall s <- signals :: InRange(s) && !s.negative
  }

  lemma WeightlessDelta(s: Signal, now: real)
    requires s.confidence * s.relevance == 0.0
    ensures TimingDelta(s, now) == 0.0
  {
    var v := Polarity(s) * (if s.trigger then 65.0 else 40.0) * Decay(s, now);
    assert v * s.confidence * s.relevance == v * (s.confidence * s.relevance);
  }

  lemma HarmlessIsSafe(s: Signal)
    requires InRange(s) && (!s.negative || s.confidence * s.relevance == 0.0)
    ensures SafeToWait(s)
  {
    forall fit, base, now1, now2 | now1 <= now2 && Positive(base)
      ensures Assess(fit, base + [s], now2).timing <= Assess(fit, base + [s], now1).timing
    {
      TimingTotalFalls(base, now1, now2);
      TotalNext(base, s, now1);
      TotalNext(base, s, now2);
      if s.negative {
        WeightlessDelta(s, now1);
        WeightlessDelta(s, now2);
      } else {
        TimingDeltaFalls(s, now1, now2);
      }
      ClampMonotone(10.0 + Total(base + [s], now2).timing, 10.0 + Total(base + [s], now1).timing);
      hide Total, ClampScore, Confidence, Overall, TimingDelta;
    }
  }

  /** Two long-stale signals that together weigh x, at most 3.75, at both times. */
  function Filler(x: real, at: real): Signal
  {
    Signal(false, true, x / 6.5, 1.0, at - 200.0 * DAY_MS)
  }

  lemma FillerDelta(x: real, at: real, now: real)
    requires 0.0 <= x <= 3.75 && now >= at
    ensures InRange(Filler(x, at)) && TimingDelta(Filler(x, at), now) == x / 2.0
  {
    var g := Filler(x, at);
    assert DaysBetween(now, g.occurredAt) >= 200.0;
    assert Decay(g, now) == 0.05;
    assert TimingDelta(g, now) == 65.0 * 0.05 * (x / 6.5);
  }

  lemma ThreeTiming(a: Signal, b: Signal, now: real)
    ensures Total([a, a] + [b], now).timing == TimingDelta(a, now) + TimingDelta(a, now) + TimingDelta(b, now)
  {
    hide TimingDelta, IntentDelta, Decay;
    TotalNext([], a, now);
    TotalNext([a], a, now);
    TotalNext([a, a], b, now);
    assert [] + [a] == [a] && [a] + [a] == [a, a];
  }

  /** The weight of a fresh negative trigger signal, and what is left of it after 200 days. */
  lemma NegativeDecays(s: Signal)
    requires s.negative
    ensures var w := (if s.trigger then 65.0 else 40.0) * (s.confidence * s.relevance);
      TimingDelta(s, s.occurredAt) == -w && TimingDelta(s, s.occurredAt + 200.0 * DAY_MS) == -0.05 * w
  {
    var v, later := if s.trigger then 65.0 else 40.0, s.occurredAt + 200.0 * DAY_MS;
    assert DaysBetween(later, s.occurredAt) == 200.0;
    assert Decay(s, s.occurredAt) == 1.0 && Decay(s, later) == 0.05;
    assert -1.0 * v * 1.0 * s.confidence * s.relevance == -(v * (s.confidence * s.relevance));
    assert -1.0 * v * 0.05 * s.confidence * s.relevance == -0.05 * (v * (s.confidence * s.relevance));
  }

  /** A negative signal with weight, on a base that lifts the waited timing just over a half, raises the rounded score. */
  lemma WeightyIsNotSafe(s: Signal)
    requires InRange(s) && s.negative && s.confidence * s.relevance > 0.0
    ensures !SafeToWait(s)
  {
    var w := (if s.trigger then 65.0 else 40.0) * (s.confidence * s.relevance);
    WeightBound(s);
    var x, now1, now2 := 0.5 + 0.05 * w, s.occurredAt, s.occurredAt + 200.0 * DAY_MS;
    var g := Filler(x, now1);
    FillerDelta(x, now1, now1);
    FillerDelta(x, now1, now2);
    NegativeDecays(s);
    ThreeTiming(g, s, now1);
    ThreeTiming(g, s, now2);
    hide TimingDelta, Decay, Filler, Total, Confidence, Overall;
    assert 10.0 + Total([g, g] + [s], now2).timing == 10.5;
    assert 10.0 + Total([g, g] + [s], now1).timing == 10.5 - 0.95 * w;
    ClampMonotone(10.5 - 0.95 * w, 10.5);
    assert ClampScore(10.5) == 11 && ClampScore(10.5 - 0.95 * w) <= 10;
    var fit := Fit(50, Weak, 0);
    assert Positive([g, g]);
    assert Assess(fit, [g, g] + [s], now2).timing > Assess(fit, [g, g] + [s], now1).timing;
  }

  lemma UnitFactor(x: real, y: real)
    requires 0.0 <= x <= 1.0 && 0.0 <= y <= 1.0
    ensures x * y <= 1.0
  {
    ProductNonNegative(1.0 - x, y);
    assert (1.0 - x) * y == y - x * y;
  }

  lemma WeightBound(s: Signal)
    requires InRange(s) && s.confidence * s.relevance > 0.0
    ensures 0.0 < (if s.trigger then 65.0 else 40.0) * (s.confidence * s.relevance) <= 65.0
  {
    var p := s.confidence * s.relevance;
    UnitFactor(s.confidence, s.relevance);
    if s.trigger { assert 65.0 * p <= 65.0; } else { assert 40.0 * p <= 40.0; }
  }

  /** Adding a signal keeps waiting from raising the timing score exactly when it is not negative or has no weight. */
  lemma SafeToWaitExactlyWhen(s: Signal)
    requires InRange(s)
    ensures SafeToWait(s) <==> !s.negative || s.confidence * s.relevance == 0.0
  {
    ProductNonNegative(s.confidence, s.relevance);
    if !s.negative || s.confidence * s.relevance == 0.0 {
      HarmlessIsSafe(s);
    } else {
      WeightyIsNotSafe(s);
    }
  }

  // --------------------------------------------------------------------- caps

  lemma OverallAtMost(fit: int, intent: int, timing: int, intentCap: int, timingCap: int)
    requires fit <= 100 && intent <= intentCap && timing <= timingCap
    ensures Overall(fit, intent, timing) <= Overall(100, intentCap, timingCap)
  {
    ClampMonotone(fit as real * 0.4 + intent as real * 0.35 + timing as real * 0.25,
                  100.0 * 0.4 + intentCap as real * 0.35 + timingCap as real * 0.25);
  }

  /** Any ICP disqualifier or matched negative rule keeps overall at 79 or below, whatever the signals. */
  lemma DisqualifiedStaysBelow80(f: FitInput, signals: seq<Signal>, now: real)
    requires true in f.disqualifiers || Rule(true, false) in f.rules
    ensures Assess(FitOf(f), signals, now).intent <= 40
    ensures Assess(FitOf(f), signals, now).overall <= 79
  {
    DisqualifiedExactlyWhen(f);
    var fit := FitOf(f);
    hide FitOf, Total, Confidence;
    var intent := 15.0 + Total(signals, now).intent;
    ClampMonotone(Min(intent, 40.0), 40.0);
    assert ClampScore(40.0) == 40;
    var a := Assess(fit, signals, now);
    OverallAtMost(a.fit, a.intent, a.timing, 40, 100);
    assert Overall(100, 40, 100) == 79;
  }

  /** Without signals overall stays at 48 or below. */
  lemma NoSignalsStaysBelow49(fit: Fit, now: real)
    ensures Assess(fit, [], now).overall <= 48
    ensures Assess(fit, [], now).intent <= 15 && Assess(fit, [], now).timing == 10
  {
    hide Confidence;
    ClampMonotone(Min(15.0, 40.0), 15.0);
    assert ClampScore(15.0) == 15 && ClampScore(10.0) == 10;
    var a := Assess(fit, [], now);
    OverallAtMost(a.fit, a.intent, a.timing, 15, 10);
    assert Overall(100, 15, 10) == 48;
  }
}
