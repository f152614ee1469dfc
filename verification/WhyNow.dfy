/** ICP fit and Why-Now scores, over reals; text matching is left to the caller. */
module WhyNow {
  // ---------------------------------------------------------------- arithmetic

  /** Math.round: halves go up. */
  function Round(x: real): int
  {
    (x + 0.5).Floor
  }

  function ClampScore(x: real): (r: int)
    ensures 0 <= r <= 100
  {
    if Round(x) < 0 then 0 else if Round(x) > 100 then 100 else Round(x)
  }

  function ClampConfidence(x: real): (r: real)
    ensures 0.0 <= r <= 1.0
  {
    var hundredths := Round(x * 100.0);
    if hundredths < 0 then 0.0 else if hundredths > 100 then 1.0 else hundredths as real / 100.0
  }

  const DAY_MS := 86400000.0

  function DaysBetween(later: real, earlier: real): real
  {
    if later <= earlier then 0.0 else (later - earlier) / DAY_MS
  }

  function TimingDecay(ageDays: real): (r: real)
    ensures 0.0 < r <= 1.0
  {
    if ageDays <= 7.0 then 1.0
    else if ageDays <= 30.0 then 0.7
    else if ageDays <= 90.0 then 0.35
    else if ageDays <= 180.0 then 0.15
    else 0.05
  }

  lemma RoundMonotone(x: real, y: real)
    requires x <= y
    ensures Round(x) <= Round(y)
  {}

  lemma ClampMonotone(x: real, y: real)
    requires x <= y
    ensures ClampScore(x) <= ClampScore(y)
  {
    RoundMonotone(x, y);
  }

  // ----------------------------------------------------------------------- fit

  datatype Rule = Rule(matched: bool, positive: bool)

  /** Which parts of the ICP the candidate matches; one entry per ICP disqualifier and per rule. */
  datatype FitInput = FitInput(
    industryMatches: bool, industriesListed: bool, sizeMatches: bool, geographyMatches: bool,
    disqualifiers: seq<bool>, rules: seq<Rule>)

  datatype Band = Disqualified | Strong | Moderate | Weak

  datatype Fit = Fit(score: int, band: Band, disqualifiers: nat)

  function BaseFit(f: FitInput): int
  {
    40 + (if f.industryMatches then 20 else if f.industriesListed then -10 else 0)
       + (if f.sizeMatches then 15 else 0) + (if f.geographyMatches then 10 else 0)
  }

  function Hits(disqualifiers: seq<bool>): nat
  {
    if disqualifiers == [] then 0
    else Hits(disqualifiers[..|disqualifiers| - 1]) + (if disqualifiers[|disqualifiers| - 1] then 1 else 0)
  }

  function RuleHits(rules: seq<Rule>, positive: bool): nat
  {
    if rules == [] then 0
    else
      var last := rules[|rules| - 1];
      RuleHits(rules[..|rules| - 1], positive) + (if last.matched && last.positive == positive then 1 else 0)
  }

  function ClampInt(x: int): int
  {
    if x < 0 then 0 else if x > 100 then 100 else x
  }

  function FitOf(f: FitInput): Fit
  {
    var against := Hits(f.disqualifiers) + RuleHits(f.rules, false);
    var score := ClampInt(BaseFit(f) - 40 * Hits(f.disqualifiers) + 8 * RuleHits(f.rules, true) - 25 * RuleHits(f.rules, false));
    var band := if against > 0 then Disqualified else if score >= 75 then Strong else if score >= 55 then Moderate else Weak;
    Fit(score, band, against)
  }

  lemma {:induction false} SomeHit(disqualifiers: seq<bool>)
    ensures Hits(disqualifiers) > 0 <==> true in disqualifiers
  {
    if disqualifiers == [] {
    } else {
      SomeHit(disqualifiers[..|disqualifiers| - 1]);
      assert disqualifiers == disqualifiers[..|disqualifiers| - 1] + [disqualifiers[|disqualifiers| - 1]];
    }
  }

  lemma {:induction false} SomeRuleHit(rules: seq<Rule>, positive: bool)
    ensures RuleHits(rules, positive) > 0 <==> Rule(true, positive) in rules
  {
    if rules == [] {
    } else {
      SomeRuleHit(rules[..|rules| - 1], positive);
      assert rules == rules[..|rules| - 1] + [rules[|rules| - 1]];
    }
  }

  /** A candidate is disqualified exactly when an ICP disqualifier or a negative rule matches. */
  lemma DisqualifiedExactlyWhen(f: FitInput)
    ensures FitOf(f).band == Disqualified <==> true in f.disqualifiers || Rule(true, false) in f.rules
    ensures FitOf(f).disqualifiers > 0 <==> FitOf(f).band == Disqualified
    ensures 0 <= FitOf(f).score <= 100
  {
    SomeHit(f.disqualifiers);
    SomeRuleHit(f.rules, false);
  }

  /** The two loops over disqualifiers and rules. */
  method AssessIcpFit(f: FitInput) returns (fit: Fit)
    ensures fit == FitOf(f)
  {
    var score := 40;
    if f.industryMatches {
      score := score + 20;
    } else if f.industriesListed {
      score := score - 10;
    }
    if f.sizeMatches {
      score := score + 15;
    }
    if f.geographyMatches {
      score := score + 10;
    }
    var against := 0;
    for i := 0 to |f.disqualifiers|
      invariant against == Hits(f.disqualifiers[..i])
      invariant score == BaseFit(f) - 40 * Hits(f.disqualifiers[..i])
    {
      assert f.disqualifiers[..i + 1][..i] == f.disqualifiers[..i];
      if f.disqualifiers[i] {
        against := against + 1;
        score := score - 40;
      }
    }
    assert f.disqualifiers[..|f.disqualifiers|] == f.disqualifiers;
    for i := 0 to |f.rules|
      invariant against == Hits(f.disqualifiers) + RuleHits(f.rules[..i], false)
      invariant score == BaseFit(f) - 40 * Hits(f.disqualifiers)
                         + 8 * RuleHits(f.rules[..i], true) - 25 * RuleHits(f.rules[..i], false)
    {
      assert f.rules[..i + 1][..i] == f.rules[..i];
      if f.rules[i].matched {
        if f.rules[i].positive {
          score := score + 8;
        } else {
          score := score - 25;
          against := against + 1;
        }
      }
    }
    assert f.rules[..|f.rules|] == f.rules;
    score := ClampInt(score);
    var band := if against > 0 then Disqualified else if score >= 75 then Strong else if score >= 55 then Moderate else Weak;
    fit := Fit(score, band, against);
  }

  // ------------------------------------------------------------------- signals

  /** `negative`: a negative category or a disqualifier conflict; `trigger`: it matches a buying trigger. */
  datatype Signal = Signal(negative: bool, trigger: bool, confidence: real, relevance: real, occurredAt: real)

  predicate InRange(s: Signal)
  {
    0.0 <= s.confidence <= 1.0 && 0.0 <= s.relevance <= 1.0
  }

  function Decay(s: Signal, now: real): real
  {
    TimingDecay(DaysBetween(now, s.occurredAt))
  }

  function Polarity(s: Signal): real
  {
    if s.negative then -1.0 else 1.0
  }

  function IntentDelta(s: Signal): real
  {
    Polarity(s) * (30.0 + (if s.trigger then 28.0 else 8.0)) * s.confidence * s.relevance
  }

  function TimingDelta(s: Signal, now: real): real
  {
    Polarity(s) * (if s.trigger then 65.0 else 40.0) * Decay(s, now) * s.confidence * s.relevance
  }

  /** What the loop over the signals adds up. */
  datatype Tally = Tally(intent: real, timing: real, conflicts: int, positives: int, triggers: int, freshness: real, confidence: real)

  const ZERO := Tally(0.0, 0.0, 0, 0, 0, 0.0, 0.0)

  function Of(s: Signal, now: real): Tally
  {
    Tally(IntentDelta(s), TimingDelta(s, now), if s.negative then 1 else 0, if s.negative then 0 else 1,
          if !s.negative && s.trigger then 1 else 0, Decay(s, now), s.confidence)
  }

  function Add(a: Tally, b: Tally): Tally
  {
    Tally(a.intent + b.intent, a.timing + b.timing, a.conflicts + b.conflicts, a.positives + b.positives,
          a.triggers + b.triggers, a.freshness + b.freshness, a.confidence + b.confidence)
  }

  function Total(signals: seq<Signal>, now: real): Tally
  {
    if signals == [] then ZERO
    else Add(Total(signals[..|signals| - 1], now), Of(signals[|signals| - 1], now))
  }

  datatype Assessment = Assessment(fit: int, intent: int, timing: int, overall: int, confidence: real)

  function Overall(fit: int, intent: int, timing: int): int
  {
    ClampScore(fit as real * 0.4 + intent as real * 0.35 + timing as real * 0.25)
  }

  function Min(x: real, y: real): real
  {
    if x <= y then x else y
  }

  function Confidence(fit: Fit, n: nat, t: Tally): real
  {
    if n == 0 then ClampConfidence(if ClampScore(fit.score as real) >= 55 then 0.4 else 0.3)
    else
      ClampConfidence(0.45 + Min(0.25, t.positives as real * 0.08) + t.confidence / n as real * 0.2
                      + t.freshness / n as real * 0.1 + (if t.triggers > 0 then 0.08 else 0.0)
                      - (if t.conflicts > 0 then 0.15 * t.conflicts as real else 0.0)
                      - (if fit.disqualifiers > 0 then 0.1 else 0.0))
  }

  function Assess(fit: Fit, signals: seq<Signal>, now: real): Assessment
  {
    var t := Total(signals, now);
    var intent := 15.0 + t.intent;
    var fitScore := ClampScore(fit.score as real);
    var intentScore := ClampScore(if fit.disqualifiers > 0 then Min(intent, 40.0) else intent);
    var timingScore := ClampScore(10.0 + t.timing);
    Assessment(fitScore, intentScore, timingScore, Overall(fitScore, intentScore, timingScore), Confidence(fit, |signals|, t))
  }

  /** The loop over the signals with its seven accumulators. */
  method AssessWhyNow(f: FitInput, signals: seq<Signal>, now: real) returns (a: Assessment)
    ensures a == Assess(FitOf(f), signals, now)
  {
    hide IntentDelta, TimingDelta, Decay, ClampScore, Confidence;
    var fit := AssessIcpFit(f);
    var intent, timing, freshness, confidences := 15.0, 10.0, 0.0, 0.0;
    var conflicts, positives, triggers := 0, 0, 0;
    for i := 0 to |signals|
      invariant Tally(intent - 15.0, timing - 10.0, conflicts, positives, triggers, freshness, confidences) == Total(signals[..i], now)
    {
      assert signals[..i + 1][..i] == signals[..i];
      var s := signals[i];
      intent := intent + IntentDelta(s);
      timing := timing + TimingDelta(s, now);
      if s.negative {
        conflicts := conflicts + 1;
      } else {
        positives := positives + 1;
        if s.trigger {
          triggers := triggers + 1;
        }
      }
      freshness := freshness + Decay(s, now);
      confidences := confidences + s.confidence;
    }
    assert signals[..|signals|] == signals;
    var tally := Tally(intent - 15.0, timing - 10.0, conflicts, positives, triggers, freshness, confidences);
    if fit.disqualifiers > 0 {
      intent := Min(intent, 40.0);
    }
    var fitScore, intentScore, timingScore := ClampScore(fit.score as real), ClampScore(intent), ClampScore(timing);
    a := Assessment(fitScore, intentScore, timingScore, Overall(fitScore, intentScore, timingScore),
                    Confidence(fit, |signals|, tally));
  }
}
