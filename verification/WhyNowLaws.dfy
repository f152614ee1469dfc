/** How the fit, the confidence and the overall score react to what goes into them. */
module WhyNowLaws {
  import opened WhyNow
  import opened WhyNowTheorems

  // ----------------------------------------------------------------------- fit

  lemma HitsNext(disqualifiers: seq<bool>, hit: bool)
    ensures Hits(disqualifiers + [hit]) == Hits(disqualifiers) + (if hit then 1 else 0)
  {
    assert (disqualifiers + [hit])[..|disqualifiers|] == disqualifiers;
  }

  lemma RuleHitsNext(rules: seq<Rule>, rule: Rule, positive: bool)
    ensures RuleHits(rules + [rule], positive) == RuleHits(rules, positive) + (if rule.matched && rule.positive == positive then 1 else 0)
  {
    assert (rules + [rule])[..|rules|] == rules;
  }

  /** One more part of the ICP that matches never lowers the fit. */
  lemma MatchNeverLowersFit(f: FitInput)
    ensures FitOf(f.(industryMatches := true)).score >= FitOf(f).score
    ensures FitOf(f.(sizeMatches := true)).score >= FitOf(f).score
    ensures FitOf(f.(geographyMatches := true)).score >= FitOf(f).score
  {}

  /** One more rule that matches moves the fit its own way, one that does not leaves it; only a negative one can disqualify. */
  lemma RuleMovesFit(f: FitInput, rule: Rule)
    ensures var fit, fit1 := FitOf(f), FitOf(f.(rules := f.rules + [rule]));
      && (!rule.matched ==> fit1 == fit)
      && (rule.matched && rule.positive ==> fit1.score >= fit.score && fit1.disqualifiers == fit.disqualifiers)
      && (rule.matched && !rule.positive ==> fit1.score <= fit.score && fit1.disqualifiers == fit.disqualifiers + 1)
  {
    RuleHitsNext(f.rules, rule, true);
    RuleHitsNext(f.rules, rule, false);
  }

  /** One more ICP disqualifier that hits never raises the fit, and disqualifies. */
  lemma DisqualifierLowersFit(f: FitInput, hit: bool)
    ensures var fit, fit1 := FitOf(f), FitOf(f.(disqualifiers := f.disqualifiers + [hit]));
      (hit ==> fit1.score <= fit.score && fit1.band == Disqualified) && (!hit ==> fit1 == fit)
  {
    HitsNext(f.disqualifiers, hit);
    var f1 := f.(disqualifiers := f.disqualifiers + [hit]);
    assert BaseFit(f1) == BaseFit(f) && f1.rules == f.rules;
    hide BaseFit, Hits, RuleHits;
  }

  /** Without disqualifiers the bands meet at 75 and 55; a disqualified candidate has no other band. */
  lemma BandsMeetAt(f: FitInput)
    ensures FitOf(f).band == Strong <==> FitOf(f).disqualifiers == 0 && FitOf(f).score >= 75
    ensures FitOf(f).band == Moderate <==> FitOf(f).disqualifiers == 0 && 55 <= FitOf(f).score < 75
    ensures FitOf(f).band == Weak <==> FitOf(f).disqualifiers == 0 && FitOf(f).score < 55
  {}

  /** The worth of each part, where no rule speaks: 40 to start with, 20, 15 and 10 for a match, 10 off for the wrong industry. */
  lemma PartsAreWorth(industry: bool, listed: bool, size: bool, geography: bool)
    ensures FitOf(FitInput(industry, listed, size, geography, [], [])).score
         == 40 + (if industry then 20 else if listed then -10 else 0) + (if size then 15 else 0) + (if geography then 10 else 0)
  {}

  /** The worth of one rule and of one disqualifier, where nothing is cut off at 0 or 100. */
  lemma RulesAreWorth(f: FitInput)
    requires f.disqualifiers == [] && f.rules == []
    ensures FitOf(f.(rules := [Rule(true, true)])).score == FitOf(f).score + 8
    ensures FitOf(f.(rules := [Rule(true, false)])).score == FitOf(f).score - 25
    ensures FitOf(f.(disqualifiers := [true])).score == if FitOf(f).score < 40 then 0 else FitOf(f).score - 40
  {
    RuleHitsNext([], Rule(true, true), true);
    RuleHitsNext([], Rule(true, true), false);
    RuleHitsNext([], Rule(true, false), true);
    RuleHitsNext([], Rule(true, false), false);
    HitsNext([], true);
    assert [] + [Rule(true, true)] == [Rule(true, true)] && [] + [Rule(true, false)] == [Rule(true, false)];
    assert [] + [true] == [true];
  }

  // ---------------------------------------------------------------- confidence

  lemma ClampConfidenceMonotone(x: real, y: real)
    requires x <= y
    ensures ClampConfidence(x) <= ClampConfidence(y)
  {
    RoundMonotone(x * 100.0, y * 100.0);
  }

  /** More support, fresher and surer signals, and fewer conflicts never lower the confidence; a disqualifier never raises it. */
  lemma ConfidenceFollowsSupport(fit: Fit, n: nat, t: Tally, fit1: Fit, t1: Tally)
    requires n > 0 && t.positives <= t1.positives && t.confidence <= t1.confidence && t.freshness <= t1.freshness
    requires 0 <= t1.conflicts <= t.conflicts && (t.triggers > 0 ==> t1.triggers > 0) && (fit1.disqualifiers > 0 ==> fit.disqualifiers > 0)
    ensures Confidence(fit, n, t) <= Confidence(fit1, n, t1)
  {
    var k := n as real;
    DivideMonotone(t.confidence, t1.confidence, k);
    DivideMonotone(t.freshness, t1.freshness, k);
    ClampConfidenceMonotone(Raw(fit, n, t), Raw(fit1, n, t1));
    hide ClampConfidence;
  }

  lemma DivideMonotone(x: real, y: real, k: real)
    requires x <= y && k > 0.0
    ensures x / k <= y / k
  {}

  function Raw(fit: Fit, n: nat, t: Tally): real
    requires n > 0
  {
    0.45 + Min(0.25, t.positives as real * 0.08) + t.confidence / n as real * 0.2
      + t.freshness / n as real * 0.1 + (if t.triggers > 0 then 0.08 else 0.0)
      - (if t.conflicts > 0 then 0.15 * t.conflicts as real else 0.0)
      - (if fit.disqualifiers > 0 then 0.1 else 0.0)
  }

  /** A single fresh, certain signal: 0.91 with a trigger, 0.83 without, 0.6 against. */
  lemma OneSignalsConfidence(s: Signal, now: real, fit: Fit)
    requires s.confidence == 1.0 && now <= s.occurredAt && fit.disqualifiers == 0
    ensures Assess(fit, [s], now).confidence == if s.negative then 0.6 else if s.trigger then 0.91 else 0.83
  {
    OneSignal(s, now);
    hide Total, Overall, ClampScore;
    assert ClampConfidence(0.6) == 0.6 && ClampConfidence(0.91) == 0.91 && ClampConfidence(0.83) == 0.83;
  }

  lemma OneSignal(s: Signal, now: real)
    ensures Total([s], now) == Of(s, now)
  {
    assert [s][..0] == [];
    assert Total([], now) == ZERO;
  }

  /** Without signals the fit alone decides: 0.4 from 55 points on, else 0.3. */
  lemma NoSignalsConfidence(fit: Fit, now: real)
    requires 0 <= fit.score <= 100
    ensures Assess(fit, [], now).confidence == if fit.score >= 55 then 0.4 else 0.3
  {
    ClampWhole(fit.score);
    hide Overall, ClampScore;
    assert ClampConfidence(0.4) == 0.4 && ClampConfidence(0.3) == 0.3;
  }

  // ------------------------------------------------------------------- overall

  /** Overall lies between the lowest and the highest of the three scores, so equal scores give themselves. */
  lemma OverallIsBetween(fit: int, intent: int, timing: int, low: int, high: int)
    requires 0 <= low && high <= 100
    requires low <= fit <= high && low <= intent <= high && low <= timing <= high
    ensures low <= Overall(fit, intent, timing) <= high
  {
    ClampMonotone(low as real, fit as real * 0.4 + intent as real * 0.35 + timing as real * 0.25);
    ClampMonotone(fit as real * 0.4 + intent as real * 0.35 + timing as real * 0.25, high as real);
    ClampWhole(low);
    ClampWhole(high);
  }

  lemma ClampWhole(x: int)
    requires 0 <= x <= 100
    ensures ClampScore(x as real) == x
  {
    assert (x as real + 0.5).Floor == x;
  }

  /** The three weights, told by what each score alone contributes. */
  lemma WeightsAre(score: int)
    requires 0 <= score <= 100 && score % 20 == 0
    ensures Overall(score, 0, 0) == score / 5 * 2
    ensures Overall(0, score, 0) == score / 20 * 7
    ensures Overall(0, 0, score) == score / 20 * 5
  {
    var k := score / 20;
    assert score == 20 * k;
    ClampWhole(8 * k);
    ClampWhole(7 * k);
    ClampWhole(5 * k);
    assert score as real * 0.4 == (8 * k) as real && score as real * 0.35 == (7 * k) as real && score as real * 0.25 == (5 * k) as real;
  }

  /** One fresh, certain, relevant signal: its full weight on intent and timing. */
  lemma OneSignalsScores(s: Signal, now: real, fit: Fit)
    requires s.confidence == 1.0 && s.relevance == 1.0 && now <= s.occurredAt && fit.disqualifiers == 0
    ensures Assess(fit, [s], now).intent == if s.negative then 0 else if s.trigger then 73 else 53
    ensures Assess(fit, [s], now).timing == if s.negative then 0 else if s.trigger then 75 else 50
  {
    OneSignal(s, now);
    hide Total, Overall, Confidence;
  }

  /** Age in days takes a signal through five weights. */
  lemma AgeWeighs(s: Signal, days: real)
    requires days >= 0.0
    ensures Decay(s, s.occurredAt + days * 86400000.0)
      == if days <= 7.0 then 1.0 else if days <= 30.0 then 0.7 else if days <= 90.0 then 0.35 else if days <= 180.0 then 0.15 else 0.05
  {
    assert days > 0.0 ==> DaysBetween(s.occurredAt + days * 86400000.0, s.occurredAt) == days;
  }
}
