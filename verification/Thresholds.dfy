/** Confidence tiers and the per-family thresholds behind them. */
module Thresholds {
  import opened Collections
  import opened Firmware

  datatype ThresholdConfig = ThresholdConfig(high: real, possible: real, low: real)

  /** The check a configuration has to pass when it is made. */
  predicate Ordered(t: ThresholdConfig) {
    0.0 <= t.low <= t.possible <= t.high <= 1.0
  }

  const DEFAULT_THRESHOLDS := ThresholdConfig(0.90, 0.70, 0.50)

  function ThresholdsFor(overrides: map<string, ThresholdConfig>, family: Option<string>): ThresholdConfig {
    if family.Some? && family.value in overrides then overrides[family.value] else DEFAULT_THRESHOLDS
  }

  function TierRank(t: Tier): nat {
    match t
    case Confirmed => 4
    case HighConfidence => 3
    case Possible => 2
    case LowConfidence => 1
    case NoMatch => 0
  }

  function TierForScore(t: ThresholdConfig, score: real): Tier {
    if score >= t.high then HighConfidence
    else if score >= t.possible then Possible
    else if score >= t.low then LowConfidence
    else NoMatch
  }

  predicate NeedsLlmRationale(t: Tier) {
    t == Possible || t == LowConfidence
  }

  /** The tiers are bands that partition the scores, each closed below and open above. */
  lemma TierBands(t: ThresholdConfig, score: real)
    requires Ordered(t)
    ensures TierForScore(t, score) == HighConfidence <==> t.high <= score
    ensures TierForScore(t, score) == Possible <==> t.possible <= score < t.high
    ensures TierForScore(t, score) == LowConfidence <==> t.low <= score < t.possible
    ensures TierForScore(t, score) == NoMatch <==> score < t.low
  {
  }

  /** A higher score never gets a lower tier. */
  lemma TierMonotone(t: ThresholdConfig, a: real, b: real)
    requires Ordered(t) && a <= b
    ensures TierRank(TierForScore(t, a)) <= TierRank(TierForScore(t, b)) <= 3
  {
  }
}
