/** Recalibrating the per-family thresholds from analyst verdicts. */
module FeedbackLoop {
  import opened Collections
  import opened Thresholds

  datatype Verdict = Confirm | FalsePositive | NeedsReview

  datatype Feedback = Feedback(cveId: string, verdict: Verdict)

  type Resolver = string -> Option<string>

  // ---- counting verdicts ------------------------------------------------------------------

  predicate Hits(r: Feedback, resolve: Resolver, f: string, v: Verdict) {
    r.verdict == v && f != "" && resolve(r.cveId) == Some(f)
  }

  function Tally(rows: seq<Feedback>, resolve: Resolver, f: string, v: Verdict): nat {
    if rows == [] then 0
    else Tally(rows[..|rows| - 1], resolve, f, v) + (if Hits(rows[|rows| - 1], resolve, f, v) then 1 else 0)
  }

  function Decided(rows: seq<Feedback>, resolve: Resolver, f: string): nat {
    Tally(rows, resolve, f, Confirm) + Tally(rows, resolve, f, FalsePositive)
  }

  datatype FamilyStats = FamilyStats(confirmed: nat, falsePositive: nat)

  function FpRate(s: FamilyStats): real {
    if s.confirmed + s.falsePositive == 0 then 0.0
    else (s.falsePositive as real) / ((s.confirmed + s.falsePositive) as real)
  }

  function StatsOf(rows: seq<Feedback>, resolve: Resolver, f: string): FamilyStats {
    FamilyStats(Tally(rows, resolve, f, Confirm), Tally(rows, resolve, f, FalsePositive))
  }

  /** Exactly the families with a decided verdict are listed, each with its tallies. */
  ghost predicate Tallies(stats: map<string, FamilyStats>, rows: seq<Feedback>, resolve: Resolver) {
    forall f :: (f in stats <==> Decided(rows, resolve, f) > 0) && (f in stats ==> stats[f] == StatsOf(rows, resolve, f))
  }

  method Aggregate(rows: seq<Feedback>, resolve: Resolver) returns (stats: map<string, FamilyStats>)
    ensures Tallies(stats, rows, resolve)
  {
    stats := map[];
    for i := 0 to |rows|
      invariant Tallies(stats, rows[..i], resolve)
    {
      ghost var before := stats;
      var row := rows[i];
      if row.verdict != NeedsReview {
        var family := resolve(row.cveId);
        if family.Some? && family.value != "" {
          var s := Get(stats, family.value, FamilyStats(0, 0));
          stats := stats[family.value :=
            if row.verdict == Confirm then s.(confirmed := s.confirmed + 1) else s.(falsePositive := s.falsePositive + 1)];
        }
      }
      forall f
        ensures (f in stats <==> Decided(rows[..i + 1], resolve, f) > 0)
        ensures (f in stats ==> stats[f] == StatsOf(rows[..i + 1], resolve, f))
      {
        TallyStep(rows, i, resolve, f, Confirm);
        TallyStep(rows, i, resolve, f, FalsePositive);
      }
    }
    assert rows[..|rows|] == rows;
  }

  lemma TallyStep(rows: seq<Feedback>, i: nat, resolve: Resolver, f: string, v: Verdict)
    requires i < |rows|
    ensures Tally(rows[..i + 1], resolve, f, v) == Tally(rows[..i], resolve, f, v) + (if Hits(rows[i], resolve, f, v) then 1 else 0)
  {
    assert rows[..i + 1][..i] == rows[..i];
  }

  lemma {:induction false} TallyAppend(a: seq<Feedback>, b: seq<Feedback>, resolve: Resolver, f: string, v: Verdict)
    ensures Tally(a + b, resolve, f, v) == Tally(a, resolve, f, v) + Tally(b, resolve, f, v)
  {
    if b == [] {
      assert a + b == a;
    } else {
      TallyAppend(a, b[..|b| - 1], resolve, f, v);
      assert (a + b)[..|a + b| - 1] == a + b[..|b| - 1];
    }
  }

  /** Where a verdict of this kind on a CVE of the family stands. */
  ghost function VerdictPlaces(rows: seq<Feedback>, resolve: Resolver, f: string, v: Verdict): set<nat> {
    set i: nat | i < |rows| && rows[i].verdict == v && resolve(rows[i].cveId) == Some(f)
  }

  /** The tally of a family is the number of those places. */
  lemma {:induction false} TallyIs(rows: seq<Feedback>, resolve: Resolver, f: string, v: Verdict)
    ensures Tally(rows, resolve, f, v) == if f == "" then 0 else |VerdictPlaces(rows, resolve, f, v)|
  {
    if rows != [] {
      var n: nat := |rows| - 1;
      TallyIs(rows[..n], resolve, f, v);
      VerdictPlacesStep(rows, resolve, f, v, n);
    }
  }

  lemma VerdictPlacesStep(rows: seq<Feedback>, resolve: Resolver, f: string, v: Verdict, n: nat)
    requires |rows| == n + 1
    ensures n !in VerdictPlaces(rows[..n], resolve, f, v)
    ensures VerdictPlaces(rows, resolve, f, v) ==
            VerdictPlaces(rows[..n], resolve, f, v) + (if rows[n].verdict == v && resolve(rows[n].cveId) == Some(f) then {n} else {})
  {
  }

  lemma DropCommon(front: seq<Feedback>, left: seq<Feedback>, right: seq<Feedback>, r: Feedback)
    requires multiset(front + [r]) == multiset(left + [r] + right)
    ensures multiset(front) == multiset(left + right)
  {
    assert multiset(front + [r]) == multiset(front) + multiset{r};
    assert multiset(left + [r] + right) == multiset(left) + multiset{r} + multiset(right);
    assert multiset(left + right) == multiset(left) + multiset(right);
    assert multiset(front) == multiset(front + [r]) - multiset{r};
  }

  lemma TallyInsert(left: seq<Feedback>, right: seq<Feedback>, r: Feedback, resolve: Resolver, f: string, v: Verdict)
    ensures Tally(left + [r] + right, resolve, f, v) == Tally(left + right, resolve, f, v) + (if Hits(r, resolve, f, v) then 1 else 0)
  {
    TallyAppend(left + [r], right, resolve, f, v);
    TallyAppend(left, right, resolve, f, v);
    assert (left + [r])[..|left|] == left;
  }

  /** The tallies do not depend on the order of the rows. */
  lemma {:induction false} TallyPermuted(a: seq<Feedback>, b: seq<Feedback>, resolve: Resolver, f: string, v: Verdict)
    requires multiset(a) == multiset(b)
    ensures Tally(a, resolve, f, v) == Tally(b, resolve, f, v)
    decreases |a|
  {
    assert |multiset(a)| == |a| && |multiset(b)| == |b|;
    if a != [] {
      var front, last := a[..|a| - 1], a[|a| - 1];
      assert a == front + [last];
      assert last in multiset(b);
      var k :| 0 <= k < |b| && b[k] == last;
      var left, right := b[..k], b[k + 1..];
      assert b == left + [last] + right;
      DropCommon(front, left, right, last);
      TallyPermuted(front, left + right, resolve, f, v);
      TallyInsert(left, right, last, resolve, f, v);
    }
  }

  // ---- adjusting thresholds -----------------------------------------------------------------

  const FP_RATE_STRICTEN := 0.5
  const FP_RATE_LOOSEN := 0.1
  const STRICTEN_DELTA := 0.05
  const LOOSEN_DELTA := 0.03

  function Min(a: real, b: real): real {
    if b < a then b else a
  }

  function Clamp(x: real): real {
    Min(if 0.0 > x then 0.0 else x, 1.0)
  }

  /** Whatever the numbers, the result passes the check of a configuration. */
  function ValidThresholds(high: real, possible: real, low: real): (t: ThresholdConfig)
    ensures Ordered(t)
  {
    var p := Min(Clamp(possible), Clamp(high));
    ThresholdConfig(Clamp(high), p, Min(Clamp(low), p))
  }

  function AdjustForFpRate(base: ThresholdConfig, rate: real): ThresholdConfig {
    if rate >= FP_RATE_STRICTEN then
      ValidThresholds(base.high + STRICTEN_DELTA, base.possible + STRICTEN_DELTA, base.low + STRICTEN_DELTA)
    else if rate <= FP_RATE_LOOSEN then
      ValidThresholds(base.high - LOOSEN_DELTA, base.possible - LOOSEN_DELTA, base.low - LOOSEN_DELTA)
    else base
  }

  /** On a valid base shifted as a whole, clamping alone keeps the order: the squeeze of the
  lower bounds under the upper ones changes nothing. */
  lemma SqueezeNeverFires(base: ThresholdConfig, d: real)
    requires Ordered(base)
    ensures ValidThresholds(base.high + d, base.possible + d, base.low + d)
         == ThresholdConfig(Clamp(base.high + d), Clamp(base.possible + d), Clamp(base.low + d))
  {
  }

  /** From half false positives on no score gets a higher tier; up to a tenth, none gets a
  lower one; in between nothing changes. The result is always a valid configuration. */
  lemma AdjustMovesTiers(base: ThresholdConfig, rate: real, score: real)
    requires Ordered(base)
    ensures var t := AdjustForFpRate(base, rate);
      && Ordered(t)
      && (rate >= FP_RATE_STRICTEN ==> TierRank(TierForScore(t, score)) <= TierRank(TierForScore(base, score)))
      && (rate <= FP_RATE_LOOSEN ==> TierRank(TierForScore(t, score)) >= TierRank(TierForScore(base, score)))
      && (FP_RATE_LOOSEN < rate < FP_RATE_STRICTEN ==> t == base)
  {
    if rate >= FP_RATE_STRICTEN {
      SqueezeNeverFires(base, STRICTEN_DELTA);
    } else if rate <= FP_RATE_LOOSEN {
      SqueezeNeverFires(base, -LOOSEN_DELTA);
    }
  }

  /** `t` is `x` moved by `d` as far as the unit interval allows. */
  predicate Moved(x: real, t: real, d: real) {
    if x + d > 1.0 then t == 1.0 else if x + d < 0.0 then t == 0.0 else t == x + d
  }

  predicate MovedBy(base: ThresholdConfig, t: ThresholdConfig, d: real) {
    Moved(base.high, t.high, d) && Moved(base.possible, t.possible, d) && Moved(base.low, t.low, d)
  }

  /** A valid base moves up by 0.05 from half false positives on and down by 0.03 up to a
  tenth of them, each threshold on its own within the unit interval. */
  lemma AdjustIs(base: ThresholdConfig, s: FamilyStats)
    requires Ordered(base) && s.confirmed + s.falsePositive >= 1
    ensures var t := AdjustForFpRate(base, FpRate(s));
      && (s.falsePositive >= s.confirmed ==> MovedBy(base, t, 0.05))
      && (9 * s.falsePositive <= s.confirmed ==> MovedBy(base, t, -0.03))
      && (s.falsePositive < s.confirmed < 9 * s.falsePositive ==> t == base)
  {
    RateIff(s);
    if s.falsePositive >= s.confirmed {
      SqueezeNeverFires(base, STRICTEN_DELTA);
    } else if 9 * s.falsePositive <= s.confirmed {
      SqueezeNeverFires(base, -LOOSEN_DELTA);
    }
  }

  /** The two rates in whole numbers. */
  lemma RateIff(s: FamilyStats)
    requires s.confirmed + s.falsePositive >= 1
    ensures FpRate(s) >= FP_RATE_STRICTEN <==> s.falsePositive >= s.confirmed
    ensures FpRate(s) <= FP_RATE_LOOSEN <==> 9 * s.falsePositive <= s.confirmed
  {
    var n, fp := (s.confirmed + s.falsePositive) as real, s.falsePositive as real;
    RatioAgainst(fp, n, FP_RATE_STRICTEN);
    RatioAgainst(fp, n, FP_RATE_LOOSEN);
    assert n == (s.confirmed as real) + fp;
  }

  lemma RatioAgainst(x: real, n: real, c: real)
    requires n > 0.0
    ensures x / n >= c <==> x >= c * n
    ensures x / n <= c <==> x <= c * n
  {
    var r := x / n;
    assert r * n == x;
    if r >= c {
      assert (r - c) * n >= 0.0;
    }
    if r <= c {
      assert (c - r) * n >= 0.0;
    }
    if r > c {
      assert (r - c) * n > 0.0;
    }
    if r < c {
      assert (c - r) * n > 0.0;
    }
  }

  // ---- recalibration ---------------------------------------------------------------------------

  /** What the feedback asks of a family. */
  function Policy(rows: seq<Feedback>, resolve: Resolver, base: ThresholdConfig, minSamples: int, f: string): ThresholdConfig {
    var n := Decided(rows, resolve, f);
    if n == 0 || n < minSamples then base else AdjustForFpRate(base, FpRate(StatsOf(rows, resolve, f)))
  }

  /** The families whose thresholds change from the base, with the new thresholds. */
  ghost predicate Changes(updated: map<string, ThresholdConfig>, rows: seq<Feedback>, resolve: Resolver,
                          base: ThresholdConfig, minSamples: int) {
    forall f ::
      && (f in updated <==> Policy(rows, resolve, base, minSamples, f) != base)
      && (f in updated ==> updated[f] == Policy(rows, resolve, base, minSamples, f))
  }

  class ThresholdStore {
    var overrides: map<string, ThresholdConfig>

    constructor ()
      ensures overrides == map[]
    {
      overrides := map[];
    }

    method SetFamilyThresholds(f: string, t: ThresholdConfig)
      modifies this
      ensures overrides == old(overrides)[f := t]
    {
      overrides := overrides[f := t];
    }
  }

  function NewThresholds(s: FamilyStats, base: ThresholdConfig, minSamples: int): ThresholdConfig {
    if s.confirmed + s.falsePositive < minSamples then base else AdjustForFpRate(base, FpRate(s))
  }

  lemma PolicyFromStats(stats: map<string, FamilyStats>, rows: seq<Feedback>, resolve: Resolver, base: ThresholdConfig,
                        minSamples: int, f: string)
    requires Tallies(stats, rows, resolve)
    ensures Policy(rows, resolve, base, minSamples, f) == if f in stats then NewThresholds(stats[f], base, minSamples) else base
  {
  }

  method Recalibrate(store: ThresholdStore, rows: seq<Feedback>, resolve: Resolver, base: ThresholdConfig, minSamples: int, install: bool)
    returns (updated: map<string, ThresholdConfig>)
    modifies store
    ensures Changes(updated, rows, resolve, base, minSamples)
    ensures store.overrides == if install then old(store.overrides) + updated else old(store.overrides)
  {
    var stats := Aggregate(rows, resolve);
    updated := RecalibrateFamilies(store, stats, base, minSamples, install);
    forall f {
      PolicyFromStats(stats, rows, resolve, base, minSamples, f);
    }
  }

  method RecalibrateFamilies(store: ThresholdStore, stats: map<string, FamilyStats>, base: ThresholdConfig, minSamples: int, install: bool)
    returns (updated: map<string, ThresholdConfig>)
    modifies store
    ensures forall f :: f in updated <==> f in stats && NewThresholds(stats[f], base, minSamples) != base
    ensures forall f :: f in updated ==> updated[f] == NewThresholds(stats[f], base, minSamples)
    ensures store.overrides == if install then old(store.overrides) + updated else old(store.overrides)
  {
    updated := map[];
    var families := stats.Keys;
    while families != {}
      invariant families <= stats.Keys
      invariant forall f :: f in updated <==> f in stats && f !in families && NewThresholds(stats[f], base, minSamples) != base
      invariant forall f :: f in updated ==> updated[f] == NewThresholds(stats[f], base, minSamples)
      invariant store.overrides == if install then old(store.overrides) + updated else old(store.overrides)
      decreases |families|
    {
      var f :| f in families;
      families := families - {f};
      updated := RecalibrateFamily(store, f, stats[f], base, minSamples, install, old(store.overrides), updated);
    }
  }

  /** One family: nothing with too few verdicts or without a change, otherwise the new
  thresholds are noted and, if wanted, installed. */
  method RecalibrateFamily(store: ThresholdStore, f: string, s: FamilyStats, base: ThresholdConfig, minSamples: int, install: bool,
                           ghost before: map<string, ThresholdConfig>, updated: map<string, ThresholdConfig>)
    returns (updated': map<string, ThresholdConfig>)
    requires store.overrides == if install then before + updated else before
    modifies store
    ensures var t := NewThresholds(s, base, minSamples); updated' == if t == base then updated else updated[f := t]
    ensures store.overrides == if install then before + updated' else before
  {
    updated' := updated;
    if s.confirmed + s.falsePositive >= minSamples {
      var t := AdjustForFpRate(base, FpRate(s));
      if t != base {
        if install {
          store.SetFamilyThresholds(f, t);
        }
        updated' := updated[f := t];
        assert (before + updated)[f := t] == before + updated';
      }
    }
  }

  /** Every threshold recalibration installs is a valid configuration. */
  lemma InstalledAreOrdered(updated: map<string, ThresholdConfig>, rows: seq<Feedback>, resolve: Resolver,
                            base: ThresholdConfig, minSamples: int)
    requires Changes(updated, rows, resolve, base, minSamples) && Ordered(base)
    ensures forall f :: f in updated ==> Ordered(updated[f])
  {
    forall f | f in updated
      ensures Ordered(updated[f])
    {
      AdjustMovesTiers(base, FpRate(StatsOf(rows, resolve, f)), 0.0);
    }
  }

  /** The same verdicts in any order give the same changes. */
  lemma RowOrderIrrelevant(a: seq<Feedback>, b: seq<Feedback>, resolve: Resolver, base: ThresholdConfig, minSamples: int,
                           fromA: map<string, ThresholdConfig>, fromB: map<string, ThresholdConfig>)
    requires multiset(a) == multiset(b)
    requires Changes(fromA, a, resolve, base, minSamples) && Changes(fromB, b, resolve, base, minSamples)
    ensures fromA == fromB
  {
    forall f
      ensures Policy(a, resolve, base, minSamples, f) == Policy(b, resolve, base, minSamples, f)
    {
      TallyPermuted(a, b, resolve, f, Confirm);
      TallyPermuted(a, b, resolve, f, FalsePositive);
    }
    assert forall f :: f in fromA <==> f in fromB;
  }

  /** Recalibrating again on the same feedback changes nothing. */
  lemma RecalibrateTwice(overrides: map<string, ThresholdConfig>, rows: seq<Feedback>, resolve: Resolver, base: ThresholdConfig,
                         minSamples: int, first: map<string, ThresholdConfig>, second: map<string, ThresholdConfig>)
    requires Changes(first, rows, resolve, base, minSamples) && Changes(second, rows, resolve, base, minSamples)
    ensures first == second && overrides + first + second == overrides + first
  {
    RowOrderIrrelevant(rows, rows, resolve, base, minSamples, first, second);
  }

  /** There are enough decided verdicts, and as many false positives as confirmed ones or at
  most a ninth of them, at which end the base can still move. */
  predicate AsksForChange(rows: seq<Feedback>, resolve: Resolver, base: ThresholdConfig, minSamples: int, f: string) {
    var confirmed, wrong := Tally(rows, resolve, f, Confirm), Tally(rows, resolve, f, FalsePositive);
    && confirmed + wrong >= 1 && confirmed + wrong >= minSamples
    && ((wrong >= confirmed && base.low < 1.0) || (9 * wrong <= confirmed && base.high > 0.0))
  }

  lemma AdjustChangesIff(base: ThresholdConfig, rate: real)
    requires Ordered(base)
    ensures AdjustForFpRate(base, rate) != base
            <==> (rate >= FP_RATE_STRICTEN && base.low < 1.0) || (rate <= FP_RATE_LOOSEN && base.high > 0.0)
  {
    if rate >= FP_RATE_STRICTEN {
      SqueezeNeverFires(base, STRICTEN_DELTA);
    } else if rate <= FP_RATE_LOOSEN {
      SqueezeNeverFires(base, -LOOSEN_DELTA);
    }
  }

  /** Feedback changes a family's thresholds from a valid base exactly when it asks for a
  change: a shift is lost in the clamping only where all three stand at the end already. */
  lemma PolicyChangesIff(rows: seq<Feedback>, resolve: Resolver, base: ThresholdConfig, minSamples: int, f: string)
    requires Ordered(base)
    ensures Policy(rows, resolve, base, minSamples, f) != base <==> AsksForChange(rows, resolve, base, minSamples, f)
  {
    var s := StatsOf(rows, resolve, f);
    AdjustChangesIff(base, FpRate(s));
    if Decided(rows, resolve, f) >= 1 {
      RateIff(s);
    }
  }

  /** After recalibrating, a family has the thresholds its feedback asks for if and only if
  the feedback asks for a change or the family had those of the base before: an override
  is never taken back. */
  lemma EffectiveIsPolicyIff(overrides: map<string, ThresholdConfig>, rows: seq<Feedback>, resolve: Resolver,
                             base: ThresholdConfig, minSamples: int, updated: map<string, ThresholdConfig>, f: string)
    requires Changes(updated, rows, resolve, base, minSamples) && Ordered(base)
    ensures ThresholdsFor(overrides + updated, Some(f)) == Policy(rows, resolve, base, minSamples, f)
            <==> AsksForChange(rows, resolve, base, minSamples, f) || ThresholdsFor(overrides, Some(f)) == base
  {
    PolicyChangesIff(rows, resolve, base, minSamples, f);
    if f in updated {
      assert (overrides + updated)[f] == updated[f];
    }
  }

  /** More verdicts can leave a stale override: after one false positive the family is
  tightened, and two confirmations later it stays so although the feedback asks for the
  defaults. */
  lemma OverrideGoesStale(cve: string, f: string, resolve: Resolver,
                          first: map<string, ThresholdConfig>, second: map<string, ThresholdConfig>)
    requires f != "" && resolve(cve) == Some(f)
    requires Changes(first, [Feedback(cve, FalsePositive)], resolve, DEFAULT_THRESHOLDS, 1)
    requires Changes(second, [Feedback(cve, FalsePositive)] + [Feedback(cve, Confirm)] + [Feedback(cve, Confirm)],
                     resolve, DEFAULT_THRESHOLDS, 1)
    ensures var rows := [Feedback(cve, FalsePositive)] + [Feedback(cve, Confirm)] + [Feedback(cve, Confirm)];
      && Policy(rows, resolve, DEFAULT_THRESHOLDS, 1, f) == DEFAULT_THRESHOLDS
      && ThresholdsFor(map[] + first + second, Some(f)) != DEFAULT_THRESHOLDS
  {
    var fp, c := Feedback(cve, FalsePositive), Feedback(cve, Confirm);
    OneTally(fp, resolve, f, Confirm);
    OneTally(fp, resolve, f, FalsePositive);
    ThreeTallies(fp, c, c, resolve, f, Confirm);
    ThreeTallies(fp, c, c, resolve, f, FalsePositive);
    assert FpRate(FamilyStats(0, 1)) == 1.0;
    assert FP_RATE_LOOSEN < FpRate(FamilyStats(2, 1)) < FP_RATE_STRICTEN;
    assert f in first && f !in second;
    assert first[f].high == 0.95;
  }

  lemma ThreeTallies(a: Feedback, b: Feedback, c: Feedback, resolve: Resolver, f: string, v: Verdict)
    ensures Tally([a] + [b] + [c], resolve, f, v) ==
            (if Hits(a, resolve, f, v) then 1 else 0) + (if Hits(b, resolve, f, v) then 1 else 0) + (if Hits(c, resolve, f, v) then 1 else 0)
  {
    TallyAppend([a] + [b], [c], resolve, f, v);
    TallyAppend([a], [b], resolve, f, v);
    OneTally(a, resolve, f, v);
    OneTally(b, resolve, f, v);
    OneTally(c, resolve, f, v);
  }

  lemma OneTally(r: Feedback, resolve: Resolver, f: string, v: Verdict)
    ensures Tally([r], resolve, f, v) == if Hits(r, resolve, f, v) then 1 else 0
  {
    assert [r][..0] == [];
  }
}
