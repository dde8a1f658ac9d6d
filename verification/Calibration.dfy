/**
 The config-rewriting loop of `calibrate_merchant` in `src/sr_auto_calibration.rs`: every qualifying
 traffic segment retunes its own sub-level entry, within a deadband, and never a human-authored one.

 Main results: when segments that differ only in case have near targets, a second run on the same traffic
 writes nothing if and only if no segment has an empty dimension (`CalibrationFixpointExactly`); two far
 ones are written again on every run (`CaseVariantsExactly`) and three can drift (`ThreeVariantsDrift`).
 A run leaves a managed bucket within 25 of its target except for a stored size that wraps onto it
 (`ManagedEntriesOnTarget`).
 */
module Calibration {
  import opened Options
  import opened Rounding

  datatype Traffic = Traffic(
    methodType: string, method_: string, cardNetwork: Option<string>, currency: Option<string>,
    country: Option<string>, authType: Option<string>, volume: int, gateways: int)

  /** A JSON sub-level entry: the fields the calibrator reads, and everything else verbatim. A string
      field is `None` when missing or not a string, a number when missing or not a number. */
  datatype Entry = Entry(
    methodType: Option<string>, method_: Option<string>, cardNetwork: Option<string>, cardIsIn: Option<string>,
    currency: Option<string>, country: Option<string>, authType: Option<string>,
    source: Option<string>, bucketSize: Option<int>, hedgingPercent: Option<real>, rest: string)

  datatype Params = Params(
    minBucket: int, maxBucket: int, maxHedgingPct: real, horizonSecs: real, lookbackSecs: real, minVolume: int)

  const AUTOPILOT := "autopilot"
  const BUCKET_DEADBAND := 25
  const HEDGE_DEADBAND := 1.0
  const I32_LIMIT := 0x8000_0000

  /** What `from_config` guarantees, plus the order that `clamp` demands. */
  predicate Valid(p: Params) {
    && 0 < p.minBucket <= p.maxBucket < I32_LIMIT
    && p.maxHedgingPct > 0.0 && p.horizonSecs > 0.0 && p.lookbackSecs > 0.0 && p.minVolume > 0
  }

  // ---------------------------------------------------------------------------------------------
  // The two knobs
  // ---------------------------------------------------------------------------------------------

  /** The smallest `k >= from` with `sqrt(volume / d) / 5 < k + 1/2`. */
  function RootSteps(volume: nat, d: nat, from: nat): (k: nat)
    requires d >= 1
    ensures k >= from && 4 * volume < 25 * (2 * k + 1) * (2 * k + 1) * d
    ensures k == from || 25 * (2 * k - 1) * (2 * k - 1) * d <= 4 * volume
    decreases 4 * volume - 25 * (2 * from + 1) * (2 * from + 1) * d
  {
    if 4 * volume < 25 * (2 * from + 1) * (2 * from + 1) * d then from
    else
      StepsGrow(from, d);
      RootSteps(volume, d, from + 1)
  }

  lemma StepsGrow(k: nat, d: nat)
    requires d >= 1
    ensures 25 * (2 * k + 1) * (2 * k + 1) * d < 25 * (2 * (k + 1) + 1) * (2 * (k + 1) + 1) * d
  {
    var x, y := 25 * (2 * k + 1) * (2 * k + 1), 25 * (2 * k + 3) * (2 * k + 3);
    assert x < y;
    assert x * d < y * d;
  }

  function Clamp(x: int, lo: int, hi: int): int {
    if x < lo then lo else if x > hi then hi else x
  }

  /** `auto_bucket`: `5 * sqrt(V / (n - 1))` to the nearest multiple of 25, saturated to i32, clamped. */
  function AutoBucket(volume: int, gateways: int, p: Params): int {
    if gateways < 2 || volume <= 0 then p.minBucket
    else
      var r := 25 * RootSteps(volume, gateways - 1, 0);
      Clamp(if r >= I32_LIMIT then I32_LIMIT - 1 else r, p.minBucket, p.maxBucket)
  }

  /** `k - 1/2 <= sqrt(V / (n - 1)) / 5 < k + 1/2`, squared into integer inequalities. */
  predicate IsNearestStep(k: nat, volume: int, gateways: int) {
    && (k == 0 || 25 * (2 * k - 1) * (2 * k - 1) * (gateways - 1) <= 4 * volume)
    && 4 * volume < 25 * (2 * k + 1) * (2 * k + 1) * (gateways - 1)
  }

  /** The bucket is the minimum without two gateways or volume; otherwise the multiple of 25 nearest to
      `5 * sqrt(V / (n - 1))`, or the bound it lies beyond. */
  lemma AutoBucketIsNearest(volume: int, gateways: int, p: Params)
    requires Valid(p)
    ensures var b := AutoBucket(volume, gateways, p);
            && p.minBucket <= b <= p.maxBucket
            && (gateways < 2 || volume <= 0 ==> b == p.minBucket)
            && (gateways >= 2 && volume > 0 ==>
                && (exists k: nat :: IsNearestStep(k, volume, gateways))
                && forall k: nat :: IsNearestStep(k, volume, gateways) ==>
                     b == if 25 * k <= p.minBucket then p.minBucket else if 25 * k >= p.maxBucket then p.maxBucket
                          else 25 * k)
  {
    if gateways >= 2 && volume > 0 {
      var r := RootSteps(volume, gateways - 1, 0);
      assert IsNearestStep(r, volume, gateways);
      forall k: nat | IsNearestStep(k, volume, gateways) ensures k == r {
        if k < r {
          StepsOrdered(k, r, volume, gateways);
        } else if r < k {
          StepsOrdered(r, k, volume, gateways);
        }
      }
      hide RootSteps, IsNearestStep;
    }
  }

  lemma StepsOrdered(k: nat, l: nat, volume: int, gateways: int)
    requires k < l && gateways >= 2 && IsNearestStep(k, volume, gateways)
    ensures !IsNearestStep(l, volume, gateways)
  {
    var x, y := 2 * k + 1, 2 * l - 1;
    SquaresOrdered(x, y);
    ScaledOrder(25 * x * x, 25 * y * y, gateways - 1);
  }

  lemma SquaresOrdered(x: nat, y: nat)
    requires x <= y
    ensures 25 * x * x <= 25 * y * y
  {
    assert (y - x) * (y + x) >= 0;
    assert (y - x) * (y + x) == y * y - x * x;
  }

  lemma ScaledOrder(x: int, y: int, d: nat)
    requires x <= y
    ensures x * d <= y * d
  {
  }

  function MinReal(x: real, y: real): real {
    if x <= y then x else y
  }

  /** The share each alternative gateway gets: what it needs to refresh its window within the horizon,
      capped, and at least one percent. */
  function GatewayShare(bucket: int, volume: int, gateways: int, p: Params): (r: real)
    requires p.lookbackSecs > 0.0 && gateways >= 2
    ensures r >= 0.01
  {
    var cap := p.maxHedgingPct / 100.0 / (gateways - 1) as real;
    var inHorizon := volume as real * (p.horizonSecs / p.lookbackSecs);
    var refresh := if inHorizon > 0.0 then bucket as real / inHorizon else cap;
    var share := MinReal(refresh, cap);
    if share < 0.01 then 0.01 else share
  }

  /** The share of all alternative gateways together, in percent. */
  function TotalShare(bucket: int, volume: int, gateways: int, p: Params): real
    requires p.lookbackSecs > 0.0 && gateways >= 2
  {
    GatewayShare(bucket, volume, gateways, p) * (gateways - 1) as real * 100.0
  }

  /** `auto_hedge_pct` */
  function AutoHedge(bucket: int, volume: int, gateways: int, p: Params): real
    requires p.lookbackSecs > 0.0
  {
    if gateways < 2 || volume <= 0 then 5.0
    else RoundCents(MinReal(TotalShare(bucket, volume, gateways, p), p.maxHedgingPct))
  }

  /** Unless capped, the share brings a full window's worth of transactions within the reaction
      horizon; above the one-percent floor it brings no more than that. */
  lemma ShareRefreshesWindow(bucket: int, volume: int, gateways: int, p: Params)
    requires Valid(p) && gateways >= 2 && volume > 0
    ensures var r := GatewayShare(bucket, volume, gateways, p);
            var cap := p.maxHedgingPct / 100.0 / (gateways - 1) as real;
            var inHorizon := volume as real * (p.horizonSecs / p.lookbackSecs);
            && (r < cap ==> r * inHorizon >= bucket as real)
            && (r > 0.01 ==> r * inHorizon <= bucket as real && r <= cap)
  {
    var h := p.horizonSecs / p.lookbackSecs;
    PositiveQuotient(p.horizonSecs, p.lookbackSecs);
    var v := volume as real;
    assert v * h > 0.0;
    var inHorizon := v * h;
    var refresh := bucket as real / inHorizon;
    assert refresh * inHorizon == bucket as real;
    var r := GatewayShare(bucket, volume, gateways, p);
    if r >= refresh {
      assert (r - refresh) * inHorizon >= 0.0;
    }
    if r <= refresh {
      assert (refresh - r) * inHorizon >= 0.0;
    }
  }

  /** The share of each alternative gateway, given what it is capped at and the transactions within the
      horizon. */
  predicate IsShare(r: real, bucket: int, inHorizon: real, cap: real) {
    && r >= 0.01
    && (r < cap ==> r * inHorizon >= bucket as real)
    && (r > 0.01 ==> r * inHorizon <= bucket as real && r <= cap)
  }

  /** Hedging is 5 percent without two gateways or volume. Otherwise it is a hundred times the shares of all
      `n - 1` alternatives together, at most the maximum, in hundredths of a percent. */
  lemma HedgeIsTotalShare(bucket: int, volume: int, gateways: int, p: Params, r: real, cap: real)
    requires Valid(p)
    requires gateways >= 2 ==> cap * (gateways - 1) as real * 100.0 == p.maxHedgingPct
    ensures gateways < 2 || volume <= 0 ==> AutoHedge(bucket, volume, gateways, p) == 5.0
    ensures gateways >= 2 && volume > 0 ==>
              var inHorizon := volume as real * (p.horizonSecs / p.lookbackSecs);
              && (r == GatewayShare(bucket, volume, gateways, p) ==> IsShare(r, bucket, inHorizon, cap))
              && (IsShare(r, bucket, inHorizon, cap) ==>
                    var total := 100.0 * (gateways - 1) as real * r;
                    AutoHedge(bucket, volume, gateways, p)
                      == RoundCents(if total <= p.maxHedgingPct then total else p.maxHedgingPct))
  {
    hide GatewayShare, TotalShare, RoundCents, IsShare;
    if gateways >= 2 && volume > 0 {
      var share := GatewayShare(bucket, volume, gateways, p);
      ShareMeaning(bucket, volume, gateways, p, cap);
      TotalIs(bucket, volume, gateways, p);
      var inHorizon := volume as real * (p.horizonSecs / p.lookbackSecs);
      if IsShare(r, bucket, inHorizon, cap) {
        ShareIsUnique(r, share, bucket, inHorizon, cap);
        assert r == share;
        var total := 100.0 * (gateways - 1) as real * r;
        assert TotalShare(bucket, volume, gateways, p) == total;
        assert AutoHedge(bucket, volume, gateways, p)
            == RoundCents(if total <= p.maxHedgingPct then total else p.maxHedgingPct);
      }
    }
  }

  lemma TotalIs(bucket: int, volume: int, gateways: int, p: Params)
    requires p.lookbackSecs > 0.0 && gateways >= 2
    ensures TotalShare(bucket, volume, gateways, p)
         == 100.0 * (gateways - 1) as real * GatewayShare(bucket, volume, gateways, p)
  {
    hide GatewayShare;
  }

  lemma ShareMeaning(bucket: int, volume: int, gateways: int, p: Params, cap: real)
    requires Valid(p) && gateways >= 2 && volume > 0 && cap * (gateways - 1) as real * 100.0 == p.maxHedgingPct
    ensures var inHorizon := volume as real * (p.horizonSecs / p.lookbackSecs);
            inHorizon > 0.0 && IsShare(GatewayShare(bucket, volume, gateways, p), bucket, inHorizon, cap)
  {
    hide GatewayShare;
    PositiveQuotient(p.horizonSecs, p.lookbackSecs);
    ProductPositive(volume as real, p.horizonSecs / p.lookbackSecs);
    CapIs(cap, (gateways - 1) as real, p.maxHedgingPct);
    ShareRefreshesWindow(bucket, volume, gateways, p);
  }

  lemma ProductPositive(x: real, y: real)
    requires x > 0.0 && y > 0.0
    ensures x * y > 0.0
  {
  }

  lemma CapIs(cap: real, n1: real, max: real)
    requires n1 > 0.0 && cap * n1 * 100.0 == max
    ensures max / 100.0 / n1 == cap
  {
    var q := max / 100.0 / n1;
    assert q * n1 == max / 100.0;
    assert (q - cap) * n1 == 0.0;
  }

  lemma ShareIsUnique(r: real, s: real, bucket: int, inHorizon: real, cap: real)
    requires inHorizon > 0.0 && IsShare(r, bucket, inHorizon, cap) && IsShare(s, bucket, inHorizon, cap)
    ensures r == s
  {
    if r < s {
      SharesApart(r, s, bucket, inHorizon, cap);
    } else if s < r {
      SharesApart(s, r, bucket, inHorizon, cap);
    }
  }

  lemma SharesApart(r: real, s: real, bucket: int, inHorizon: real, cap: real)
    requires inHorizon > 0.0 && r < s && IsShare(r, bucket, inHorizon, cap)
    ensures !IsShare(s, bucket, inHorizon, cap)
  {
    assert (s - r) * inHorizon > 0.0;
  }

  lemma PositiveQuotient(x: real, y: real)
    requires x > 0.0 && y > 0.0
    ensures x / y > 0.0
  {
    assert x / y * y == x;
  }

  lemma OnePercentEach(perPg: real, n1: real)
    requires perPg >= 0.01 && n1 >= 0.0
    ensures perPg * n1 * 100.0 >= n1
  {
    assert (perPg - 0.01) * n1 >= 0.0;
  }

  lemma TotalShareAtLeast(bucket: int, volume: int, gateways: int, p: Params)
    requires p.lookbackSecs > 0.0 && gateways >= 2
    ensures TotalShare(bucket, volume, gateways, p) >= (gateways - 1) as real
  {
    hide GatewayShare;
    OnePercentEach(GatewayShare(bucket, volume, gateways, p), (gateways - 1) as real);
  }

  /** Hedging never falls below one percent per alternative gateway, and never exceeds the maximum. */
  lemma HedgeBounds(bucket: int, volume: int, gateways: int, p: Params)
    requires Valid(p) && gateways >= 2 && volume > 0
    ensures var h := AutoHedge(bucket, volume, gateways, p);
            RoundCents(MinReal((gateways - 1) as real, p.maxHedgingPct)) <= h <= RoundCents(p.maxHedgingPct)
  {
    hide TotalShare, RoundCents;
    TotalShareAtLeast(bucket, volume, gateways, p);
    var n1, total := (gateways - 1) as real, TotalShare(bucket, volume, gateways, p);
    RoundCentsMonotone(MinReal(n1, p.maxHedgingPct), MinReal(total, p.maxHedgingPct));
    RoundCentsMonotone(MinReal(total, p.maxHedgingPct), p.maxHedgingPct);
  }

  // ---------------------------------------------------------------------------------------------
  // Matching
  // ---------------------------------------------------------------------------------------------

  function LowerChar(c: char): char {
    if 'A' <= c <= 'Z' then c + 32 as char else c
  }

  function Lower(s: string): string {
    seq(|s|, i requires 0 <= i < |s| => LowerChar(s[i]))
  }

  predicate EqIgnoreCase(s: string, t: string) {
    Lower(s) == Lower(t)
  }

  /** Equal up to the case of ASCII letters. */
  lemma EqIgnoreCaseMeaning(s: string, t: string)
    ensures EqIgnoreCase(s, t) <==>
            |s| == |t| && forall i :: 0 <= i < |s| ==>
              || s[i] == t[i]
              || ('A' <= s[i] <= 'Z' && t[i] as int == s[i] as int + 32)
              || ('A' <= t[i] <= 'Z' && s[i] as int == t[i] as int + 32)
  {
    if EqIgnoreCase(s, t) {
      assert |Lower(s)| == |Lower(t)|;
      forall i | 0 <= i < |s| ensures LowerChar(s[i]) == LowerChar(t[i]) {
        assert Lower(s)[i] == Lower(t)[i];
      }
    }
  }

  /** `dim_matches`: an absent or empty stored value means "not set". */
  predicate DimMatches(stored: Option<string>, expected: Option<string>) {
    match (if stored == Some("") then None else stored, expected)
    case (Some(s), Some(e)) => EqIgnoreCase(s, e)
    case (None, None) => true
    case _ => false
  }

  /** `segment_entry_matches` */
  predicate Matches(e: Entry, t: Traffic) {
    && DimMatches(e.methodType, Some(t.methodType))
    && DimMatches(e.method_, Some(t.method_))
    && DimMatches(e.cardNetwork, t.cardNetwork)
    && DimMatches(e.cardIsIn, None)
    && DimMatches(e.currency, t.currency)
    && DimMatches(e.country, t.country)
    && DimMatches(e.authType, t.authType)
  }

  /** A stored dimension that is missing or empty matches only one that is not set; another matches one that is
      set to the same value, ignoring case. */
  predicate SameDimension(stored: Option<string>, expected: Option<string>) {
    if stored.None? || |stored.value| == 0 then expected.None?
    else expected.Some? && EqIgnoreCase(stored.value, expected.value)
  }

  lemma MatchesMeaning(e: Entry, t: Traffic)
    ensures Matches(e, t) <==>
            && SameDimension(e.methodType, Some(t.methodType)) && SameDimension(e.method_, Some(t.method_))
            && SameDimension(e.cardNetwork, t.cardNetwork) && SameDimension(e.currency, t.currency)
            && SameDimension(e.country, t.country) && SameDimension(e.authType, t.authType)
            && (e.cardIsIn.None? || e.cardIsIn.value == "")
  {
    hide EqIgnoreCase;
  }

  /** The position of the first matching entry, `|entries|` when there is none. */
  function FirstMatch(entries: seq<Entry>, t: Traffic): (i: nat)
    ensures i <= |entries|
    ensures forall j :: 0 <= j < i ==> !Matches(entries[j], t)
    ensures i < |entries| ==> Matches(entries[i], t)
  {
    if entries == [] then 0
    else if Matches(entries[0], t) then 0
    else 1 + FirstMatch(entries[1..], t)
  }

  lemma FirstMatchIs(entries: seq<Entry>, t: Traffic, i: nat)
    requires i < |entries| && Matches(entries[i], t) && forall j :: 0 <= j < i ==> !Matches(entries[j], t)
    ensures FirstMatch(entries, t) == i
  {
  }

  // ---------------------------------------------------------------------------------------------
  // One segment
  // ---------------------------------------------------------------------------------------------

  /** Wrapping to i32, as the `as i32` cast and release-mode arithmetic do. */
  function WrapI32(x: int): int {
    (x + I32_LIMIT) % 0x1_0000_0000 - I32_LIMIT
  }

  /** `i32::abs`, which leaves `i32::MIN` negative. */
  function AbsI32(x: int): int {
    if x >= 0 then x else WrapI32(-x)
  }

  predicate BucketMoved(current: Option<int>, target: int) {
    current.None? || AbsI32(WrapI32(WrapI32(current.value) - target)) >= BUCKET_DEADBAND
  }

  predicate HedgeMoved(current: Option<real>, target: real) {
    current.None? ||
    (if current.value >= target then current.value - target else target - current.value) >= HEDGE_DEADBAND
  }

  /** The hedging deadband is one percentage point, exclusive. */
  lemma HedgeMovedExactly(current: real, target: real)
    ensures !HedgeMoved(Some(current), target) <==> -1.0 < current - target < 1.0
    ensures HedgeMoved(None, target) && BucketMoved(None, 0)
  {
  }

  function NewEntry(t: Traffic, bucket: int, hedge: real): Entry {
    Entry(Some(t.methodType), Some(t.method_), t.cardNetwork, None, t.currency, t.country, t.authType,
          Some(AUTOPILOT), Some(bucket), Some(hedge), "")
  }

  function TargetBucket(t: Traffic, p: Params): int {
    AutoBucket(t.volume, t.gateways, p)
  }

  function TargetHedge(t: Traffic, p: Params): real
    requires p.lookbackSecs > 0.0
  {
    AutoHedge(TargetBucket(t, p), t.volume, t.gateways, p)
  }

  /** One iteration of the loop over qualifying segments. */
  function Tune(entries: seq<Entry>, t: Traffic, p: Params): seq<Entry>
    requires p.lookbackSecs > 0.0
  {
    var bucket, hedge := TargetBucket(t, p), TargetHedge(t, p);
    var i := FirstMatch(entries, t);
    if i == |entries| then entries + [NewEntry(t, bucket, hedge)]
    else if entries[i].source != Some(AUTOPILOT) then entries
    else if BucketMoved(entries[i].bucketSize, bucket) || HedgeMoved(entries[i].hedgingPercent, hedge) then
      entries[i := entries[i].(bucketSize := Some(bucket), hedgingPercent := Some(hedge))]
    else entries
  }

  function TuneAll(entries: seq<Entry>, ts: seq<Traffic>, p: Params): seq<Entry>
    requires p.lookbackSecs > 0.0
  {
    if ts == [] then entries else Tune(TuneAll(entries, ts[..|ts| - 1], p), ts[|ts| - 1], p)
  }

  // ---------------------------------------------------------------------------------------------
  // What no run does
  // ---------------------------------------------------------------------------------------------

  /** `after` differs from `before` only by tuning autopilot entries and by growing at its end. */
  ghost predicate Respects(before: seq<Entry>, after: seq<Entry>) {
    && |before| <= |after|
    && (forall i :: 0 <= i < |before| ==>
          && (before[i].source != Some(AUTOPILOT) ==> after[i] == before[i])
          && after[i] == before[i].(bucketSize := after[i].bucketSize, hedgingPercent := after[i].hedgingPercent))
    && (forall i :: |before| <= i < |after| ==> after[i].source == Some(AUTOPILOT))
  }

  lemma RespectsTransitive(a: seq<Entry>, b: seq<Entry>, c: seq<Entry>)
    requires Respects(a, b) && Respects(b, c)
    ensures Respects(a, c)
  {
  }

  lemma {:induction false} HumanEntriesUntouched(entries: seq<Entry>, ts: seq<Traffic>, p: Params)
    requires p.lookbackSecs > 0.0
    ensures Respects(entries, TuneAll(entries, ts, p))
  {
    hide TargetBucket, TargetHedge, Matches, BucketMoved, HedgeMoved;
    if ts != [] {
      var mid := TuneAll(entries, ts[..|ts| - 1], p);
      HumanEntriesUntouched(entries, ts[..|ts| - 1], p);
      assert Respects(mid, Tune(mid, ts[|ts| - 1], p));
      RespectsTransitive(entries, mid, TuneAll(entries, ts, p));
    }
  }

  // ---------------------------------------------------------------------------------------------
  // The fixpoint
  // ---------------------------------------------------------------------------------------------

  /** Every dimension that is set is non-empty, so an entry written for the segment matches it. */
  predicate Matchable(t: Traffic) {
    && t.methodType != "" && t.method_ != ""
    && t.cardNetwork != Some("") && t.currency != Some("") && t.country != Some("") && t.authType != Some("")
  }

  predicate SameDim(x: Option<string>, y: Option<string>) {
    match (x, y)
    case (Some(s), Some(t)) => EqIgnoreCase(s, t)
    case (None, None) => true
    case _ => false
  }

  /** The two segments are one cluster, ignoring case. */
  predicate SameCluster(s: Traffic, t: Traffic) {
    && EqIgnoreCase(s.methodType, t.methodType) && EqIgnoreCase(s.method_, t.method_)
    && SameDim(s.cardNetwork, t.cardNetwork) && SameDim(s.currency, t.currency)
    && SameDim(s.country, t.country) && SameDim(s.authType, t.authType)
  }

  ghost predicate PairwiseDistinct(ts: seq<Traffic>) {
    forall i, j :: 0 <= i < j < |ts| ==> !SameCluster(ts[i], ts[j])
  }

  lemma MatchDeterminesCluster(e: Entry, s: Traffic, t: Traffic)
    requires Matches(e, s) && Matches(e, t)
    ensures SameCluster(s, t)
  {
    hide EqIgnoreCase;
    assert forall x, y, z :: EqIgnoreCase(x, y) && EqIgnoreCase(x, z) ==> EqIgnoreCase(y, z) by { CaseTransitive(); }
  }

  lemma CaseTransitive()
    ensures forall x, y, z :: EqIgnoreCase(x, y) && EqIgnoreCase(x, z) ==> EqIgnoreCase(y, z)
  {
  }

  /** A segment's first entry exists and needs no change. */
  ghost predicate Settled(entries: seq<Entry>, t: Traffic, p: Params)
    requires p.lookbackSecs > 0.0
  {
    var i := FirstMatch(entries, t);
    && i < |entries|
    && (entries[i].source == Some(AUTOPILOT) ==>
        !BucketMoved(entries[i].bucketSize, TargetBucket(t, p)) &&
        !HedgeMoved(entries[i].hedgingPercent, TargetHedge(t, p)))
  }

  lemma NewEntryMatches(t: Traffic, bucket: int, hedge: real)
    ensures Matches(NewEntry(t, bucket, hedge), t) <==> Matchable(t)
  {
    hide Lower;
  }

  lemma OnTargetIsStill(bucket: int, hedge: real)
    requires 0 <= bucket < I32_LIMIT
    ensures !BucketMoved(Some(bucket), bucket) && !HedgeMoved(Some(hedge), hedge)
  {
  }

  lemma TargetInRange(t: Traffic, p: Params)
    requires Valid(p)
    ensures p.minBucket <= TargetBucket(t, p) <= p.maxBucket
  {
    AutoBucketIsNearest(t.volume, t.gateways, p);
  }

  /** The entry a segment is managed by. */
  function FirstEntry(entries: seq<Entry>, t: Traffic): Option<Entry> {
    var i := FirstMatch(entries, t);
    if i < |entries| then Some(entries[i]) else None
  }

  /** What a run leaves of the entry that a segment had going in. */
  function Outcome(first: Option<Entry>, t: Traffic, p: Params): Entry
    requires p.lookbackSecs > 0.0
  {
    var bucket, hedge := TargetBucket(t, p), TargetHedge(t, p);
    match first
    case None => NewEntry(t, bucket, hedge)
    case Some(e) =>
      if e.source == Some(AUTOPILOT) && (BucketMoved(e.bucketSize, bucket) || HedgeMoved(e.hedgingPercent, hedge)) then
        e.(bucketSize := Some(bucket), hedgingPercent := Some(hedge))
      else e
  }

  lemma TuneOutcome(entries: seq<Entry>, t: Traffic, p: Params)
    requires Valid(p) && Matchable(t)
    ensures FirstEntry(Tune(entries, t, p), t) == Some(Outcome(FirstEntry(entries, t), t, p))
  {
    var bucket, hedge := TargetBucket(t, p), TargetHedge(t, p);
    NewEntryMatches(t, bucket, hedge);
    hide TargetBucket, TargetHedge, BucketMoved, HedgeMoved, DimMatches;
    FirstMatchIs(Tune(entries, t, p), t, FirstMatch(entries, t));
  }

  /** Tuning one segment leaves the entry of another, distinct one alone. */
  lemma TuneKeepsOthers(entries: seq<Entry>, s: Traffic, t: Traffic, p: Params)
    requires Valid(p) && Matchable(t) && !SameCluster(s, t)
    ensures FirstEntry(Tune(entries, t, p), s) == FirstEntry(entries, s)
  {
    var bucket, hedge := TargetBucket(t, p), TargetHedge(t, p);
    NewEntryMatches(t, bucket, hedge);
    hide TargetBucket, TargetHedge, BucketMoved, HedgeMoved, DimMatches, SameCluster, Matchable;
    var i, j := FirstMatch(entries, s), FirstMatch(entries, t);
    var after := Tune(entries, t, p);
    assert j < |entries| ==> !Matches(entries[j], s) by {
      if j < |entries| && Matches(entries[j], s) {
        MatchDeterminesCluster(entries[j], s, t);
      }
    }
    assert j == |entries| ==> !Matches(after[j], s) by {
      if j == |entries| && Matches(after[j], s) {
        MatchDeterminesCluster(after[j], s, t);
      }
    }
    assert forall k :: 0 <= k < |entries| ==> (Matches(after[k], s) <==> Matches(entries[k], s));
    if i < |entries| {
      FirstMatchIs(after, s, i);
    }
  }

  lemma {:induction false} RunKeepsOthers(entries: seq<Entry>, ts: seq<Traffic>, p: Params, s: Traffic)
    requires Valid(p) && forall t :: t in ts ==> Matchable(t) && !SameCluster(s, t)
    ensures FirstEntry(TuneAll(entries, ts, p), s) == FirstEntry(entries, s)
  {
    hide FirstEntry, Tune, SameCluster, Matchable;
    if ts != [] {
      var n := |ts| - 1;
      assert ts[n] in ts;
      RunKeepsOthers(entries, ts[..n], p, s);
      TuneKeepsOthers(TuneAll(entries, ts[..n], p), s, ts[n], p);
    }
  }

  /** What a run does to the entry of each of its segments, by what that entry was going in. */
  lemma {:induction false} RunOutcome(entries: seq<Entry>, ts: seq<Traffic>, p: Params, s: Traffic)
    requires Valid(p) && PairwiseDistinct(ts) && (forall t :: t in ts ==> Matchable(t)) && s in ts
    ensures FirstEntry(TuneAll(entries, ts, p), s) == Some(Outcome(FirstEntry(entries, s), s, p))
  {
    hide FirstEntry, Outcome, Tune, SameCluster, Matchable;
    var n := |ts| - 1;
    assert ts[n] in ts;
    if s == ts[n] {
      forall t | t in ts[..n] ensures Matchable(t) && !SameCluster(s, t) {
        var k :| 0 <= k < n && ts[k] == t;
        SameClusterSymmetric(t, s);
      }
      RunKeepsOthers(entries, ts[..n], p, s);
      TuneOutcome(TuneAll(entries, ts[..n], p), s, p);
    } else {
      var k :| 0 <= k < |ts| && ts[k] == s;
      assert s == ts[..n][k];
      RunOutcome(entries, ts[..n], p, s);
      TuneKeepsOthers(TuneAll(entries, ts[..n], p), s, ts[n], p);
    }
  }

  lemma SameClusterSymmetric(s: Traffic, t: Traffic)
    ensures SameCluster(s, t) <==> SameCluster(t, s)
  {
  }

  /** An entry on the target of `t` is left alone by `s`. */
  predicate Near(s: Traffic, t: Traffic, p: Params)
    requires p.lookbackSecs > 0.0
  {
    && !BucketMoved(Some(TargetBucket(t, p)), TargetBucket(s, p))
    && !HedgeMoved(Some(TargetHedge(t, p)), TargetHedge(s, p))
  }

  lemma NearSymmetric(s: Traffic, t: Traffic, p: Params)
    requires Valid(p)
    ensures Near(s, t, p) <==> Near(t, s, p)
    ensures Near(s, s, p)
  {
    TargetInRange(s, p);
    TargetInRange(t, p);
    MovedSymmetric(TargetBucket(s, p), TargetBucket(t, p));
    MovedSymmetric(TargetBucket(s, p), TargetBucket(s, p));
    hide TargetBucket, TargetHedge, BucketMoved;
  }

  lemma MovedSymmetric(x: int, y: int)
    requires 0 <= x < I32_LIMIT && 0 <= y < I32_LIMIT
    ensures BucketMoved(Some(x), y) <==> BucketMoved(Some(y), x)
    ensures !BucketMoved(Some(x), x)
  {
    WrapIdentity(x);
    WrapIdentity(y);
    WrapIdentity(x - y);
    WrapIdentity(y - x);
    hide WrapI32;
  }

  lemma WrapIdentity(x: int)
    requires -I32_LIMIT <= x < I32_LIMIT
    ensures WrapI32(x) == x
  {
  }

  /** Segments that are one cluster, ignoring case, have targets within the deadbands of each other. */
  ghost predicate Compatible(ts: seq<Traffic>, p: Params)
    requires p.lookbackSecs > 0.0
  {
    forall i, j :: 0 <= i < j < |ts| && SameCluster(ts[i], ts[j]) ==> Near(ts[i], ts[j], p)
  }

  lemma SameClusterMatches(e: Entry, s: Traffic, t: Traffic)
    requires SameCluster(s, t)
    ensures Matches(e, s) <==> Matches(e, t)
  {
    hide Lower;
  }

  lemma SameClusterSameEntry(entries: seq<Entry>, s: Traffic, t: Traffic)
    requires SameCluster(s, t)
    ensures FirstMatch(entries, s) == FirstMatch(entries, t)
  {
    hide SameCluster, Matches;
    forall e ensures Matches(e, s) <==> Matches(e, t) {
      SameClusterMatches(e, s, t);
    }
    var i, j := FirstMatch(entries, s), FirstMatch(entries, t);
    assert i < |entries| ==> Matches(entries[i], t);
    assert j < |entries| ==> Matches(entries[j], s);
  }

  lemma TuneSettles(entries: seq<Entry>, t: Traffic, p: Params)
    requires Valid(p) && Matchable(t)
    ensures Settled(Tune(entries, t, p), t, p)
  {
    TuneOutcome(entries, t, p);
    NearSymmetric(t, t, p);
    hide TargetBucket, TargetHedge, BucketMoved, HedgeMoved, Matches, Tune, Matchable;
  }

  /** Tuning a segment leaves another one settled that is a distinct cluster or has a near target. */
  lemma TuneKeepsSettled(entries: seq<Entry>, s: Traffic, t: Traffic, p: Params)
    requires Valid(p) && Matchable(t) && Settled(entries, s, p) && (SameCluster(s, t) ==> Near(s, t, p))
    ensures Settled(Tune(entries, t, p), s, p)
  {
    hide TargetBucket, TargetHedge, BucketMoved, HedgeMoved, DimMatches, SameCluster, Matchable;
    if SameCluster(s, t) {
      SameClusterSameEntry(entries, s, t);
      var i := FirstMatch(entries, s);
      var after := Tune(entries, t, p);
      assert forall k :: 0 <= k < |entries| ==> (Matches(after[k], s) <==> Matches(entries[k], s));
      FirstMatchIs(after, s, i);
    } else {
      TuneKeepsOthers(entries, s, t, p);
    }
  }

  lemma {:induction false} RunSettles(entries: seq<Entry>, ts: seq<Traffic>, p: Params, s: Traffic)
    requires Valid(p) && Compatible(ts, p) && (forall t :: t in ts ==> Matchable(t)) && s in ts
    ensures Settled(TuneAll(entries, ts, p), s, p)
  {
    hide Settled, Tune, SameCluster, Matchable, Near;
    var n := |ts| - 1;
    var mid := TuneAll(entries, ts[..n], p);
    assert ts[n] in ts;
    if s == ts[n] {
      TuneSettles(mid, s, p);
    } else {
      var k :| 0 <= k < |ts| && ts[k] == s;
      assert s == ts[..n][k];
      RunSettles(entries, ts[..n], p, s);
      TuneKeepsSettled(mid, s, ts[n], p);
    }
  }

  lemma SettledIsStill(entries: seq<Entry>, t: Traffic, p: Params)
    requires Valid(p) && Settled(entries, t, p)
    ensures Tune(entries, t, p) == entries
  {
  }

  lemma {:induction false} AllSettledIsStill(entries: seq<Entry>, ts: seq<Traffic>, p: Params)
    requires Valid(p) && forall t :: t in ts ==> Settled(entries, t, p)
    ensures TuneAll(entries, ts, p) == entries
  {
    hide Settled, Tune;
    if ts != [] {
      assert ts[|ts| - 1] in ts;
      AllSettledIsStill(entries, ts[..|ts| - 1], p);
      SettledIsStill(entries, ts[|ts| - 1], p);
    }
  }

  lemma {:induction false} RunsNeverShrink(entries: seq<Entry>, ts: seq<Traffic>, p: Params)
    requires p.lookbackSecs > 0.0
    ensures |TuneAll(entries, ts, p)| >= |entries|
    ensures (exists t :: t in ts && !Matchable(t)) ==> |TuneAll(entries, ts, p)| > |entries|
  {
    hide TargetBucket, TargetHedge, BucketMoved, HedgeMoved, Lower, Matchable;
    if ts != [] {
      var n := |ts| - 1;
      RunsNeverShrink(entries, ts[..n], p);
      var mid := TuneAll(entries, ts[..n], p);
      if !Matchable(ts[n]) {
        UnmatchableMatchesNothing(ts[n]);
        assert FirstMatch(mid, ts[n]) == |mid|;
      }
    }
  }

  lemma UnmatchableMatchesNothing(t: Traffic)
    requires !Matchable(t)
    ensures forall e :: !Matches(e, t)
  {
    forall e ensures !Matches(e, t) {
      assert forall s: string :: |Lower(s)| == |s|;
    }
  }

  /** How many iterations of a run rewrite the entries; the config is written when there are any. */
  function Writes(entries: seq<Entry>, ts: seq<Traffic>, p: Params): nat
    requires p.lookbackSecs > 0.0
  {
    if ts == [] then 0
    else
      var init, last := ts[..|ts| - 1], ts[|ts| - 1];
      var before := TuneAll(entries, init, p);
      Writes(entries, init, p) + (if Tune(before, last, p) != before then 1 else 0)
  }

  lemma {:induction false} AllSettledWritesNothing(entries: seq<Entry>, ts: seq<Traffic>, p: Params)
    requires Valid(p) && forall t :: t in ts ==> Settled(entries, t, p)
    ensures Writes(entries, ts, p) == 0
  {
    hide Settled, Tune;
    if ts != [] {
      var init := ts[..|ts| - 1];
      assert ts[|ts| - 1] in ts;
      AllSettledWritesNothing(entries, init, p);
      AllSettledIsStill(entries, init, p);
      SettledIsStill(entries, ts[|ts| - 1], p);
    }
  }

  lemma {:induction false} NoWritesIsStill(entries: seq<Entry>, ts: seq<Traffic>, p: Params)
    requires p.lookbackSecs > 0.0
    ensures Writes(entries, ts, p) == 0 ==> TuneAll(entries, ts, p) == entries
  {
    hide Tune;
    if ts != [] {
      NoWritesIsStill(entries, ts[..|ts| - 1], p);
    }
  }

  /** When segments that differ only in case have near targets, in particular when there are none: calibrating
      twice on the same traffic equals calibrating once, and the second time writes nothing, if and only if
      every set dimension is non-empty. */
  lemma CalibrationFixpointExactly(entries: seq<Entry>, ts: seq<Traffic>, p: Params)
    requires Valid(p) && Compatible(ts, p)
    ensures var once := TuneAll(entries, ts, p);
            && (TuneAll(once, ts, p) == once <==> forall t :: t in ts ==> Matchable(t))
            && (Writes(once, ts, p) == 0 <==> forall t :: t in ts ==> Matchable(t))
  {
    hide Settled, Tune, TuneAll, Writes, SameCluster, Matchable, Near;
    var once := TuneAll(entries, ts, p);
    if forall t :: t in ts ==> Matchable(t) {
      forall s | s in ts ensures Settled(once, s, p) {
        RunSettles(entries, ts, p, s);
      }
      AllSettledIsStill(once, ts, p);
      AllSettledWritesNothing(once, ts, p);
    } else {
      RunsNeverShrink(once, ts, p);
      NoWritesIsStill(once, ts, p);
    }
  }

  // ---------------------------------------------------------------------------------------------
  // Segments that differ only in case
  // ---------------------------------------------------------------------------------------------

  /** The two knobs of an entry after tuning it for `t`. */
  function Tuned(e: Entry, t: Traffic, p: Params): Entry
    requires p.lookbackSecs > 0.0
  {
    Outcome(Some(e), t, p)
  }

  /** Two variants of one cluster tune one entry in turn; the second round ends where the first did. */
  lemma TwoRoundsAgree(e: Entry, s: Traffic, t: Traffic, p: Params)
    requires Valid(p)
    ensures var w := Tuned(Tuned(e, s, p), t, p);
            Tuned(Tuned(w, s, p), t, p) == w
  {
    NearSymmetric(s, t, p);
    NearSymmetric(s, s, p);
    NearSymmetric(t, t, p);
    hide TargetBucket, TargetHedge, BucketMoved, HedgeMoved;
  }

  /** Tuning changes one entry at most, and it stays the first match of its cluster. */
  lemma TuneAt(entries: seq<Entry>, s: Traffic, t: Traffic, p: Params)
    requires Valid(p) && Matchable(s) && SameCluster(s, t) && FirstMatch(entries, s) < |entries|
    ensures var i := FirstMatch(entries, s);
            && Tune(entries, t, p) == entries[i := Tuned(entries[i], t, p)]
            && FirstMatch(Tune(entries, t, p), s) == i
  {
    hide TargetBucket, TargetHedge, BucketMoved, HedgeMoved, DimMatches, SameCluster, Matchable;
    SameClusterSameEntry(entries, s, t);
    var i := FirstMatch(entries, s);
    var after := Tune(entries, t, p);
    assert entries[i := entries[i]] == entries;
    assert forall k :: 0 <= k < |entries| ==> (Matches(after[k], s) <==> Matches(entries[k], s));
    FirstMatchIs(after, s, i);
  }

  lemma TuneTwo(entries: seq<Entry>, s: Traffic, t: Traffic, p: Params)
    requires p.lookbackSecs > 0.0
    ensures TuneAll(entries, [s, t], p) == Tune(Tune(entries, s, p), t, p)
    ensures Writes(entries, [s, t], p) ==
            (if Tune(entries, s, p) != entries then 1 else 0)
          + (if Tune(Tune(entries, s, p), t, p) != Tune(entries, s, p) then 1 else 0)
  {
    hide Tune;
    assert [s, t][..1] == [s] && [s][..0] == [];
    assert TuneAll(entries, [s], p) == Tune(TuneAll(entries, [s][..0], p), s, p);
    assert Writes(entries, [s], p) == Writes(entries, [s][..0], p) + (if Tune(entries, s, p) != entries then 1 else 0);
  }

  /** From an entry of the cluster, a second round of two variants changes nothing in the end. */
  lemma VariantsRound(entries: seq<Entry>, s: Traffic, t: Traffic, p: Params)
    requires Valid(p) && Matchable(s) && Matchable(t) && SameCluster(s, t) && FirstMatch(entries, s) < |entries|
    ensures var i, w := FirstMatch(entries, s), Tuned(Tuned(entries[FirstMatch(entries, s)], s, p), t, p);
            && TuneAll(entries, [s, t], p) == entries[i := w]
            && FirstMatch(entries[i := w], s) == i
  {
    hide Tune, Matchable, SameCluster, Matches, Outcome;
    SameClusterReflexive(s);
    TuneTwo(entries, s, t, p);
    TuneAt(entries, s, s, p);
    TuneAt(Tune(entries, s, p), s, t, p);
  }

  lemma SameClusterReflexive(s: Traffic)
    ensures SameCluster(s, s)
  {
  }

  /** The first iteration of a run leaves the cluster with an entry. */
  lemma FirstHasEntry(entries: seq<Entry>, s: Traffic, p: Params)
    requires Valid(p) && Matchable(s)
    ensures FirstMatch(Tune(entries, s, p), s) < |Tune(entries, s, p)|
  {
    TuneSettles(entries, s, p);
    hide Tune, Matchable, TargetBucket, TargetHedge, BucketMoved, HedgeMoved, Matches;
  }

  /** Two segments that differ only in case: a second run always ends with the entries of the first, but it
      writes nothing on every input if and only if their targets are near. */
  lemma CaseVariantsExactly(s: Traffic, t: Traffic, p: Params)
    requires Valid(p) && Matchable(s) && Matchable(t) && SameCluster(s, t)
    ensures forall entries :: var once := TuneAll(entries, [s, t], p); TuneAll(once, [s, t], p) == once
    ensures (forall entries :: Writes(TuneAll(entries, [s, t], p), [s, t], p) == 0) <==> Near(s, t, p)
  {
    hide TuneAll, Writes, Matchable, SameCluster, Near;
    forall entries ensures TuneAll(TuneAll(entries, [s, t], p), [s, t], p) == TuneAll(entries, [s, t], p) {
      VariantsFixpoint(entries, s, t, p);
    }
    if Near(s, t, p) {
      forall entries ensures Writes(TuneAll(entries, [s, t], p), [s, t], p) == 0 {
        CalibrationFixpointExactly(entries, [s, t], p);
      }
    } else {
      FarVariantsWrite(s, t, p);
    }
  }

  lemma VariantsFixpoint(entries: seq<Entry>, s: Traffic, t: Traffic, p: Params)
    requires Valid(p) && Matchable(s) && Matchable(t) && SameCluster(s, t)
    ensures var once := TuneAll(entries, [s, t], p); TuneAll(once, [s, t], p) == once
  {
    hide Tune, TuneAll, Matchable, SameCluster, Outcome, Matches;
    var mid := Tune(entries, s, p);
    var once := TuneAll(entries, [s, t], p);
    TuneTwo(entries, s, t, p);
    FirstHasEntry(entries, s, p);
    var i := FirstMatch(mid, s);
    TuneAt(mid, s, t, p);
    VariantsRound(once, s, t, p);
    if FirstMatch(entries, s) < |entries| {
      SameClusterReflexive(s);
      TuneAt(entries, s, s, p);
      TwoRoundsAgree(entries[i], s, t, p);
    } else {
      NewIsTuned(entries, s, p);
      TwoRoundsAgree(mid[i], s, t, p);
    }
    assert once[i := once[i]] == once;
  }

  /** A new entry is on target. */
  lemma NewIsTuned(entries: seq<Entry>, s: Traffic, p: Params)
    requires Valid(p) && Matchable(s) && FirstMatch(entries, s) == |entries|
    ensures var mid := Tune(entries, s, p);
            FirstMatch(mid, s) < |mid| && Tuned(mid[FirstMatch(mid, s)], s, p) == mid[FirstMatch(mid, s)]
  {
    TuneOutcome(entries, s, p);
    NearSymmetric(s, s, p);
    hide TargetBucket, TargetHedge, BucketMoved, HedgeMoved, Matches, Tune, Matchable;
  }

  /** An input: starting without entries, far targets are written again on every run. */
  lemma FarVariantsWrite(s: Traffic, t: Traffic, p: Params)
    requires Valid(p) && Matchable(s) && Matchable(t) && SameCluster(s, t) && !Near(s, t, p)
    ensures Writes(TuneAll([], [s, t], p), [s, t], p) > 0
  {
    var mid := Tune([], s, p);
    FirstHasEntry([], s, p);
    NearSymmetric(s, t, p);
    TuneOutcome([], s, p);
    TuneTwo([], s, t, p);
    TuneAt(mid, s, t, p);
    var once := Tune(mid, t, p);
    SameClusterReflexive(s);
    TuneAt(once, s, s, p);
    TuneTwo(once, s, t, p);
    hide TargetBucket, TargetHedge, BucketMoved, HedgeMoved, Matches, Tune, Matchable, TuneAll, Writes, SameCluster;
  }

  // Three variants can make the entries themselves drift from run to run.

  const DRIFT_PARAMS := Params(90, 90, 50.0, 1.0, 1.0, 1)

  function Variant(name: string, volume: int): Traffic {
    Traffic("card", name, None, None, None, None, volume, 2)
  }

  const LOW := Variant("visa", 900)
  const MIDDLE := Variant("Visa", 800)
  const HIGH := Variant("VISA", 750)

  lemma DriftVariants()
    ensures SameCluster(LOW, MIDDLE) && SameCluster(LOW, HIGH)
    ensures Matchable(LOW) && Matchable(MIDDLE) && Matchable(HIGH) && Valid(DRIFT_PARAMS)
  {
    assert Lower("visa") == Lower("Visa") == Lower("VISA") == "visa";
  }

  lemma DriftTarget(name: string, volume: int, percent: real)
    requires volume > 0 && 1.0 <= percent <= 50.0 && percent * volume as real == 9000.0
    requires RoundCents(percent) == percent
    ensures TargetBucket(Variant(name, volume), DRIFT_PARAMS) == 90
    ensures TargetHedge(Variant(name, volume), DRIFT_PARAMS) == percent
  {
    var t := Variant(name, volume);
    TargetInRange(t, DRIFT_PARAMS);
    var v := volume as real;
    assert 90.0 / v == percent / 100.0 by {
      assert 90.0 / v * v == 90.0;
      assert (90.0 / v - percent / 100.0) * v == 0.0;
    }
    assert DRIFT_PARAMS.horizonSecs / DRIFT_PARAMS.lookbackSecs == 1.0;
    assert GatewayShare(90, volume, 2, DRIFT_PARAMS) == percent / 100.0;
  }

  lemma DriftTargets()
    ensures TargetBucket(LOW, DRIFT_PARAMS) == TargetBucket(MIDDLE, DRIFT_PARAMS) == 90
    ensures TargetBucket(HIGH, DRIFT_PARAMS) == 90
    ensures TargetHedge(LOW, DRIFT_PARAMS) == 10.0
    ensures TargetHedge(MIDDLE, DRIFT_PARAMS) == 11.25
    ensures TargetHedge(HIGH, DRIFT_PARAMS) == 12.0
  {
    DriftTarget("visa", 900, 10.0);
    DriftTarget("Visa", 800, 11.25);
    DriftTarget("VISA", 750, 12.0);
  }

  lemma TuneOne(e: Entry, t: Traffic, p: Params)
    requires p.lookbackSecs > 0.0 && Matches(e, t)
    ensures Tune([e], t, p) == [Tuned(e, t, p)]
  {
    hide Matches, TargetBucket, TargetHedge, BucketMoved, HedgeMoved;
    FirstMatchIs([e], t, 0);
  }

  lemma TuneThree(entries: seq<Entry>, s: Traffic, t: Traffic, u: Traffic, p: Params)
    requires p.lookbackSecs > 0.0
    ensures TuneAll(entries, [s, t, u], p) == Tune(Tune(Tune(entries, s, p), t, p), u, p)
  {
    hide Tune;
    assert [s, t, u][..2] == [s, t];
    TuneTwo(entries, s, t, p);
  }

  /** One entry that all three variants match, with its hedging at `h`. */
  function DriftEntry(h: real): Entry {
    NewEntry(LOW, 90, h)
  }

  lemma DriftStep(h: real, t: Traffic, target: real)
    requires Matches(DriftEntry(h), t)
    requires TargetBucket(t, DRIFT_PARAMS) == 90 && TargetHedge(t, DRIFT_PARAMS) == target
    ensures Tune([DriftEntry(h)], t, DRIFT_PARAMS) == [DriftEntry(if -1.0 < h - target < 1.0 then h else target)]
  {
    hide Matches, TargetBucket, TargetHedge, Tune;
    TuneOne(DriftEntry(h), t, DRIFT_PARAMS);
  }

  lemma DriftMatches(h: real)
    ensures Matches(DriftEntry(h), LOW) && Matches(DriftEntry(h), MIDDLE) && Matches(DriftEntry(h), HIGH)
  {
    hide Matches, Matchable, SameCluster, DriftEntry;
    DriftVariants();
    DriftEntryMatches(h);
    SameClusterMatches(DriftEntry(h), LOW, MIDDLE);
    SameClusterMatches(DriftEntry(h), LOW, HIGH);
  }

  lemma DriftEntryMatches(h: real)
    ensures Matches(DriftEntry(h), LOW)
  {
    hide Matches;
    DriftVariants();
    NewEntryMatches(LOW, 90, h);
  }

  lemma DriftRound(h: real)
    ensures var h1 := if -1.0 < h - 10.0 < 1.0 then h else 10.0;
            var h2 := if -1.0 < h1 - 11.25 < 1.0 then h1 else 11.25;
            var h3 := if -1.0 < h2 - 12.0 < 1.0 then h2 else 12.0;
            TuneAll([DriftEntry(h)], [LOW, MIDDLE, HIGH], DRIFT_PARAMS) == [DriftEntry(h3)]
  {
    hide Matches, TargetBucket, TargetHedge, Tune, TuneAll, DriftEntry;
    DriftTargets();
    var h1 := if -1.0 < h - 10.0 < 1.0 then h else 10.0;
    var h2 := if -1.0 < h1 - 11.25 < 1.0 then h1 else 11.25;
    DriftMatches(h);
    DriftMatches(h1);
    DriftMatches(h2);
    DriftStep(h, LOW, 10.0);
    DriftStep(h1, MIDDLE, 11.25);
    DriftStep(h2, HIGH, 12.0);
    TuneThree([DriftEntry(h)], LOW, MIDDLE, HIGH, DRIFT_PARAMS);
  }

  /** An input on which a second run changes the result: three segments that differ only in case, with
      targets of 10, 11.25 and 12 percent, and an entry at 10.5, which the first run leaves at 12 and the
      second at 11.25. */
  lemma ThreeVariantsDrift()
    ensures var ts := [LOW, MIDDLE, HIGH];
            var once := TuneAll([DriftEntry(10.5)], ts, DRIFT_PARAMS);
            && once == [DriftEntry(12.0)]
            && TuneAll(once, ts, DRIFT_PARAMS) == [DriftEntry(11.25)] != once
  {
    hide TuneAll;
    DriftRound(10.5);
    DriftRound(12.0);
  }

  // ---------------------------------------------------------------------------------------------
  // Distance from the target
  // ---------------------------------------------------------------------------------------------

  const WRAP := 0x1_0000_0000

  /** The bucket deadband sees a stored integer only modulo 2^32, and the distance -2^31 not at all. */
  lemma BucketMovedExactly(c: int, target: int)
    requires 0 < target < I32_LIMIT
    ensures !BucketMoved(Some(c), target) <==>
            var d := (c - target) % WRAP;
            d < BUCKET_DEADBAND || d > WRAP - BUCKET_DEADBAND || d == I32_LIMIT
  {
  }

  /** The stored sizes that pass for on target without being within 25 units of it: a nearby size plus a
      non-zero multiple of 2^32, or the target plus an odd multiple of 2^31. */
  predicate Aliases(c: int, target: int) {
    || (c - target) % WRAP == I32_LIMIT
    || ((c - target + 24) / WRAP != 0 && (c - target + 24) % WRAP <= 48)
  }

  lemma AliasesExactly(c: int, target: int)
    requires 0 < target < I32_LIMIT
    ensures Aliases(c, target) <==> !BucketMoved(Some(c), target) && !(-25 < c - target < 25)
    ensures 0 <= c < I32_LIMIT ==> !Aliases(c, target)
  {
    BucketMovedExactly(c, target);
  }

  /** An input for which the deadband fails: such an entry is left as it is, however often it is tuned. */
  lemma AliasedEntryStays(t: Traffic, p: Params, size: int)
    requires Valid(p) && Matchable(t)
    requires size == TargetBucket(t, p) + WRAP || size == TargetBucket(t, p) - I32_LIMIT
    ensures var e := NewEntry(t, size, TargetHedge(t, p));
            && TuneAll([e], [t], p) == [e]
            && FirstEntry([e], t) == Some(e) && e.source == Some(AUTOPILOT)
            && !(-25 < size - TargetBucket(t, p) < 25)
  {
    var bucket, hedge := TargetBucket(t, p), TargetHedge(t, p);
    TargetInRange(t, p);
    NewEntryMatches(t, size, hedge);
    BucketMovedExactly(size, bucket);
    OnTargetIsStill(bucket, hedge);
    hide TargetBucket, TargetHedge, BucketMoved, HedgeMoved, Matches;
    var e := NewEntry(t, size, hedge);
    assert [t][..0] == [];
    assert TuneAll([e], [t][..0], p) == [e];
  }

  /** After a run every segment has an entry, and an autopilot entry is within one percentage point of its
      segment's target. It is within 25 bucket units if and only if, going in, the segment had no entry,
      or one that lacked a size, or one whose hedging had moved, or one whose size is not an alias of the
      target. In particular it is when every autopilot entry going in stores a non-negative i32. */
  lemma ManagedEntriesOnTarget(entries: seq<Entry>, ts: seq<Traffic>, p: Params, s: Traffic)
    requires Valid(p) && PairwiseDistinct(ts) && (forall t :: t in ts ==> Matchable(t)) && s in ts
    ensures var first, after := FirstEntry(entries, s), FirstEntry(TuneAll(entries, ts, p), s);
            && after.Some?
            && (after.value.source == Some(AUTOPILOT) ==>
                && after.value.bucketSize.Some? && after.value.hedgingPercent.Some?
                && -1.0 < after.value.hedgingPercent.value - TargetHedge(s, p) < 1.0
                && (-25 < after.value.bucketSize.value - TargetBucket(s, p) < 25 <==>
                    first.None? || first.value.bucketSize.None?
                    || HedgeMoved(first.value.hedgingPercent, TargetHedge(s, p))
                    || !Aliases(first.value.bucketSize.value, TargetBucket(s, p)))
                && ((forall e :: e in entries && e.source == Some(AUTOPILOT) && e.bucketSize.Some? ==>
                       0 <= e.bucketSize.value < I32_LIMIT) ==>
                    -25 < after.value.bucketSize.value - TargetBucket(s, p) < 25))
  {
    var bucket := TargetBucket(s, p);
    RunOutcome(entries, ts, p, s);
    TargetInRange(s, p);
    OnTargetIsStill(bucket, TargetHedge(s, p));
    var first := FirstEntry(entries, s);
    if first.Some? && first.value.bucketSize.Some? {
      AliasesExactly(first.value.bucketSize.value, bucket);
    }
    hide TuneAll, TargetBucket, TargetHedge, Matches, BucketMoved, Aliases, PairwiseDistinct, Matchable;
  }

  // ---------------------------------------------------------------------------------------------
  // The loop
  // ---------------------------------------------------------------------------------------------

  predicate Qualifies(t: Traffic, p: Params) {
    t.volume >= p.minVolume && t.gateways >= 2
  }

  function Qualifying(ts: seq<Traffic>, p: Params): seq<Traffic> {
    if ts == [] then []
    else Qualifying(ts[..|ts| - 1], p) + (if Qualifies(ts[|ts| - 1], p) then [ts[|ts| - 1]] else [])
  }

  lemma {:induction false} QualifyingConcat(xs: seq<Traffic>, ys: seq<Traffic>, p: Params)
    ensures Qualifying(xs + ys, p) == Qualifying(xs, p) + Qualifying(ys, p)
    decreases |ys|
  {
    hide Qualifies;
    if ys == [] {
      assert xs + ys == xs;
    } else {
      QualifyingConcat(xs, ys[..|ys| - 1], p);
      assert (xs + ys)[..|xs + ys| - 1] == xs + ys[..|ys| - 1];
    }
  }

  /** Filtering in order: of the segments exactly those with enough volume and two gateways remain. */
  lemma QualifyingSpec(xs: seq<Traffic>, t: Traffic, ys: seq<Traffic>, p: Params)
    ensures Qualifying(xs + [t] + ys, p) ==
            Qualifying(xs, p) + (if t.volume >= p.minVolume && t.gateways >= 2 then [t] else []) + Qualifying(ys, p)
  {
    QualifyingConcat(xs + [t], ys, p);
    QualifyingConcat(xs, [t], p);
    assert [t][..0] == [];
  }

  /** The segments with enough volume and two gateways. */
  function Busy(traffic: seq<Traffic>, p: Params): set<Traffic> {
    set t | t in traffic && t.volume >= p.minVolume && t.gateways >= 2
  }

  lemma {:induction false} QualifyingMembers(ts: seq<Traffic>, p: Params)
    ensures forall t :: t in Qualifying(ts, p) <==> t in Busy(ts, p)
  {
    if ts != [] {
      assert ts == ts[..|ts| - 1] + [ts[|ts| - 1]];
      QualifyingMembers(ts[..|ts| - 1], p);
    }
  }

  /** A match is never lost: entries differ only in their knobs and at the end of the list. */
  lemma MatchStays(before: seq<Entry>, after: seq<Entry>, t: Traffic)
    requires Respects(before, after)
    ensures |before| <= |after|
    ensures FirstMatch(before, t) < |before| ==> FirstMatch(after, t) == FirstMatch(before, t)
    ensures FirstMatch(after, t) < |before| ==> FirstMatch(before, t) == FirstMatch(after, t)
  {
    hide DimMatches;
    assert forall k :: 0 <= k < |before| ==> (Matches(after[k], t) <==> Matches(before[k], t));
    var i, j := FirstMatch(before, t), FirstMatch(after, t);
    if i < |before| {
      FirstMatchIs(after, t, i);
    }
    if j < |before| {
      FirstMatchIs(before, t, j);
    }
  }

  /** The entry was written for this segment. */
  predicate WrittenFor(e: Entry, t: Traffic) {
    && e.methodType == Some(t.methodType) && e.method_ == Some(t.method_) && e.cardNetwork == t.cardNetwork
    && e.cardIsIn == None && e.currency == t.currency && e.country == t.country && e.authType == t.authType
    && e.source == Some("autopilot") && e.bucketSize.Some? && e.hedgingPercent.Some?
  }

  ghost predicate WrittenForOne(e: Entry, ts: set<Traffic>) {
    exists t :: t in ts && WrittenFor(e, t)
  }

  ghost predicate ManagesOne(entries: seq<Entry>, i: nat, ts: set<Traffic>) {
    exists t :: t in ts && FirstMatch(entries, t) == i
  }

  /** Each matchable segment has an entry, and each entry changed or added is the first match of one of the
      segments, or was written for one. */
  ghost predicate TouchesOnly(entries: seq<Entry>, after: seq<Entry>, ts: set<Traffic>) {
    && |entries| <= |after|
    && (forall t :: t in ts && Matchable(t) ==> FirstMatch(after, t) < |after|)
    && (forall i :: 0 <= i < |entries| ==> after[i] == entries[i] || ManagesOne(entries, i, ts))
    && (forall i :: |entries| <= i < |after| ==> WrittenForOne(after[i], ts))
  }

  lemma {:induction false} RunTouchesOnlyItsOwn(entries: seq<Entry>, ts: seq<Traffic>, p: Params)
    requires Valid(p)
    ensures TouchesOnly(entries, TuneAll(entries, ts, p), set t | t in ts)
  {
    hide Tune, TargetBucket, TargetHedge, BucketMoved, HedgeMoved, Matches, Matchable, WrittenFor, Respects, FirstMatch;
    if ts != [] {
      var init, t := ts[..|ts| - 1], ts[|ts| - 1];
      assert ts == init + [t];
      var few, all := set s | s in init, set s | s in ts;
      var mid, after := TuneAll(entries, init, p), TuneAll(entries, ts, p);
      RunTouchesOnlyItsOwn(entries, init, p);
      HumanEntriesUntouched(entries, init, p);
      TuneTouchesOne(mid, t, p);
      MatchStays(entries, mid, t);
      MatchStays(mid, after, t);
      assert t in all;
      forall i | 0 <= i < |entries| && after[i] != entries[i] ensures ManagesOne(entries, i, all) {
        if mid[i] != entries[i] {
          assert ManagesOne(entries, i, few);
        }
      }
      forall i | |entries| <= i < |after| ensures WrittenForOne(after[i], all) {
        if i < |mid| {
          assert WrittenForOne(mid[i], few);
          var s :| s in few && WrittenFor(mid[i], s);
          assert WrittenFor(after[i], s);
        }
      }
      forall s | s in all && Matchable(s) ensures FirstMatch(after, s) < |after| {
        if s == t {
          TuneSettlesFirst(mid, t, p);
        } else {
          assert s in few;
          MatchStays(mid, after, s);
        }
      }
    }
  }

  lemma TuneSettlesFirst(entries: seq<Entry>, t: Traffic, p: Params)
    requires Valid(p) && Matchable(t)
    ensures FirstMatch(Tune(entries, t, p), t) < |Tune(entries, t, p)|
  {
    FirstHasEntry(entries, t, p);
  }

  /** One iteration changes the first match of its segment, or adds an entry for it, or does nothing. */
  lemma TuneTouchesOne(entries: seq<Entry>, t: Traffic, p: Params)
    requires p.lookbackSecs > 0.0
    ensures var after := Tune(entries, t, p);
            && Respects(entries, after)
            && (forall i :: 0 <= i < |entries| && i != FirstMatch(entries, t) ==> after[i] == entries[i])
            && (forall i :: |entries| <= i < |after| ==> WrittenFor(after[i], t))
            && (forall i, s :: 0 <= i < |entries| && WrittenFor(entries[i], s) ==> WrittenFor(after[i], s))
  {
    hide TargetBucket, TargetHedge, BucketMoved, HedgeMoved, Matches;
  }

  /** Over the whole traffic: thin segments and those with one gateway touch nothing. */
  lemma TrafficRun(entries: seq<Entry>, traffic: seq<Traffic>, p: Params)
    requires Valid(p)
    ensures Qualifying(traffic, p) == [] <==> Busy(traffic, p) == {}
    ensures TouchesOnly(entries, TuneAll(entries, Qualifying(traffic, p), p), Busy(traffic, p))
  {
    hide TuneAll, Qualifying, TouchesOnly, Busy;
    var qualifying := Qualifying(traffic, p);
    QualifyingMembers(traffic, p);
    assert qualifying != [] ==> qualifying[0] in Busy(traffic, p);
    RunTouchesOnlyItsOwn(entries, qualifying, p);
    assert (set t | t in qualifying) == Busy(traffic, p);
  }

  /** `calibrate_merchant`: `None` is the "no segment with enough volume" error; otherwise the new
      entries, and whether the config is written at all. */
  method CalibrateMerchant(traffic: seq<Traffic>, existing: seq<Entry>, p: Params)
    returns (r: Option<(seq<Entry>, bool)>)
    requires Valid(p)
    ensures r.None? <==> Busy(traffic, p) == {}
    ensures r.Some? ==> TouchesOnly(existing, r.value.0, Busy(traffic, p))
    ensures r.Some? ==> r.value.0 == TuneAll(existing, Qualifying(traffic, p), p)
    ensures r.Some? ==> (r.value.1 <==> Writes(existing, Qualifying(traffic, p), p) > 0)
    ensures r.Some? && !r.value.1 ==> r.value.0 == existing
  {
    hide TargetBucket, TargetHedge, BucketMoved, HedgeMoved, Matches, TouchesOnly, Busy, TuneAll, Writes, Qualifying;
    var qualifying := Qualifying(traffic, p);
    TrafficRun(existing, traffic, p);
    if qualifying == [] {
      return None;
    }
    var entries := existing;
    var changed := 0;
    NoRun(existing, p);
    assert qualifying[..0] == [];
    for i := 0 to |qualifying|
      invariant entries == TuneAll(existing, qualifying[..i], p)
      invariant changed == Writes(existing, qualifying[..i], p)
    {
      var t := qualifying[i];
      RunStep(existing, qualifying, p, i);
      var bucket := AutoBucket(t.volume, t.gateways, p);
      var hedge := AutoHedge(bucket, t.volume, t.gateways, p);
      assert bucket == TargetBucket(t, p) && hedge == TargetHedge(t, p) by { Targets(t, p); }
      var at := FirstMatch(entries, t);
      if at < |entries| {
        if entries[at].source == Some(AUTOPILOT) &&
           (BucketMoved(entries[at].bucketSize, bucket) || HedgeMoved(entries[at].hedgingPercent, hedge)) {
          TargetInRange(t, p);
          RewriteChanges(entries[at], bucket, hedge);
          entries := entries[at := entries[at].(bucketSize := Some(bucket), hedgingPercent := Some(hedge))];
          changed := changed + 1;
        }
      } else {
        entries := entries + [NewEntry(t, bucket, hedge)];
        changed := changed + 1;
      }
    }
    assert qualifying[..|qualifying|] == qualifying;
    NoWritesIsStill(existing, qualifying, p);
    return Some((entries, changed != 0));
  }

  lemma NoRun(entries: seq<Entry>, p: Params)
    requires p.lookbackSecs > 0.0
    ensures TuneAll(entries, [], p) == entries && Writes(entries, [], p) == 0
  {
  }

  lemma RunStep(entries: seq<Entry>, ts: seq<Traffic>, p: Params, i: nat)
    requires p.lookbackSecs > 0.0 && i < |ts|
    ensures TuneAll(entries, ts[..i + 1], p) == Tune(TuneAll(entries, ts[..i], p), ts[i], p)
    ensures var before := TuneAll(entries, ts[..i], p);
            Writes(entries, ts[..i + 1], p) ==
              Writes(entries, ts[..i], p) + (if Tune(before, ts[i], p) != before then 1 else 0)
  {
    hide Tune;
    assert ts[..i + 1][..i] == ts[..i];
  }

  /** An entry that is rewritten does change. */
  lemma RewriteChanges(e: Entry, bucket: int, hedge: real)
    requires 0 <= bucket < I32_LIMIT && (BucketMoved(e.bucketSize, bucket) || HedgeMoved(e.hedgingPercent, hedge))
    ensures e.(bucketSize := Some(bucket), hedgingPercent := Some(hedge)) != e
  {
    OnTargetIsStill(bucket, hedge);
  }

  lemma Targets(t: Traffic, p: Params)
    requires p.lookbackSecs > 0.0
    ensures AutoBucket(t.volume, t.gateways, p) == TargetBucket(t, p)
    ensures AutoHedge(TargetBucket(t, p), t.volume, t.gateways, p) == TargetHedge(t, p)
  {
  }
}
