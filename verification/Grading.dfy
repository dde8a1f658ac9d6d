/**
 The reliability grade of `src/cost_ingestion/segment.rs`: how a fitted piece is judged on its
 proportional regime, and the gate that decides whether a cluster is segmented at all.
 */
module Grading {
  import opened Options
  import opened Sequences
  import opened SufficientStats
  import opened LeastSquares

  /** The statistics of one log-amount band of a cluster. */
  datatype Band = Band(index: int, stats: SuffStats)

  /** `scale(k)` is the lower amount bound of band `k`, so band `k` spans `[scale(k), scale(k + 1))`. */
  type AmountScale = int -> real

  ghost predicate Ascending(bands: seq<Band>) {
    forall i, j :: 0 <= i < j < |bands| ==> bands[i].index < bands[j].index
  }

  ghost predicate IsAmountScale(scale: AmountScale) {
    && (forall k :: 0.0 < scale(k))
    && (forall j, k :: j < k ==> scale(j) < scale(k))
  }

  datatype Verdict = Good | Thin | NonLinear

  const MIN_N := 200.0
  const SEG_FLOOR := 25.0
  /** The square of `MAX_BPS` and of `L2_MAX_PCT_BPS_CI`, both 15 bps. */
  const MAX_BPS_SQUARED := 225.0
  /** The square of the normal quantile 1.96. */
  const Z_SQUARED := 3.8416

  function SumBands(bands: seq<Band>): SuffStats {
    if bands == [] then ZERO else SumBands(bands[..|bands| - 1]).Plus(bands[|bands| - 1].stats)
  }

  /** The amount where the flat fee equals the proportional fee, 0 without a positive fixed fee. */
  function Crossover(slope: real, intercept: real): real {
    if slope <= 0.0 || intercept <= 0.0 then 0.0 else intercept / slope
  }

  /** The statistics of the bands entirely below `astar`, and of the others. */
  function SplitRegime(scale: AmountScale, bands: seq<Band>, astar: real): (SuffStats, SuffStats) {
    if bands == [] then (ZERO, ZERO)
    else
      var (below, above) := SplitRegime(scale, bands[..|bands| - 1], astar);
      var band := bands[|bands| - 1];
      if scale(band.index + 1) <= astar then (below.Plus(band.stats), above)
      else (below, above.Plus(band.stats))
  }

  /** The square of `prop_bps`; `None` is NaN. */
  function PropBpsSquared(scale: AmountScale, bands: seq<Band>, slope: real, intercept: real): Option<real> {
    var astar := Crossover(slope, intercept);
    var (below, above) := SplitRegime(scale, bands, astar);
    if above.n > 0.0 then Some(BpsSquared(intercept, slope, above))
    else if below.n > 0.0 && astar > 0.0 then
      Some(Max0(AbsoluteQ(intercept, slope, below)) / below.n / Square(astar) * 100000000.0)
    else None
  }

  /** The proportional-regime error exists and is at most 15 bps. */
  predicate Accurate(scale: AmountScale, bands: seq<Band>, slope: real, intercept: real) {
    var b := PropBpsSquared(scale, bands, slope, intercept);
    b.Some? && b.value <= MAX_BPS_SQUARED
  }

  /** `1.96 * se <= 15`, squared; the standard error is infinite when `n <= 2`. */
  predicate SlopePinned(s: SuffStats, slope: real, intercept: real)
    requires Denom(s) > 0.0
  {
    s.n > 2.0 &&
    Z_SQUARED * (Max0(SlopeSse(intercept, slope, s)) / (s.n - 2.0) * s.n / Denom(s) * 100000000.0)
      <= MAX_BPS_SQUARED
  }

  /** `grade_seg` */
  function Grade(scale: AmountScale, s: SuffStats, bands: seq<Band>): Verdict {
    if s.n < SEG_FLOOR then Thin
    else
      match Fit(s)
      case NoLine => NonLinear
      case Line(slope, intercept) =>
        if !Accurate(scale, bands, slope, intercept) then NonLinear
        else if s.n >= MIN_N then Good
        else if SlopePinned(s, slope, intercept) then Good
        else Thin
  }

  /** `whole_cluster_verdict` */
  function WholeVerdict(scale: AmountScale, bands: seq<Band>): Verdict {
    var whole := SumBands(bands);
    if whole.n < MIN_N then Thin
    else
      match Fit(whole)
      case NoLine => NonLinear
      case Line(slope, intercept) =>
        if Accurate(scale, bands, slope, intercept) then Good else NonLinear
  }

  /** A cluster the gate calls Good also gets a Good grade as one uncut piece, and the other way round
      from the strong sample gate upwards. */
  lemma GateAgreesWithGrade(scale: AmountScale, bands: seq<Band>)
    ensures WholeVerdict(scale, bands).Good?
       <==> SumBands(bands).n >= MIN_N && Grade(scale, SumBands(bands), bands).Good?
  {
  }

  lemma {:induction false} SumBandsConcat(xs: seq<Band>, ys: seq<Band>)
    ensures SumBands(xs + ys) == SumBands(xs).Plus(SumBands(ys))
    decreases |ys|
  {
    if ys == [] {
      assert xs + ys == xs;
    } else {
      SumBandsConcat(xs, ys[..|ys| - 1]);
      assert (xs + ys)[..|xs + ys| - 1] == xs + ys[..|ys| - 1];
    }
  }

  /** The two regimes partition the bands, so they add up to the whole. */
  lemma {:induction false} RegimesAddUp(scale: AmountScale, bands: seq<Band>, astar: real)
    ensures var (below, above) := SplitRegime(scale, bands, astar);
            below.Plus(above) == SumBands(bands)
  {
    if bands != [] {
      RegimesAddUp(scale, bands[..|bands| - 1], astar);
    }
  }

  // ---------------------------------------------------------------------------------------------
  // Bands that come from transactions
  // ---------------------------------------------------------------------------------------------

  /** Each band holds the sums of its own group of transactions. */
  ghost predicate FoldedFrom(bands: seq<Band>, groups: seq<seq<Charge>>) {
    && |bands| == |groups|
    && forall i :: 0 <= i < |bands| ==> bands[i].stats == Fold(groups[i])
  }

  lemma {:induction false} SumBandsIsFold(bands: seq<Band>, groups: seq<seq<Charge>>)
    requires FoldedFrom(bands, groups)
    ensures SumBands(bands) == Fold(Flatten(groups))
  {
    if bands != [] {
      var k := |bands| - 1;
      SumBandsIsFold(bands[..k], groups[..k]);
      FoldConcat(Flatten(groups[..k]), groups[k]);
    }
  }

  /** Every band's transactions lie on the line. */
  ghost predicate BandsOnLine(bands: seq<Band>, groups: seq<seq<Charge>>, a: real, b: real) {
    && FoldedFrom(bands, groups)
    && forall i :: 0 <= i < |groups| ==> OnLine(groups[i], a, b)
  }

  ghost predicate NoResidual(s: SuffStats, a: real, b: real) {
    ProportionalQ(a, b, s) == 0.0 && AbsoluteQ(a, b, s) == 0.0
  }

  lemma NoResidualAtAll(a: real, b: real)
    ensures NoResidual(ZERO, a, b)
  {
  }

  lemma OnLineNoResidual(txs: seq<Charge>, a: real, b: real)
    requires OnLine(txs, a, b)
    ensures NoResidual(Fold(txs), a, b)
  {
    ProportionalQIsRelativeError(txs, a, b);
    AbsoluteQIsSquaredError(txs, a, b);
    ErrorsNonNegative(txs, a, b);
  }

  lemma NoResidualPlus(s: SuffStats, o: SuffStats, a: real, b: real)
    requires NoResidual(s, a, b) && NoResidual(o, a, b)
    ensures NoResidual(s.Plus(o), a, b)
  {
    ProportionalQAdditive(a, b, s, o);
    AbsoluteQAdditive(a, b, s, o);
    hide ProportionalQ, AbsoluteQ, SuffStats.Plus;
  }

  lemma {:induction false} RegimesNoResidual(
    scale: AmountScale, bands: seq<Band>, groups: seq<seq<Charge>>, a: real, b: real, astar: real)
    requires BandsOnLine(bands, groups, a, b)
    ensures var (below, above) := SplitRegime(scale, bands, astar);
            NoResidual(below, a, b) && NoResidual(above, a, b)
  {
    if bands != [] {
      var k := |bands| - 1;
      RegimesNoResidual(scale, bands[..k], groups[..k], a, b, astar);
      OnLineNoResidual(groups[k], a, b);
      var (below, above) := SplitRegime(scale, bands[..k], astar);
      NoResidualPlus(below, bands[k].stats, a, b);
      NoResidualPlus(above, bands[k].stats, a, b);
      hide NoResidual, SuffStats.Plus, OnLine;
    }
  }

  /** Without a positive fixed fee no band is below the crossover. */
  lemma {:induction false} NothingBelowZero(scale: AmountScale, bands: seq<Band>)
    requires IsAmountScale(scale)
    ensures SplitRegime(scale, bands, 0.0).0 == ZERO
  {
    if bands != [] {
      NothingBelowZero(scale, bands[..|bands| - 1]);
    }
  }

  /** Bands on a common line have no proportional-regime error at all. */
  lemma ExactLineIsAccurate(
    scale: AmountScale, bands: seq<Band>, groups: seq<seq<Charge>>, a: real, b: real)
    requires IsAmountScale(scale) && BandsOnLine(bands, groups, a, b) && SumBands(bands).n > 0.0
    ensures PropBpsSquared(scale, bands, b, a) == Some(0.0)
    ensures Accurate(scale, bands, b, a)
  {
    var astar := Crossover(b, a);
    RegimesNoResidual(scale, bands, groups, a, b, astar);
    RegimesAddUp(scale, bands, astar);
    NothingBelowZero(scale, bands);
    var (below, above) := SplitRegime(scale, bands, astar);
    if above.n > 0.0 {
      ZeroScaled(above.n);
    } else {
      assert below.n > 0.0;
      assert astar != 0.0;
      if b > 0.0 && a > 0.0 {
        DivisionCancels(a, b);
        assert astar > 0.0;
      }
      SquareSign(astar);
      ZeroScaled(below.n);
      ZeroScaled(Square(astar));
    }
    hide ProportionalQ, AbsoluteQ, SplitRegime, Square;
  }

  lemma ZeroScaled(d: real)
    requires d != 0.0
    ensures 0.0 / d == 0.0
  {
  }

  lemma {:induction false} SumNoResidual(bands: seq<Band>, groups: seq<seq<Charge>>, a: real, b: real)
    requires BandsOnLine(bands, groups, a, b)
    ensures NoResidual(SumBands(bands), a, b)
  {
    if bands != [] {
      var k := |bands| - 1;
      SumNoResidual(bands[..k], groups[..k], a, b);
      OnLineNoResidual(groups[k], a, b);
      NoResidualPlus(SumBands(bands[..k]), bands[k].stats, a, b);
      hide NoResidual, SuffStats.Plus, OnLine;
    }
  }

  lemma ExactSlopeIsPinned(s: SuffStats, slope: real, intercept: real)
    requires Fit(s) == Line(slope, intercept) && s.n > 2.0 && AbsoluteQ(intercept, slope, s) == 0.0
    ensures SlopePinned(s, slope, intercept)
  {
    NormalEquations(s);
    ShortSse(s, intercept, slope);
    ZeroScaled(s.n - 2.0);
    ZeroScaled(Denom(s));
    hide AbsoluteQ, SlopeSse, Denom;
  }

  /** A piece whose transactions lie on one line, with enough samples and some amount spread, is Good. */
  lemma ExactPieceIsGood(
    scale: AmountScale, bands: seq<Band>, groups: seq<seq<Charge>>, a: real, b: real)
    requires IsAmountScale(scale) && BandsOnLine(bands, groups, a, b)
    requires SumBands(bands).n >= SEG_FLOOR && Fit(SumBands(bands)) == Line(b, a)
    ensures Grade(scale, SumBands(bands), bands).Good?
  {
    hide Accurate, SlopePinned, SumBands, AbsoluteQ, ProportionalQ, IsAmountScale, BandsOnLine, SplitRegime;
    ExactLineIsAccurate(scale, bands, groups, a, b);
    SumNoResidual(bands, groups, a, b);
    ExactSlopeIsPinned(SumBands(bands), b, a);
  }

  /** A piece fitted with no relative error lies on its line, band by band. */
  lemma {:induction false} NoErrorMeansOnLine(bands: seq<Band>, groups: seq<seq<Charge>>, a: real, b: real)
    requires FoldedFrom(bands, groups)
    ensures ProportionalQ(a, b, SumBands(bands)) >= 0.0
    ensures ProportionalQ(a, b, SumBands(bands)) == 0.0 ==> BandsOnLine(bands, groups, a, b)
  {
    if bands == [] {
      NoResidualAtAll(a, b);
    } else {
      hide ProportionalQ, SuffStats.Plus, OnLine, Fold, RelativeError, SquaredError;
      var k := |bands| - 1;
      NoErrorMeansOnLine(bands[..k], groups[..k], a, b);
      ProportionalQAdditive(a, b, SumBands(bands[..k]), bands[k].stats);
      ProportionalQIsRelativeError(groups[k], a, b);
      ErrorsNonNegative(groups[k], a, b);
    }
  }

  // ---------------------------------------------------------------------------------------------
  // What a GOOD verdict says about the transactions
  // ---------------------------------------------------------------------------------------------

  /** The transactions of the bands that are (`below`) or are not (otherwise) under the crossover. */
  ghost function RegimeTxs(
    scale: AmountScale, bands: seq<Band>, groups: seq<seq<Charge>>, astar: real, below: bool): seq<Charge>
    requires |bands| == |groups|
  {
    if bands == [] then []
    else
      var k := |bands| - 1;
      RegimeTxs(scale, bands[..k], groups[..k], astar, below)
        + (if (scale(bands[k].index + 1) <= astar) == below then groups[k] else [])
  }

  lemma {:induction false} RegimesAreFolds(
    scale: AmountScale, bands: seq<Band>, groups: seq<seq<Charge>>, astar: real)
    requires FoldedFrom(bands, groups)
    ensures SplitRegime(scale, bands, astar).0 == Fold(RegimeTxs(scale, bands, groups, astar, true))
    ensures SplitRegime(scale, bands, astar).1 == Fold(RegimeTxs(scale, bands, groups, astar, false))
  {
    hide Fold, SuffStats.Plus;
    if bands == [] {
      FoldNothing();
    } else {
      var k := |bands| - 1;
      RegimesAreFolds(scale, bands[..k], groups[..k], astar);
      var lo := RegimeTxs(scale, bands[..k], groups[..k], astar, true);
      var hi := RegimeTxs(scale, bands[..k], groups[..k], astar, false);
      FoldConcat(lo, groups[k]);
      FoldConcat(hi, groups[k]);
      assert lo + [] == lo && hi + [] == hi;
    }
  }

  /** The amount where the flat fee equals the proportional fee, 0 unless both are positive. */
  ghost predicate IsCrossover(astar: real, slope: real, intercept: real) {
    if slope > 0.0 && intercept > 0.0 then slope * astar == intercept else astar == 0.0
  }

  lemma CrossoverMeaning(astar: real, slope: real, intercept: real)
    ensures IsCrossover(astar, slope, intercept) <==> astar == Crossover(slope, intercept)
  {
    if slope > 0.0 && intercept > 0.0 {
      DivisionCancels(intercept, slope);
      if slope * astar == intercept {
        SameProduct(slope, astar, Crossover(slope, intercept));
      }
    }
  }

  lemma SameProduct(k: real, x: real, y: real)
    requires k > 0.0 && k * x == k * y
    ensures x == y
  {
    assert k * (x - y) == 0.0;
  }

  /** The accuracy test on transactions: the mean squared relative error above the crossover, or, when
      nothing lies above it, the mean squared absolute error relative to the crossover, is at most
      (15 bps)^2. */
  ghost predicate AccurateOn(above: seq<Charge>, below: seq<Charge>, astar: real, a: real, b: real) {
    if above != [] then 100000000.0 * RelativeError(above, a, b) <= 225.0 * |above| as real
    else
      && below != [] && astar > 0.0
      && 100000000.0 * SquaredError(below, a, b) <= 225.0 * (|below| as real * Square(astar))
  }

  lemma ScaleAtMost(y: real, w: real, cap: real)
    requires w > 0.0
    ensures y <= cap <==> y * w <= cap * w
  {
    if y <= cap {
      assert (cap - y) * w >= 0.0;
    } else {
      assert (y - cap) * w > 0.0;
    }
  }

  lemma MeanAtMost(x: real, n: real)
    requires n > 0.0
    ensures x / n * 100000000.0 <= MAX_BPS_SQUARED <==> 100000000.0 * x <= 225.0 * n
  {
    DivisionCancels(x, n);
    ScaleAtMost(x / n * 100000000.0, n, MAX_BPS_SQUARED);
    assert x / n * 100000000.0 * n == 100000000.0 * (x / n * n);
  }

  lemma MeanOfRatioAtMost(x: real, n: real, d: real)
    requires n > 0.0 && d > 0.0
    ensures x / n / d * 100000000.0 <= MAX_BPS_SQUARED <==> 100000000.0 * x <= 225.0 * (n * d)
  {
    ProductPositive(n, d, n * d);
    QuotientProduct(x, n, 1.0, d);
    assert x / n * 1.0 == x / n;
    var q := x / n / d;
    ScaleAtMost(q * 100000000.0, n * d, MAX_BPS_SQUARED);
    assert q * 100000000.0 * (n * d) == 100000000.0 * (q * (n * d));
  }

  lemma QuotientProduct(e: real, m: real, n: real, d: real)
    requires m > 0.0 && d > 0.0
    ensures e / m * n / d * (m * d) == e * n
  {
    DivisionCancels(e, m);
    DivisionCancels(e / m * n, d);
    CancelBoth(e / m * n / d, d, e / m, n, m, e);
  }

  lemma CancelBoth(q: real, d: real, r: real, n: real, m: real, e: real)
    requires q * d == r * n && r * m == e
    ensures q * (m * d) == e * n
  {
    assert q * (m * d) == (q * d) * m;
    assert (r * n) * m == (r * m) * n;
  }

  lemma AccurateMeaning(
    scale: AmountScale, bands: seq<Band>, groups: seq<seq<Charge>>, a: real, b: real)
    requires FoldedFrom(bands, groups)
    ensures var astar := Crossover(b, a);
            Accurate(scale, bands, b, a) <==>
            AccurateOn(RegimeTxs(scale, bands, groups, astar, false),
                       RegimeTxs(scale, bands, groups, astar, true), astar, a, b)
  {
    hide Fold, SplitRegime, Square, RelativeError, SquaredError, ProportionalQ, AbsoluteQ, RegimeTxs, Crossover;
    var astar := Crossover(b, a);
    var above := RegimeTxs(scale, bands, groups, astar, false);
    var below := RegimeTxs(scale, bands, groups, astar, true);
    RegimesAreFolds(scale, bands, groups, astar);
    FoldCount(above);
    FoldCount(below);
    ErrorsNonNegative(above, a, b);
    ErrorsNonNegative(below, a, b);
    ProportionalQIsRelativeError(above, a, b);
    AbsoluteQIsSquaredError(below, a, b);
    if above != [] {
      var e, n := RelativeError(above, a, b), |above| as real;
      assert PropBpsSquared(scale, bands, b, a) == Some(e / n * 100000000.0);
      MeanAtMost(e, n);
    } else if below != [] && astar > 0.0 {
      SquareSign(astar);
      var e, n, d := SquaredError(below, a, b), |below| as real, Square(astar);
      assert PropBpsSquared(scale, bands, b, a) == Some(e / n / d * 100000000.0);
      MeanOfRatioAtMost(e, n, d);
    }
  }

  /** The slope test on transactions: 1.96 standard errors of the slope are at most 15 bps, where the squared
      error is the residual variance over the spread of the amounts around their mean. */
  ghost predicate PinnedOn(txs: seq<Charge>, a: real, b: real) {
    |txs| > 2 && PinnedBy(SquaredError(txs, a, b), |txs| as real, Spread(txs, Mean(txs)))
  }

  ghost function Mean(txs: seq<Charge>): real
    requires txs != []
  {
    SumOf(txs, (t: Charge) => t.amount) / |txs| as real
  }

  predicate PinnedBy(error: real, n: real, spread: real) {
    100000000.0 * 3.8416 * error <= 225.0 * ((n - 2.0) * spread)
  }

  lemma MeanIs(txs: seq<Charge>)
    requires txs != []
    ensures Fold(txs).n == |txs| as real && Mean(txs) * Fold(txs).n == Fold(txs).sx
  {
    hide Fold, SumOf;
    FoldSums(txs);
    DivisionCancels(SumOf(txs, (t: Charge) => t.amount), |txs| as real);
  }

  /** `n` times the spread around the mean is the denominator of the line. */
  lemma DenomIsSpread(txs: seq<Charge>)
    requires txs != []
    ensures Denom(Fold(txs)) == |txs| as real * Spread(txs, Mean(txs))
  {
    hide Fold, SumOf, Spread, Mean, Denom, SpreadOfSums;
    MeanIs(txs);
    SpreadFromSums(txs, Mean(txs));
    SpreadAroundMean(Fold(txs), Mean(txs));
  }

  lemma SpreadAroundMean(s: SuffStats, mean: real)
    requires mean * s.n == s.sx
    ensures Denom(s) == s.n * SpreadOfSums(s, mean)
  {
    assert s.n * (2.0 * mean * s.sx) == 2.0 * ((mean * s.n) * s.sx);
    assert s.n * (s.n * (mean * mean)) == (mean * s.n) * (mean * s.n);
  }

  predicate PinnedProduct(e: real, n: real, d: real) {
    Z_SQUARED * 100000000.0 * e * n <= 225.0 * ((n - 2.0) * d)
  }

  lemma PinnedScaled(e: real, n: real, d: real)
    requires n > 2.0 && d > 0.0
    ensures Z_SQUARED * (e / (n - 2.0) * n / d * 100000000.0) <= MAX_BPS_SQUARED
       <==> PinnedProduct(e, n, d)
  {
    var m := n - 2.0;
    ProductPositive(m, d, m * d);
    QuotientProduct(e, m, n, d);
    var q := e / m * n / d;
    ScaleAtMost(Z_SQUARED * (q * 100000000.0), m * d, MAX_BPS_SQUARED);
    assert Z_SQUARED * (q * 100000000.0) * (m * d) == Z_SQUARED * 100000000.0 * (q * (m * d));
  }

  lemma PinnedMeaning(txs: seq<Charge>)
    requires Fit(Fold(txs)).Line?
    ensures var f := Fit(Fold(txs));
            SlopePinned(Fold(txs), f.slope, f.intercept) <==> PinnedOn(txs, f.intercept, f.slope)
  {
    var f := Fit(Fold(txs));
    FitGivesDenom(Fold(txs));
    hide Fold, Fit, SlopeSse, SquaredError, Denom, Spread, Mean, PinnedBy, PinnedProduct;
    FoldCount(txs);
    SlopeSseIsSquaredError(txs);
    ErrorsNonNegative(txs, f.intercept, f.slope);
    if |txs| > 2 {
      var n, e := |txs| as real, SquaredError(txs, f.intercept, f.slope);
      PinnedScaled(e, n, Denom(Fold(txs)));
      DenomIsSpread(txs);
      PinnedDivided(e, n, Spread(txs, Mean(txs)), Denom(Fold(txs)));
    }
  }

  lemma PinnedDivided(e: real, n: real, spread: real, d: real)
    requires n > 2.0 && d == n * spread
    ensures PinnedBy(e, n, spread) <==> PinnedProduct(e, n, d)
  {
    ScaleAtMost(100000000.0 * 3.8416 * e, n, 225.0 * ((n - 2.0) * spread));
    assert 225.0 * ((n - 2.0) * spread) * n == 225.0 * ((n - 2.0) * (n * spread));
  }

  lemma FitGivesDenom(s: SuffStats)
    requires Fit(s).Line?
    ensures Denom(s) > 0.0
  {
  }

  /** The accuracy test of a line on the groups behind the bands. */
  ghost predicate AccurateLine(scale: AmountScale, bands: seq<Band>, groups: seq<seq<Charge>>, a: real, b: real)
    requires |bands| == |groups|
  {
    forall astar :: IsCrossover(astar, b, a) ==>
      AccurateOn(RegimeTxs(scale, bands, groups, astar, false), RegimeTxs(scale, bands, groups, astar, true),
                 astar, a, b)
  }

  lemma AccurateLineMeaning(
    scale: AmountScale, bands: seq<Band>, groups: seq<seq<Charge>>, a: real, b: real)
    requires FoldedFrom(bands, groups)
    ensures Accurate(scale, bands, b, a) <==> AccurateLine(scale, bands, groups, a, b)
  {
    hide Accurate, AccurateOn, RegimeTxs, Crossover, IsCrossover, Fold;
    AccurateMeaning(scale, bands, groups, a, b);
    CrossoverMeaning(Crossover(b, a), b, a);
    forall astar | IsCrossover(astar, b, a) ensures astar == Crossover(b, a) {
      CrossoverMeaning(astar, b, a);
    }
  }

  /** The grade of a piece on its transactions and their least-squares line `(a, b)`. */
  ghost function VerdictOn(
    scale: AmountScale, bands: seq<Band>, groups: seq<seq<Charge>>, a: real, b: real): Verdict
    requires |bands| == |groups|
  {
    var txs := Flatten(groups);
    if |txs| < 25 then Thin
    else if !AmountsVary(txs) || !AccurateLine(scale, bands, groups, a, b) then NonLinear
    else if |txs| >= 200 || PinnedOn(txs, a, b) then Good
    else Thin
  }

  /** The gate's verdict in the same terms. */
  ghost function WholeVerdictOn(
    scale: AmountScale, bands: seq<Band>, groups: seq<seq<Charge>>, a: real, b: real): Verdict
    requires |bands| == |groups|
  {
    var txs := Flatten(groups);
    if |txs| < 200 then Thin
    else if AmountsVary(txs) && AccurateLine(scale, bands, groups, a, b) then Good
    else NonLinear
  }

  /** Both verdicts, from the sums, are those of the raw transactions on their least-squares line; when
      they determine none, on any line. */
  lemma VerdictMeaning(scale: AmountScale, bands: seq<Band>, groups: seq<seq<Charge>>, a: real, b: real)
    requires FoldedFrom(bands, groups)
    requires AmountsVary(Flatten(groups)) ==> IsLeastSquares(Flatten(groups), a, b)
    ensures Grade(scale, SumBands(bands), bands) == VerdictOn(scale, bands, groups, a, b)
    ensures WholeVerdict(scale, bands) == WholeVerdictOn(scale, bands, groups, a, b)
  {
    hide Fold, Fit, SumBands, Accurate, AccurateLine, SlopePinned, PinnedOn, Flatten, AmountsVary, IsLeastSquares;
    var txs := Flatten(groups);
    var f := Fit(Fold(txs));
    SumBandsIsFold(bands, groups);
    FoldCount(txs);
    FitDefinedExactly(txs);
    if f.Line? {
      FitIsLeastSquares(txs);
      AccurateLineMeaning(scale, bands, groups, a, b);
      PinnedMeaning(txs);
      FitGivesDenom(Fold(txs));
    }
  }

  /** A piece is graded GOOD exactly when its transactions number at least 25 and have some amount
      spread, their least-squares line passes the accuracy test, and there are at least 200 of them or
      the slope is pinned. */
  lemma GoodVerdictMeaning(scale: AmountScale, bands: seq<Band>, groups: seq<seq<Charge>>)
    requires FoldedFrom(bands, groups)
    ensures var txs := Flatten(groups);
            var f := Fit(Fold(txs));
            Grade(scale, SumBands(bands), bands).Good? <==>
              && |txs| >= 25 && AmountsVary(txs) && f.Line?
              && AccurateOn(RegimeTxs(scale, bands, groups, Crossover(f.slope, f.intercept), false),
                            RegimeTxs(scale, bands, groups, Crossover(f.slope, f.intercept), true),
                            Crossover(f.slope, f.intercept), f.intercept, f.slope)
              && (|txs| >= 200 || PinnedOn(txs, f.intercept, f.slope))
  {
    hide Fold, Fit, SumBands, Accurate, AccurateOn, SlopePinned, PinnedOn, RegimeTxs, Crossover, Flatten, AmountsVary;
    var txs := Flatten(groups);
    var f := Fit(Fold(txs));
    SumBandsIsFold(bands, groups);
    FoldCount(txs);
    FitDefinedExactly(txs);
    if f.Line? {
      AccurateMeaning(scale, bands, groups, f.intercept, f.slope);
      PinnedMeaning(txs);
      FitGivesDenom(Fold(txs));
    }
  }
}
