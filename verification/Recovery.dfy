/**
 What segmentation is for: a cluster whose fee schedule is piecewise linear is recovered.

 The argument runs through the whole of `segment.rs`: exact runs cost nothing, so the cheapest split
 into as many pieces costs nothing, so each of its pieces lies on its own fitted line, so each is
 graded GOOD, so no finer split can win the selection.

 Main results: `PiecewiseRecovery` for any number of runs, `OneKinkRecovered` for the exact lines of two.
 */
module Recovery {
  import opened Options
  import opened Rounding
  import opened Sequences
  import opened SufficientStats
  import opened LeastSquares
  import opened Grading
  import opened MinimumSplit
  import opened Partition
  import opened Segmentation

  /** A run of bands whose transactions lie on one line, with enough samples and some amount spread. */
  ghost predicate ExactRun(groups: seq<seq<Charge>>) {
    var txs := Flatten(groups);
    |txs| >= 25 && AmountsVary(txs) && exists a, b :: OnLine(txs, a, b)
  }

  ghost predicate ExactRuns(groups: seq<seq<Charge>>, runs: seq<Piece>) {
    && InRange(runs, |groups|)
    && forall r :: r in runs ==> ExactRun(groups[r.start..r.end])
  }

  lemma ExactRunIsFree(bands: seq<Band>, groups: seq<seq<Charge>>)
    requires FoldedFrom(bands, groups) && ExactRun(groups)
    ensures StatsCost(SumBands(bands)) == Some(0.0)
  {
    hide Fit, ProportionalQ, OnLine, SumBands, Fold, AmountsVary;
    var txs := Flatten(groups);
    var a, b :| OnLine(txs, a, b);
    SumBandsIsFold(bands, groups);
    FoldCount(txs);
    ExactLineRecovered(txs, a, b);
    OnLineNoResidual(txs, a, b);
  }

  lemma {:induction false} ExactRunsAreFree(
    bands: seq<Band>, groups: seq<seq<Charge>>, runs: seq<Piece>, j: nat)
    requires FoldedFrom(bands, groups) && ExactRuns(groups, runs)
    requires j <= |bands| && Tiles(runs, j)
    ensures SplitCost(CostOf(bands), runs) == Some(0.0)
  {
    hide StatsCost, SumBands, ExactRun;
    if runs != [] {
      var last := runs[|runs| - 1];
      assert last in runs;
      ExactRunsAreFree(bands, groups, runs[..|runs| - 1], last.start);
      ExactRunIsFree(bands[last.start..last.end], groups[last.start..last.end]);
    }
  }

  lemma CostNonNegative(bands: seq<Band>, i: nat, j: nat)
    requires i <= j <= |bands| && CostOf(bands)(i, j).Some?
    ensures CostOf(bands)(i, j).value >= 0.0
  {
    hide Fit, ProportionalQ, SumBands;
  }

  /** A split that costs nothing has only pieces that cost nothing. */
  lemma {:induction false} FreeSplitHasFreePieces(bands: seq<Band>, parts: seq<Piece>, j: nat, p: Piece)
    requires j <= |bands| && Tiles(parts, j) && SplitCost(CostOf(bands), parts).Some? && InRange(parts, |bands|)
    ensures SplitCost(CostOf(bands), parts).value >= 0.0
    ensures SplitCost(CostOf(bands), parts).value == 0.0 && p in parts ==>
              CostOf(bands)(p.start, p.end) == Some(0.0)
  {
    hide CostOf;
    if parts != [] {
      var last := parts[|parts| - 1];
      FreeSplitHasFreePieces(bands, parts[..|parts| - 1], last.start, p);
      CostNonNegative(bands, last.start, last.end);
    }
  }

  /** A piece that costs nothing lies on its fitted line and is graded GOOD. */
  lemma FreePieceIsGood(scale: AmountScale, bands: seq<Band>, groups: seq<seq<Charge>>)
    requires IsAmountScale(scale) && FoldedFrom(bands, groups)
    requires StatsCost(SumBands(bands)) == Some(0.0)
    ensures Grade(scale, SumBands(bands), bands).Good?
  {
    hide Fit, ProportionalQ, SumBands, Grade, BandsOnLine, FoldedFrom, IsAmountScale;
    var f := Fit(SumBands(bands));
    NoErrorMeansOnLine(bands, groups, f.intercept, f.slope);
    ExactPieceIsGood(scale, bands, groups, f.intercept, f.slope);
  }

  /** A split whose pieces are all free has all of its volume GOOD. */
  lemma {:induction false} FreeSplitAllGood(
    scale: AmountScale, bands: seq<Band>, groups: seq<seq<Charge>>, parts: seq<Piece>, j: nat)
    requires IsAmountScale(scale) && FoldedFrom(bands, groups)
    requires j <= |bands| && Tiles(parts, j) && InRange(parts, |bands|)
    requires forall p :: p in parts ==> CostOf(bands)(p.start, p.end) == Some(0.0)
    ensures GoodVolume(scale, bands, parts) == SumBands(bands[..j]).sx
  {
    hide SumBands, Grade, StatsCost, IsAmountScale;
    if parts == [] {
      SumOfNone();
      assert bands[..0] == [];
    } else {
      var k := |parts| - 1;
      var last := parts[k];
      assert last in parts;
      FreeSplitAllGood(scale, bands, groups, parts[..k], last.start);
      FreePieceIsGood(scale, bands[last.start..last.end], groups[last.start..last.end]);
      SumBandsConcat(bands[..last.start], bands[last.start..last.end]);
      assert bands[..last.start] + bands[last.start..last.end] == bands[..j];
    }
  }

  /** The best split into as many pieces as there are exact runs has all of its volume GOOD. */
  lemma ExactRunsKey(scale: AmountScale, bands: seq<Band>, groups: seq<seq<Charge>>, runs: seq<Piece>)
    requires IsAmountScale(scale) && FoldedFrom(bands, groups)
    requires ExactRuns(groups, runs) && Tiles(runs, |bands|)
    ensures Reachable(bands, |runs|)
    ensures KeyVolume(scale, bands, |runs|) == RoundCents(SumBands(bands).sx)
  {
    hide SumBands, CostOf, GoodVolume, RoundCents, Rebuild, ExactRuns, FoldedFrom, Tiles, IsAmountScale;
    var s, m := |runs|, |bands|;
    ExactRunsAreFree(bands, groups, runs, m);
    LeastIsLowerBound(CostOf(bands), s, m, runs);
    RebuildAttains(CostOf(bands), s, m);
    var parts := Rebuild(CostOf(bands), s, m);
    TilesInRange(parts, m);
    forall p | p in parts ensures CostOf(bands)(p.start, p.end) == Some(0.0) {
      FreeSplitHasFreePieces(bands, parts, m, p);
    }
    FreeSplitAllGood(scale, bands, groups, parts, m);
    assert bands[..m] == bands;
  }

  /** If the bands split into at most five runs, each exactly on one line with at least 25 transactions
      and two distinct amounts, segmentation returns no more pieces than runs and turns all of the
      volume into GOOD pieces, up to the 0.01 rounding of its selection key. */
  lemma PiecewiseRecovery(scale: AmountScale, bands: seq<Band>, groups: seq<seq<Charge>>, runs: seq<Piece>)
    requires IsAmountScale(scale) && FoldedFrom(bands, groups)
    requires 1 <= |runs| <= MAX_SEGMENTS && ExactRuns(groups, runs) && Tiles(runs, |bands|)
    ensures var segs := SegmentCluster(scale, bands);
            && 1 <= |segs| <= |runs|
            && RoundCents(GoodPart(segs)) == RoundCents(TotalVolume(segs))
            && TotalVolume(segs) - GoodPart(segs) <= 0.01
  {
    hide SumBands, GoodVolume, RoundCents, Rebuild, ExactRuns, FoldedFrom, IsAmountScale, GoodPart, TotalVolume;
    FoldedVolumesNonNegative(bands, groups);
    ExactRunsKey(scale, bands, groups, runs);
    AllGoodSplitWins(scale, bands, |runs|);
    var c := Choose(scale, bands, MAX_SEGMENTS);
    RebuildAttains(CostOf(bands), c, |bands|);
    VolumeConserved(scale, bands);
    var segs := SegmentCluster(scale, bands);
    RoundCentsClose(GoodPart(segs));
    RoundCentsClose(TotalVolume(segs));
  }

  /** A cluster on a single line is left uncut. */
  lemma LinearClusterUncut(scale: AmountScale, bands: seq<Band>, groups: seq<seq<Charge>>)
    requires IsAmountScale(scale) && FoldedFrom(bands, groups) && bands != [] && ExactRun(groups)
    ensures |SegmentCluster(scale, bands)| == 1
  {
    hide ExactRun, FoldedFrom, IsAmountScale, SegmentCluster;
    var runs := [Piece(0, |bands|)];
    assert FoldedFrom(bands, groups) ==> |bands| == |groups| by { FoldedLengths(bands, groups); }
    assert groups[0..|groups|] == groups;
    assert runs[..0] == [];
    assert Tiles(runs[..0], 0);
    PiecewiseRecovery(scale, bands, groups, runs);
  }

  lemma FoldedLengths(bands: seq<Band>, groups: seq<seq<Charge>>)
    requires FoldedFrom(bands, groups)
    ensures |bands| == |groups|
  {
  }

  /** Of a recovered cluster with any volume worth the name, exactly the cut ones are surfaced. */
  lemma RecoveredIsClean(scale: AmountScale, bands: seq<Band>, groups: seq<seq<Charge>>, runs: seq<Piece>)
    requires IsAmountScale(scale) && FoldedFrom(bands, groups)
    requires 1 <= |runs| <= MAX_SEGMENTS && ExactRuns(groups, runs) && Tiles(runs, |bands|)
    requires SumBands(bands).sx >= 0.1
    ensures var segs := SegmentCluster(scale, bands);
            IsCleanRecovery(segs) <==> |segs| >= 2
  {
    hide SumBands, SegmentCluster, ExactRuns, FoldedFrom, IsAmountScale, RoundCents;
    PiecewiseRecovery(scale, bands, groups, runs);
    VolumeConserved(scale, bands);
    var segs := SegmentCluster(scale, bands);
    NinetyPercent(GoodPart(segs), TotalVolume(segs));
  }

  lemma NinetyPercent(good: real, total: real)
    requires total >= 0.1 && total - good <= 0.01
    ensures good / total >= 0.9
  {
    var r := good / total;
    assert r * total == good;
    assert (r - 0.9) * total >= 0.0;
  }

  // ---------------------------------------------------------------------------------------------
  // The recovered lines
  // ---------------------------------------------------------------------------------------------

  /** The transactions of a range of groups are among those of a wider range. */
  lemma NestedRanges(groups: seq<seq<Charge>>, inner: Piece, outer: Piece)
    requires outer.start <= inner.start <= inner.end <= outer.end <= |groups|
    ensures forall t :: t in Flatten(groups[inner.start..inner.end]) ==> t in Flatten(groups[outer.start..outer.end])
  {
    hide Flatten;
    forall t | t in Flatten(groups[inner.start..inner.end]) ensures t in Flatten(groups[outer.start..outer.end]) {
      FlattenMembers(groups[inner.start..inner.end], t);
      FlattenMembers(groups[outer.start..outer.end], t);
      var g :| g in groups[inner.start..inner.end] && t in g;
      var i :| inner.start <= i < inner.end && groups[i] == g;
      assert groups[outer.start..outer.end][i - outer.start] == g;
    }
  }

  /** A free piece is an exact run, on its own fitted line (the converse of `ExactRunIsFree`). */
  lemma FreePieceIsExact(bands: seq<Band>, groups: seq<seq<Charge>>)
    requires FoldedFrom(bands, groups) && StatsCost(SumBands(bands)) == Some(0.0)
    ensures var txs, f := Flatten(groups), Fit(SumBands(bands));
            |txs| >= 25 && AmountsVary(txs) && f.Line? && OnLine(txs, f.intercept, f.slope)
  {
    hide Fit, ProportionalQ, OnLine, SumBands, Fold, AmountsVary;
    var txs, f := Flatten(groups), Fit(SumBands(bands));
    SumBandsIsFold(bands, groups);
    FoldCount(txs);
    FitDefinedExactly(txs);
    ProportionalQIsRelativeError(txs, f.intercept, f.slope);
    ErrorsNonNegative(txs, f.intercept, f.slope);
  }

  /** The segment prices every transaction of its piece exactly, and is GOOD. */
  ghost predicate PricesExactly(seg: Segment, txs: seq<Charge>) {
    && seg.verdict.Good? && seg.fixed.Some? && seg.pctBps.Some?
    && |txs| >= 25 && AmountsVary(txs)
    && OnLine(txs, seg.fixed.value, seg.pctBps.value / 10000.0)
  }

  lemma FreePiecePricesExactly(scale: AmountScale, bands: seq<Band>, groups: seq<seq<Charge>>, p: Piece)
    requires IsAmountScale(scale) && FoldedFrom(bands, groups) && p.start < p.end <= |bands|
    requires CostOf(bands)(p.start, p.end) == Some(0.0)
    ensures PricesExactly(SegmentOf(scale, bands, p), Flatten(groups[p.start..p.end]))
  {
    hide Fit, SumBands, OnLine, AmountsVary, Grade, IsAmountScale, StatsCost, BpsSquared;
    FreePieceIsGood(scale, bands[p.start..p.end], groups[p.start..p.end]);
    FreePieceIsExact(bands[p.start..p.end], groups[p.start..p.end]);
  }

  /** When as many segments come back as there are exact runs, every segment prices all of its
      transactions exactly. */
  lemma FullCutIsExact(
    scale: AmountScale, bands: seq<Band>, groups: seq<seq<Charge>>, runs: seq<Piece>, x: nat)
    requires IsAmountScale(scale) && FoldedFrom(bands, groups)
    requires 1 <= |runs| <= MAX_SEGMENTS && ExactRuns(groups, runs) && Tiles(runs, |bands|)
    ensures var segs, parts := SegmentCluster(scale, bands), Partitions(scale, bands);
            x < |segs| == |runs| ==>
              && |parts| == |segs| && parts[x].start < parts[x].end <= |groups|
              && PricesExactly(segs[x], Flatten(groups[parts[x].start..parts[x].end]))
  {
    hide SumBands, CostOf, Rebuild, ExactRuns, SegmentCluster, SegmentOf, PricesExactly, IsAmountScale, Tiles;
    hide KeyVolume, RoundCents;
    var s, m := |runs|, |bands|;
    SegmentOfPiece(scale, bands, x);
    if x < |SegmentCluster(scale, bands)| == s {
      FoldedLengths(bands, groups);
      FoldedVolumesNonNegative(bands, groups);
      ExactRunsKey(scale, bands, groups, runs);
      NoBands(runs, m);
      AllGoodSplitWins(scale, bands, s);
      var c := Choose(scale, bands, MAX_SEGMENTS);
      RebuildAttains(CostOf(bands), c, m);
      var parts := Partitions(scale, bands);
      ExactRunsAreFree(bands, groups, runs, m);
      LeastIsLowerBound(CostOf(bands), s, m, runs);
      TilesInRange(parts, m);
      FreeSplitHasFreePieces(bands, parts, m, parts[x]);
      FreePiecePricesExactly(scale, bands, groups, parts[x]);
    }
  }

  lemma NoBands(runs: seq<Piece>, m: nat)
    requires Tiles(runs, m) && runs != []
    ensures m > 0
  {
  }

  /** Two sets of transactions that share varied amounts lie on the same line. */
  lemma SharedLine(xs: seq<Charge>, ys: seq<Charge>, a: real, b: real, a': real, b': real)
    requires |xs| >= 2 && AmountsVary(xs) && (forall t :: t in xs ==> t in ys)
    requires OnLine(xs, a, b) && OnLine(ys, a', b')
    ensures a == a' && b == b'
  {
    hide Fit, Fold, AmountsVary, Residual;
    ExactLineRecovered(xs, a, b);
    ExactLineRecovered(xs, a', b');
  }

  /** The transactions of this range of groups number 25, vary in amount and lie on this line. */
  ghost predicate RunOn(groups: seq<seq<Charge>>, p: Piece, a: real, b: real)
    requires p.start <= p.end <= |groups|
  {
    var txs := Flatten(groups[p.start..p.end]);
    |txs| >= 25 && AmountsVary(txs) && OnLine(txs, a, b)
  }

  lemma NestedRunsShareLine(
    groups: seq<seq<Charge>>, inner: Piece, outer: Piece, a: real, b: real, a': real, b': real)
    requires outer.start <= inner.start <= inner.end <= outer.end <= |groups|
    requires RunOn(groups, inner, a, b) && RunOn(groups, outer, a', b')
    ensures a == a' && b == b'
  {
    hide Flatten, AmountsVary, OnLine;
    NestedRanges(groups, inner, outer);
    SharedLine(Flatten(groups[inner.start..inner.end]), Flatten(groups[outer.start..outer.end]), a, b, a', b');
  }

  /** The fits of the two pieces of a full cut are the lines of the two runs, wherever the cut falls. */
  lemma CutAnywhere(
    groups: seq<seq<Charge>>, kink: nat, cut: nat, a: real, b: real, a': real, b': real,
    c: real, d: real, c': real, d': real)
    requires kink <= |groups| && cut <= |groups|
    requires RunOn(groups, Piece(0, kink), a, b) && RunOn(groups, Piece(kink, |groups|), a', b')
    requires RunOn(groups, Piece(0, cut), c, d) && RunOn(groups, Piece(cut, |groups|), c', d')
    ensures c == a && d == b && c' == a' && d' == b'
  {
    hide RunOn;
    var m := |groups|;
    if cut <= kink {
      NestedRunsShareLine(groups, Piece(0, cut), Piece(0, kink), c, d, a, b);
      NestedRunsShareLine(groups, Piece(kink, m), Piece(cut, m), a', b', c', d');
    } else {
      NestedRunsShareLine(groups, Piece(0, kink), Piece(0, cut), a, b, c, d);
      NestedRunsShareLine(groups, Piece(cut, m), Piece(kink, m), c', d', a', b');
    }
  }

  /** A schedule with one kink. From a volume of 0.005, the cluster is cut if and only if one line is not
      GOOD for it, and the two recovered lines are then exactly those of the schedule. */
  lemma OneKinkRecovered(
    scale: AmountScale, bands: seq<Band>, groups: seq<seq<Charge>>, kink: nat,
    a: real, b: real, a': real, b': real)
    requires IsAmountScale(scale) && FoldedFrom(bands, groups) && 0 < kink < |bands|
    requires RunOn(groups, Piece(0, kink), a, b) && RunOn(groups, Piece(kink, |bands|), a', b')
    requires SumBands(bands).sx >= 0.005
    ensures var segs := SegmentCluster(scale, bands);
            && (|segs| == 2 <==> !Grade(scale, SumBands(bands), bands).Good?)
            && (|segs| == 1 <==> Grade(scale, SumBands(bands), bands).Good?)
            && (|segs| == 2 ==>
                && segs[0].fixed == Some(a) && segs[0].pctBps == Some(b * 10000.0) && segs[0].verdict.Good?
                && segs[1].fixed == Some(a') && segs[1].pctBps == Some(b' * 10000.0) && segs[1].verdict.Good?)
  {
    hide SumBands, Grade, SegmentCluster, OnLine, AmountsVary, IsAmountScale, Flatten, RoundCents, FoldedFrom;
    hide Partitions, RunOn, ExactRuns, Tiles;
    var runs := [Piece(0, kink), Piece(kink, |bands|)];
    TwoRuns(bands, groups, kink, a, b, a', b');
    PiecewiseRecovery(scale, bands, groups, runs);
    FoldedVolumesNonNegative(bands, groups);
    GoodGradeStaysWhole(scale, bands);
    var segs := SegmentCluster(scale, bands);
    if |segs| == 1 {
      UncutIsGood(scale, bands);
    } else {
      SecondCut(scale, bands);
      FoldedLengths(bands, groups);
      var e := Partitions(scale, bands)[0].end;
      FullCutIsExact(scale, bands, groups, runs, 0);
      FullCutIsExact(scale, bands, groups, runs, 1);
      var d, d' := segs[0].pctBps.value / 10000.0, segs[1].pctBps.value / 10000.0;
      ExactRunOn(segs[0], groups, Piece(0, e));
      ExactRunOn(segs[1], groups, Piece(e, |bands|));
      CutAnywhere(groups, kink, e, a, b, a', b', segs[0].fixed.value, d, segs[1].fixed.value, d');
    }
  }

  lemma ExactRunOn(seg: Segment, groups: seq<seq<Charge>>, p: Piece)
    requires p.start <= p.end <= |groups| && PricesExactly(seg, Flatten(groups[p.start..p.end]))
    ensures RunOn(groups, p, seg.fixed.value, seg.pctBps.value / 10000.0)
  {
  }

  lemma TwoRuns(
    bands: seq<Band>, groups: seq<seq<Charge>>, kink: nat, a: real, b: real, a': real, b': real)
    requires FoldedFrom(bands, groups) && 0 < kink < |bands|
    requires RunOn(groups, Piece(0, kink), a, b) && RunOn(groups, Piece(kink, |bands|), a', b')
    ensures var runs := [Piece(0, kink), Piece(kink, |bands|)];
            ExactRuns(groups, runs) && Tiles(runs, |bands|)
  {
    hide OnLine, AmountsVary, Flatten;
    var runs := [Piece(0, kink), Piece(kink, |bands|)];
    assert runs[..1] == [Piece(0, kink)] && runs[..1][..0] == [];
    assert Tiles([], 0);
    assert ExactRun(groups[0..kink]) && ExactRun(groups[kink..|bands|]);
  }

  /** Two pieces tile the bands around one cut. */
  lemma SecondCut(scale: AmountScale, bands: seq<Band>)
    requires |SegmentCluster(scale, bands)| == 2
    ensures var parts := Partitions(scale, bands);
            |parts| == 2 && 0 < parts[0].end < |bands|
            && parts == [Piece(0, parts[0].end), Piece(parts[0].end, |bands|)]
  {
    hide Partitions, SegmentCluster;
    SegmentOfPiece(scale, bands, 0);
    PartitionsTile(scale, bands);
    var parts := Partitions(scale, bands);
    assert Tiles(parts[..1], parts[1].start);
    assert Tiles(parts[..1][..0], parts[0].start);
  }

  /** A recovered cluster that comes back in one piece was GOOD in one piece. */
  lemma UncutIsGood(scale: AmountScale, bands: seq<Band>)
    requires |SegmentCluster(scale, bands)| == 1 && SumBands(bands).sx >= 0.005
    requires RoundCents(GoodPart(SegmentCluster(scale, bands))) == RoundCents(TotalVolume(SegmentCluster(scale, bands)))
    ensures Grade(scale, SumBands(bands), bands).Good?
  {
    hide SumBands, Grade, SegmentCluster, Partitions, GoodPart, TotalVolume, GoodVolume;
    SegmentOfPiece(scale, bands, 0);
    PartitionsTile(scale, bands);
    var parts := Partitions(scale, bands);
    assert Tiles(parts[..0], parts[0].start);
    assert parts == [Piece(0, |bands|)];
    OnePieceVolume(scale, bands);
    VolumeConserved(scale, bands);
    HalfCentShows(SumBands(bands).sx);
  }

  lemma HalfCentShows(x: real)
    requires x >= 0.005
    ensures RoundCents(x) > RoundCents(0.0)
  {
    assert Round(x * 100.0) >= 1;
  }

  // ---------------------------------------------------------------------------------------------
  // An instance: a rate with a cap
  // ---------------------------------------------------------------------------------------------

  /** Bands of width 1000 from 1000 up; any positive increasing continuation below will do. */
  function LinearScale(k: int): real {
    if k >= 0 then 1000.0 * (k + 1) as real else 1000.0 * (1.0 / (1 - k) as real)
  }

  lemma LinearScaleIncreases(j: int, k: int)
    requires j < k
    ensures 0.0 < LinearScale(j) < LinearScale(k)
  {
    if k < 0 {
      var x, y := (1 - j) as real, (1 - k) as real;
      assert 0.0 < y < x;
      InverseDecreases(y, x);
    } else if j < 0 {
      var x := (1 - j) as real;
      InverseDecreases(1.0, x);
    }
  }

  lemma InverseDecreases(y: real, x: real)
    requires 0.0 < y < x
    ensures 0.0 < 1.0 / x < 1.0 / y
  {
    var p, q := 1.0 / x, 1.0 / y;
    assert p * x == 1.0 && q * y == 1.0;
    assert p > 0.0 && q > 0.0;
    assert (q - p) * y == 1.0 - p * y;
    assert p * x - p * y == p * (x - y);
  }

  lemma LinearScaleValid()
    ensures IsAmountScale(LinearScale)
  {
    forall k ensures 0.0 < LinearScale(k) {
      LinearScaleIncreases(k, k + 1);
    }
    forall j, k | j < k ensures LinearScale(j) < LinearScale(k) {
      LinearScaleIncreases(j, k);
    }
  }

  /** One percent, capped at 50. */
  function CappedFee(amount: real): real {
    if 0.01 * amount < 50.0 then 0.01 * amount else 50.0
  }

  /** 25 transactions of one amount. */
  function Repeated(t: Charge, n: nat): (r: seq<Charge>)
    ensures |r| == n && forall x :: x in r ==> x == t
    ensures n > 0 ==> t in r
  {
    if n == 0 then [] else Repeated(t, n - 1) + [t]
  }

  lemma OneMore(n: nat, x: real)
    ensures n as real * x + x == (n + 1) as real * x
  {
  }

  /** `n` times the fields that the line fit reads. */
  ghost predicate Scaled(s: SuffStats, n: nat, t: Charge) {
    && s.n == n as real
    && s.sx == n as real * t.amount
    && s.sy == n as real * t.fee
    && s.sxx == n as real * (t.amount * t.amount)
    && s.sxy == n as real * (t.amount * t.fee)
  }

  lemma ScaledAdd(s: SuffStats, n: nat, t: Charge)
    requires Scaled(s, n, t)
    ensures Scaled(s.Add(t.amount, t.fee), n + 1, t)
  {
    OneMore(n, t.amount);
    OneMore(n, t.fee);
    OneMore(n, t.amount * t.amount);
    OneMore(n, t.amount * t.fee);
  }

  lemma {:induction false} FoldRepeated(t: Charge, n: nat)
    ensures Scaled(Fold(Repeated(t, n)), n, t)
  {
    if n > 0 {
      FoldRepeated(t, n - 1);
      assert Repeated(t, n)[..n - 1] == Repeated(t, n - 1);
      ScaledAdd(Fold(Repeated(t, n - 1)), n - 1, t);
      hide SuffStats.Add, Scaled;
    }
  }

  /** The squared relative error of one transaction. */
  function SquaredRatio(t: Charge, a: real, b: real): real {
    Square(Residual(t, a, b) / t.amount)
  }

  lemma RepeatedErrorStep(t: Charge, n: nat, a: real, b: real)
    ensures RelativeError(Repeated(t, n + 1), a, b) == RelativeError(Repeated(t, n), a, b) + SquaredRatio(t, a, b)
  {
    hide Square, Residual;
    assert Repeated(t, n + 1)[..n] == Repeated(t, n);
  }

  lemma NoRepeatedError(t: Charge, a: real, b: real)
    ensures RelativeError(Repeated(t, 0), a, b) == 0.0
  {
  }

  lemma {:induction false} ErrorRepeated(t: Charge, n: nat, a: real, b: real)
    ensures RelativeError(Repeated(t, n), a, b) == n as real * SquaredRatio(t, a, b)
  {
    hide RelativeError, SquaredRatio, Repeated;
    if n == 0 {
      NoRepeatedError(t, a, b);
    } else {
      ErrorRepeated(t, n - 1, a, b);
      RepeatedErrorStep(t, n - 1, a, b);
      OneMore(n - 1, SquaredRatio(t, a, b));
    }
  }

  /** Above the crossover, every band counts. */
  lemma {:induction false} AllAbove(scale: AmountScale, bands: seq<Band>, astar: real)
    requires forall b :: b in bands ==> scale(b.index + 1) > astar
    ensures SplitRegime(scale, bands, astar) == (ZERO, SumBands(bands))
  {
    if bands != [] {
      AllAbove(scale, bands[..|bands| - 1], astar);
    }
  }

  /** 25 transactions of each kind, one kind per band. */
  function GroupsOf(kinds: seq<Charge>): (groups: seq<seq<Charge>>)
    ensures |groups| == |kinds| && forall i :: 0 <= i < |kinds| ==> groups[i] == Repeated(kinds[i], 25)
  {
    seq(|kinds|, i requires 0 <= i < |kinds| => Repeated(kinds[i], 25))
  }

  function BandsOf(indices: seq<int>, groups: seq<seq<Charge>>): (bands: seq<Band>)
    requires |indices| == |groups|
    ensures FoldedFrom(bands, groups) && forall i :: 0 <= i < |bands| ==> bands[i].index == indices[i]
  {
    seq(|indices|, i requires 0 <= i < |indices| => Band(indices[i], Fold(groups[i])))
  }

  /** Two amounts on each side of the cap, with what one percent capped at 50 charges for them. */
  const KINDS: seq<Charge> := [Txn(2000.0, 20.0), Txn(5000.0, 50.0), Txn(6000.0, 50.0), Txn(8000.0, 50.0)]

  function CappedBands(): (bands: seq<Band>) {
    BandsOf([1, 4, 5, 7], GroupsOf(KINDS))
  }

  /** Each kind's amount lies in its band. */
  lemma KindsInBands()
    ensures var bands := CappedBands();
            forall i :: 0 <= i < 4 ==>
              && LinearScale(bands[i].index) <= KINDS[i].amount < LinearScale(bands[i].index + 1)
              && KINDS[i].fee == CappedFee(KINDS[i].amount)
  {
    hide GroupsOf, Fold;
  }

  lemma SumsStep(kinds: seq<Charge>, indices: seq<int>, k: nat, x: real, y: real)
    requires |indices| == |kinds| && k < |kinds| && kinds[k] == Txn(x, y)
    ensures var bands := BandsOf(indices, GroupsOf(kinds));
            var s, o := SumBands(bands[..k + 1]), SumBands(bands[..k]);
            && s.n == o.n + 25.0 && s.sx == o.sx + 25.0 * x && s.sy == o.sy + 25.0 * y
            && s.sxx == o.sxx + 25.0 * (x * x) && s.sxy == o.sxy + 25.0 * (x * y)
  {
    hide SumBands, Fold, BandsOf, GroupsOf, Repeated;
    PrefixStep(BandsOf(indices, GroupsOf(kinds)), k);
    FoldRepeated(kinds[k], 25);
  }

  lemma ErrorStep(kinds: seq<Charge>, indices: seq<int>, k: nat, a: real, b: real)
    requires |indices| == |kinds| && k < |kinds|
    ensures var bands := BandsOf(indices, GroupsOf(kinds));
            ProportionalQ(a, b, SumBands(bands[..k + 1]))
              == ProportionalQ(a, b, SumBands(bands[..k])) + 25.0 * SquaredRatio(kinds[k], a, b)
  {
    hide SumBands, Fold, BandsOf, GroupsOf, Repeated, ProportionalQ, SquaredRatio, RelativeError;
    var bands := BandsOf(indices, GroupsOf(kinds));
    PrefixStep(bands, k);
    ProportionalQAdditive(a, b, SumBands(bands[..k]), bands[k].stats);
    ProportionalQIsRelativeError(GroupsOf(kinds)[k], a, b);
    ErrorRepeated(kinds[k], 25, a, b);
  }

  lemma NoSums()
    ensures var s := SumBands([]);
            s.n == 0.0 && s.sx == 0.0 && s.sy == 0.0 && s.sxx == 0.0 && s.sxy == 0.0
    ensures forall a, b :: ProportionalQ(a, b, SumBands([])) == 0.0
  {
  }

  lemma CappedSums()
    ensures var s := SumBands(CappedBands());
            && s.n == 100.0 && s.sx == 525000.0 && s.sy == 4250.0
            && s.sxx == 3225000000.0 && s.sxy == 24750000.0
  {
    hide *;
    var indices := [1, 4, 5, 7];
    CappedIs();
    var bands := CappedBands();
    NoSums();
    assert bands[..0] == [] && bands[..4] == bands;
    SumsStep(KINDS, indices, 0, 2000.0, 20.0);
    SumsStep(KINDS, indices, 1, 5000.0, 50.0);
    SumsStep(KINDS, indices, 2, 6000.0, 50.0);
    SumsStep(KINDS, indices, 3, 8000.0, 50.0);
  }

  lemma CappedIs()
    ensures CappedBands() == BandsOf([1, 4, 5, 7], GroupsOf(KINDS)) && |KINDS| == 4
    ensures KINDS[0] == Txn(2000.0, 20.0) && KINDS[1] == Txn(5000.0, 50.0)
    ensures KINDS[2] == Txn(6000.0, 50.0) && KINDS[3] == Txn(8000.0, 50.0)
    ensures |CappedBands()| == 4 && FoldedFrom(CappedBands(), GroupsOf(KINDS))
  {
    hide BandsOf, GroupsOf, Fold, Repeated;
  }

  /** One line over all of them charges 0.52 percent and 15.20. */
  lemma CappedFit()
    ensures Fit(SumBands(CappedBands())) == Line(0.0052, 15.2)
  {
    hide CappedBands, SumBands;
    CappedSums();
  }

  lemma CappedErrors()
    ensures SquaredRatio(Txn(2000.0, 20.0), 15.2, 0.0052) == 0.0000078400
    ensures SquaredRatio(Txn(5000.0, 50.0), 15.2, 0.0052) == 0.0000030976
    ensures SquaredRatio(Txn(6000.0, 50.0), 15.2, 0.0052) == 0.0000003600
    ensures SquaredRatio(Txn(8000.0, 50.0), 15.2, 0.0052) == 0.0000007225
  {
  }

  /** That line misses by more than 17 bps, so it is not GOOD. */
  lemma CappedNotGood()
    ensures !Grade(LinearScale, SumBands(CappedBands()), CappedBands()).Good?
  {
    hide SumBands, CappedBands, ProportionalQ, SplitRegime, LinearScale;
    CappedSums();
    CappedFit();
    CappedError();
    CappedAbove();
  }

  lemma CappedError()
    ensures ProportionalQ(15.2, 0.0052, SumBands(CappedBands())) == 0.0003005025
  {
    hide *;
    CappedIs();
    CappedErrors();
    var bands, indices, a, b := CappedBands(), [1, 4, 5, 7], 15.2, 0.0052;
    NoSums();
    assert bands[..0] == [] && bands[..4] == bands;
    ErrorStep(KINDS, indices, 0, a, b);
    ErrorStep(KINDS, indices, 1, a, b);
    ErrorStep(KINDS, indices, 2, a, b);
    ErrorStep(KINDS, indices, 3, a, b);
  }

  /** The flat fee outweighs the rate only up to 2923, below the first band's upper end. */
  lemma CappedAbove()
    ensures SplitRegime(LinearScale, CappedBands(), Crossover(0.0052, 15.2)) == (ZERO, SumBands(CappedBands()))
  {
    hide SumBands, SplitRegime, GroupsOf, Fold;
    AllAbove(LinearScale, CappedBands(), Crossover(0.0052, 15.2));
  }

  lemma CappedResiduals()
    ensures Residual(Txn(2000.0, 20.0), 0.0, 0.01) == 0.0 && Residual(Txn(5000.0, 50.0), 0.0, 0.01) == 0.0
    ensures Residual(Txn(6000.0, 50.0), 50.0, 0.0) == 0.0 && Residual(Txn(8000.0, 50.0), 50.0, 0.0) == 0.0
  {
  }

  lemma CappedRuns()
    ensures |CappedBands()| == |GroupsOf(KINDS)| == 4
    ensures RunOn(GroupsOf(KINDS), Piece(0, 2), 0.0, 0.01)
    ensures RunOn(GroupsOf(KINDS), Piece(2, 4), 50.0, 0.0)
  {
    hide *;
    CappedIs();
    CappedResiduals();
    RunOfTwo(GroupsOf(KINDS), 0, KINDS[0], KINDS[1], 0.0, 0.01);
    RunOfTwo(GroupsOf(KINDS), 2, KINDS[2], KINDS[3], 50.0, 0.0);
  }

  lemma RunOfTwo(groups: seq<seq<Charge>>, i: nat, t: Charge, u: Charge, a: real, b: real)
    requires i + 2 <= |groups| && groups[i] == Repeated(t, 25) && groups[i + 1] == Repeated(u, 25)
    requires t.amount != u.amount && Residual(t, a, b) == 0.0 && Residual(u, a, b) == 0.0
    ensures RunOn(groups, Piece(i, i + 2), a, b)
  {
    hide Repeated, Residual;
    var two := groups[i..i + 2];
    assert two[..1] == [groups[i]];
    FlattenOne(groups[i]);
    assert Flatten(two) == groups[i] + groups[i + 1];
    assert t in Flatten(two) && u in Flatten(two);
  }

  /** One percent capped at 50, with amounts up to 1.6 times the cap's: one line is not GOOD for it, and it
      comes back as the two pieces of the schedule, rate and cap exact. */
  lemma CappedFeeIsRecovered()
    ensures var segs := SegmentCluster(LinearScale, CappedBands());
            && |segs| == 2 && IsCleanRecovery(segs)
            && segs[0].pctBps == Some(100.0) && segs[0].fixed == Some(0.0) && segs[0].verdict.Good?
            && segs[1].pctBps == Some(0.0) && segs[1].fixed == Some(50.0) && segs[1].verdict.Good?
  {
    hide SumBands, CappedBands, Grade, SegmentCluster, RunOn, IsAmountScale, GroupsOf, FoldedFrom;
    CappedIs();
    CappedSums();
    CappedRuns();
    CappedNotGood();
    LinearScaleValid();
    OneKinkRecovered(LinearScale, CappedBands(), GroupsOf(KINDS), 2, 0.0, 0.01, 50.0, 0.0);
    TwoRuns(CappedBands(), GroupsOf(KINDS), 2, 0.0, 0.01, 50.0, 0.0);
    RecoveredIsClean(LinearScale, CappedBands(), GroupsOf(KINDS), [Piece(0, 2), Piece(2, 4)]);
  }
}
