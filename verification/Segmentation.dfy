/**
 `segment_cluster` and `is_clean_recovery` of `src/cost_ingestion/segment.rs`: the segments conserve
 the cluster's volume and count, their amount ranges are ordered, and a cluster the gate calls Good
 is cut if and only if a cut gains, which takes a negative volume.
 */
module Segmentation {
  import opened Options
  import opened Rounding
  import opened Sequences
  import opened SufficientStats
  import opened LeastSquares
  import opened Grading
  import opened MinimumSplit
  import opened Partition

  /** One recovered piece. `bpsSquared` is the square of `bps_rmse`. */
  datatype Segment = Segment(
    lo: real, hi: real, n: nat, volume: real,
    pctBps: Option<real>, fixed: Option<real>, bpsSquared: Option<real>, verdict: Verdict)

  const U64_MAX := 0xFFFF_FFFF_FFFF_FFFF

  /** `as u64`: truncation that saturates at both ends. */
  function AsU64(x: real): nat {
    if x < 0.0 then 0 else if x.Floor > U64_MAX then U64_MAX else x.Floor
  }

  function SegmentOf(scale: AmountScale, bands: seq<Band>, p: Piece): Segment
    requires p.start < p.end <= |bands|
  {
    var piece := bands[p.start..p.end];
    var s := SumBands(piece);
    var f := Fit(s);
    Segment(
      scale(bands[p.start].index), scale(bands[p.end - 1].index + 1), AsU64(s.n), s.sx,
      if f.Line? then Some(f.slope * 10000.0) else None,
      if f.Line? then Some(f.intercept) else None,
      if f.Line? && s.n > 0.0 then Some(BpsSquared(f.intercept, f.slope, s)) else None,
      Grade(scale, s, piece))
  }

  function SegmentsOf(scale: AmountScale, bands: seq<Band>, parts: seq<Piece>): (segs: seq<Segment>)
    requires InRange(parts, |bands|)
    ensures |segs| == |parts|
  {
    if parts == [] then []
    else SegmentsOf(scale, bands, parts[..|parts| - 1]) + [SegmentOf(scale, bands, parts[|parts| - 1])]
  }

  /** `segment_cluster` */
  function SegmentCluster(scale: AmountScale, bands: seq<Band>): seq<Segment> {
    PartitionsTile(scale, bands);
    TilesInRange(Partitions(scale, bands), |bands|);
    SegmentsOf(scale, bands, Partitions(scale, bands))
  }

  method ComputeSegments(scale: AmountScale, bands: seq<Band>) returns (segs: seq<Segment>)
    ensures segs == SegmentCluster(scale, bands)
  {
    hide Partitions, Tiles, SegmentOf;
    var parts := SegmentPartitions(scale, bands);
    PartitionsTile(scale, bands);
    TilesInRange(parts, |bands|);
    segs := SegmentsOf(scale, bands, parts);
  }

  function TotalVolume(segs: seq<Segment>): real {
    if segs == [] then 0.0 else TotalVolume(segs[..|segs| - 1]) + segs[|segs| - 1].volume
  }

  /** The volume of the pieces graded GOOD. */
  function GoodPart(segs: seq<Segment>): real {
    if segs == [] then 0.0
    else
      var last := segs[|segs| - 1];
      GoodPart(segs[..|segs| - 1]) + (if last.verdict.Good? then last.volume else 0.0)
  }

  /** `is_clean_recovery` */
  predicate IsCleanRecovery(segs: seq<Segment>) {
    && |segs| >= 2
    && TotalVolume(segs) > 0.0
    && GoodPart(segs) / TotalVolume(segs) >= 0.9
  }

  // ---------------------------------------------------------------------------------------------
  // Conservation and ordering
  // ---------------------------------------------------------------------------------------------

  lemma {:induction false} PiecesConserve(scale: AmountScale, bands: seq<Band>, parts: seq<Piece>, j: nat)
    requires j <= |bands| && Tiles(parts, j) && InRange(parts, |bands|)
    ensures TotalVolume(SegmentsOf(scale, bands, parts)) == SumBands(bands[..j]).sx
    ensures GoodPart(SegmentsOf(scale, bands, parts)) == GoodVolume(scale, bands, parts)
  {
    hide SumBands, Grade;
    if parts == [] {
      assert bands[..0] == [];
      assert SumBands([]) == ZERO by { SumOfNone(); }
    } else {
      var k := |parts| - 1;
      var last := parts[k];
      PiecesConserve(scale, bands, parts[..k], last.start);
      SumBandsConcat(bands[..last.start], bands[last.start..last.end]);
      assert bands[..last.start] + bands[last.start..last.end] == bands[..j];
      var segs := SegmentsOf(scale, bands, parts);
      assert segs[..k] == SegmentsOf(scale, bands, parts[..k]);
    }
  }

  lemma SumOfNone()
    ensures SumBands([]) == ZERO
  {
  }

  /** The segments' volumes add up to the cluster's, and their GOOD part is what the selection measured. */
  lemma VolumeConserved(scale: AmountScale, bands: seq<Band>)
    ensures TotalVolume(SegmentCluster(scale, bands)) == SumBands(bands).sx
    ensures InRange(Partitions(scale, bands), |bands|)
    ensures GoodPart(SegmentCluster(scale, bands)) == GoodVolume(scale, bands, Partitions(scale, bands))
  {
    hide SumBands, Tiles, Partitions;
    PartitionsTile(scale, bands);
    TilesInRange(Partitions(scale, bands), |bands|);
    PiecesConserve(scale, bands, Partitions(scale, bands), |bands|);
    assert bands[..|bands|] == bands;
  }

  function TotalCount(segs: seq<Segment>): nat {
    if segs == [] then 0 else TotalCount(segs[..|segs| - 1]) + segs[|segs| - 1].n
  }

  lemma {:induction false} PiecesCount(
    scale: AmountScale, bands: seq<Band>, groups: seq<seq<Charge>>, parts: seq<Piece>, j: nat)
    requires FoldedFrom(bands, groups)
    requires j <= |bands| && Tiles(parts, j) && InRange(parts, |bands|)
    requires |Flatten(groups[..j])| <= U64_MAX
    ensures TotalCount(SegmentsOf(scale, bands, parts)) == |Flatten(groups[..j])|
  {
    hide SumBands, Grade, Fit, Fold, Flatten, BpsSquared;
    if parts == [] {
      FlattenNothing<Charge>();
      assert groups[..0] == [];
    } else {
      var k := |parts| - 1;
      var last := parts[k];
      FlattenConcat(groups[..last.start], groups[last.start..last.end]);
      assert groups[..last.start] + groups[last.start..last.end] == groups[..j];
      PiecesCount(scale, bands, groups, parts[..k], last.start);
      SumBandsIsFold(bands[last.start..last.end], groups[last.start..last.end]);
      FoldCount(Flatten(groups[last.start..last.end]));
      var segs := SegmentsOf(scale, bands, parts);
      assert segs[..k] == SegmentsOf(scale, bands, parts[..k]);
    }
  }

  /** The segments' transaction counts add up to the number of transactions behind the bands. */
  lemma CountConserved(scale: AmountScale, bands: seq<Band>, groups: seq<seq<Charge>>)
    requires FoldedFrom(bands, groups) && |Flatten(groups)| <= U64_MAX
    ensures TotalCount(SegmentCluster(scale, bands)) == |Flatten(groups)|
  {
    hide Tiles, Partitions;
    PartitionsTile(scale, bands);
    TilesInRange(Partitions(scale, bands), |bands|);
    assert groups[..|bands|] == groups;
    PiecesCount(scale, bands, groups, Partitions(scale, bands), |bands|);
  }

  /** Later pieces start at or after the end of earlier ones. */
  lemma {:induction false} TilesOrdered(parts: seq<Piece>, j: nat, x: nat, y: nat)
    requires Tiles(parts, j) && x < y < |parts|
    ensures parts[x].end <= parts[y].start
  {
    var last := parts[|parts| - 1];
    if y < |parts| - 1 {
      TilesOrdered(parts[..|parts| - 1], last.start, x, y);
    } else if x < y - 1 {
      TilesOrdered(parts[..|parts| - 1], last.start, x, y - 1);
      TilesInRange(parts, j);
      assert parts[y - 1] in parts;
    }
  }

  lemma {:induction false} SegmentsOfAt(scale: AmountScale, bands: seq<Band>, parts: seq<Piece>, x: nat)
    requires InRange(parts, |bands|) && x < |parts|
    ensures parts[x] in parts && SegmentsOf(scale, bands, parts)[x] == SegmentOf(scale, bands, parts[x])
  {
    hide SegmentOf;
    if x < |parts| - 1 {
      SegmentsOfAt(scale, bands, parts[..|parts| - 1], x);
    }
  }

  /** The `x`-th segment is the one of the `x`-th piece, which is a range of the bands. */
  lemma SegmentOfPiece(scale: AmountScale, bands: seq<Band>, x: nat)
    ensures |SegmentCluster(scale, bands)| == |Partitions(scale, bands)|
    ensures x < |Partitions(scale, bands)| ==>
              && Partitions(scale, bands)[x].start < Partitions(scale, bands)[x].end <= |bands|
              && SegmentCluster(scale, bands)[x] == SegmentOf(scale, bands, Partitions(scale, bands)[x])
  {
    hide Partitions, SegmentOf, Tiles;
    var parts := Partitions(scale, bands);
    PartitionsTile(scale, bands);
    TilesInRange(parts, |bands|);
    if x < |parts| {
      SegmentsOfAt(scale, bands, parts, x);
    }
  }

  /** Amount ranges are non-empty, ascending and disjoint. */
  lemma AmountRangesDisjoint(scale: AmountScale, bands: seq<Band>, x: nat, y: nat)
    requires IsAmountScale(scale) && Ascending(bands)
    ensures var segs := SegmentCluster(scale, bands);
            x < y < |segs| ==> segs[x].lo < segs[x].hi <= segs[y].lo < segs[y].hi
  {
    hide Partitions, SegmentCluster, SumBands, Grade, Fit;
    var parts := Partitions(scale, bands);
    SegmentOfPiece(scale, bands, x);
    SegmentOfPiece(scale, bands, y);
    if x < y < |parts| {
      PartitionsTile(scale, bands);
      TilesOrdered(parts, |bands|, x, y);
      var last, next := bands[parts[x].end - 1].index + 1, bands[parts[y].start].index;
      assert last <= next;
      assert scale(last) <= scale(next);
    }
  }

  /** A segment's amount range covers the ranges of its own bands and starts and ends with them. */
  lemma SegmentCoversItsBands(scale: AmountScale, bands: seq<Band>, x: nat, i: nat)
    requires IsAmountScale(scale) && Ascending(bands) && i < |bands|
    ensures var segs, parts := SegmentCluster(scale, bands), Partitions(scale, bands);
            |segs| == |parts| && (x < |parts| && parts[x].start <= i < parts[x].end ==>
              && segs[x].lo <= scale(bands[i].index) < scale(bands[i].index + 1) <= segs[x].hi
              && (i == parts[x].start <==> segs[x].lo == scale(bands[i].index))
              && (i == parts[x].end - 1 <==> segs[x].hi == scale(bands[i].index + 1)))
  {
    hide Partitions, SegmentCluster, SumBands, Grade, Fit;
    var parts := Partitions(scale, bands);
    SegmentOfPiece(scale, bands, x);
    if x < |parts| && parts[x].start <= i < parts[x].end {
      var first, last := bands[parts[x].start].index, bands[parts[x].end - 1].index;
      assert first <= bands[i].index <= last;
      assert scale(bands[i].index) < scale(bands[i].index + 1);
    }
  }

  /** The segment's count, volume and line are those of the transactions: the line is their unique
      least-squares line, and is missing exactly when they determine none; the squared error is the mean
      squared relative residual around it, in bps. */
  ghost predicate Fits(seg: Segment, txs: seq<Charge>, a: real, b: real) {
    && seg.volume == Fold(txs).sx
    && seg.n == (if |txs| > 0xFFFF_FFFF_FFFF_FFFF then 0xFFFF_FFFF_FFFF_FFFF else |txs|)
    && (seg.fixed.None? <==> |txs| < 2 || !AmountsVary(txs))
    && (seg.fixed.None? <==> seg.pctBps.None?) && (seg.fixed.None? <==> seg.bpsSquared.None?)
    && (seg.fixed.Some? ==>
        && SquaredError(txs, seg.fixed.value, seg.pctBps.value / 10000.0) <= SquaredError(txs, a, b)
        && (SquaredError(txs, seg.fixed.value, seg.pctBps.value / 10000.0) == SquaredError(txs, a, b)
            ==> a == seg.fixed.value && b == seg.pctBps.value / 10000.0)
        && seg.bpsSquared.value * |txs| as real
           == 100000000.0 * RelativeError(txs, seg.fixed.value, seg.pctBps.value / 10000.0))
  }

  /** Every segment fits its own transactions better than any other line `(a, b)`, and its verdict is theirs
      on their least-squares line. */
  lemma SegmentFitsItsTransactions(
    scale: AmountScale, bands: seq<Band>, groups: seq<seq<Charge>>, x: nat, a: real, b: real)
    requires FoldedFrom(bands, groups)
    ensures var segs, parts := SegmentCluster(scale, bands), Partitions(scale, bands);
            |segs| == |parts| && (x < |parts| ==>
              var p := parts[x];
              && p.start < p.end <= |groups|
              && var txs := Flatten(groups[p.start..p.end]);
              && Fits(segs[x], txs, a, b)
              && ((AmountsVary(txs) ==> IsLeastSquares(txs, a, b)) ==>
                    segs[x].verdict == VerdictOn(scale, bands[p.start..p.end], groups[p.start..p.end], a, b)))
  {
    hide Partitions, SegmentCluster, SumBands, Grade, Fit, Fold, SquaredError, RelativeError, BpsSquared, AmountsVary,
         IsLeastSquares, VerdictOn, Flatten;
    SegmentOfPiece(scale, bands, x);
    if x < |Partitions(scale, bands)| {
      var p := Partitions(scale, bands)[x];
      var txs := Flatten(groups[p.start..p.end]);
      SumBandsIsFold(bands[p.start..p.end], groups[p.start..p.end]);
      FoldCount(txs);
      FitDefinedExactly(txs);
      if Fit(Fold(txs)).Line? {
        var f := Fit(Fold(txs));
        FitIsUniqueMinimiser(txs, a, b);
        BpsSquaredMeaning(txs, f.intercept, f.slope);
      }
      if AmountsVary(txs) ==> IsLeastSquares(txs, a, b) {
        VerdictMeaning(scale, bands[p.start..p.end], groups[p.start..p.end], a, b);
      }
    }
  }

  // ---------------------------------------------------------------------------------------------
  // The gate
  // ---------------------------------------------------------------------------------------------

  /** No band has negative volume, as when amounts are positive or a field did not parse (0). */
  ghost predicate VolumesNonNegative(bands: seq<Band>) {
    forall b :: b in bands ==> b.stats.sx >= 0.0
  }

  lemma FoldedVolumesNonNegative(bands: seq<Band>, groups: seq<seq<Charge>>)
    requires FoldedFrom(bands, groups)
    ensures VolumesNonNegative(bands)
  {
    hide Fold;
    forall b | b in bands ensures b.stats.sx >= 0.0 {
      var i :| 0 <= i < |bands| && bands[i] == b;
      FoldCount(groups[i]);
    }
  }

  lemma {:induction false} SumVolumeNonNegative(bands: seq<Band>)
    requires VolumesNonNegative(bands)
    ensures SumBands(bands).sx >= 0.0
  {
    if bands != [] {
      SumVolumeNonNegative(bands[..|bands| - 1]);
    }
  }

  /** The GOOD volume of a split never exceeds the volume it covers. */
  lemma {:induction false} GoodVolumeBounded(scale: AmountScale, bands: seq<Band>, parts: seq<Piece>, j: nat)
    requires j <= |bands| && Tiles(parts, j) && InRange(parts, |bands|) && VolumesNonNegative(bands)
    ensures GoodVolume(scale, bands, parts) <= SumBands(bands[..j]).sx
  {
    hide SumBands, Grade;
    if parts == [] {
      SumVolumeNonNegative(bands[..j]);
    } else {
      var k := |parts| - 1;
      var last := parts[k];
      GoodVolumeBounded(scale, bands, parts[..k], last.start);
      SumBandsConcat(bands[..last.start], bands[last.start..last.end]);
      assert bands[..last.start] + bands[last.start..last.end] == bands[..j];
      SumVolumeNonNegative(bands[last.start..last.end]);
    }
  }

  lemma KeyVolumeBounded(scale: AmountScale, bands: seq<Band>, k: nat)
    requires Reachable(bands, k) && VolumesNonNegative(bands)
    ensures KeyVolume(scale, bands, k) <= RoundCents(SumBands(bands).sx)
  {
    hide SumBands, GoodVolume, Rebuild, RoundCents;
    var parts := Rebuild(CostOf(bands), k, |bands|);
    RebuildAttains(CostOf(bands), k, |bands|);
    TilesInRange(parts, |bands|);
    GoodVolumeBounded(scale, bands, parts, |bands|);
    assert bands[..|bands|] == bands;
    RoundCentsMonotone(GoodVolume(scale, bands, parts), SumBands(bands).sx);
  }

  /** A split into `k` pieces that are all GOOD keeps the chosen count at `k` or below. */
  lemma AllGoodSplitWins(scale: AmountScale, bands: seq<Band>, k: nat)
    requires 1 <= k <= MAX_SEGMENTS && bands != [] && VolumesNonNegative(bands)
    requires Reachable(bands, k) && KeyVolume(scale, bands, k) == RoundCents(SumBands(bands).sx)
    ensures var c := Choose(scale, bands, MAX_SEGMENTS);
            1 <= c <= k && KeyVolume(scale, bands, c) == RoundCents(SumBands(bands).sx)
  {
    hide SumBands, KeyVolume, RoundCents, Reachable;
    var c := Choose(scale, bands, MAX_SEGMENTS);
    ChooseIsBest(scale, bands, MAX_SEGMENTS, k);
    KeyVolumeBounded(scale, bands, c);
  }

  /** The single-piece entry of the table. */
  lemma OnePiece(bands: seq<Band>)
    requires bands != [] && StatsCost(SumBands(bands)).Some?
    ensures Reachable(bands, 1) && Rebuild(CostOf(bands), 1, |bands|) == [Piece(0, |bands|)]
  {
    hide StatsCost, SumBands;
    var m := |bands|;
    assert bands[0..m] == bands;
    var one := [Piece(0, m)];
    assert one[..0] == [];
    assert Tiles(one[..0], 0);
    LeastIsLowerBound(CostOf(bands), 1, m, one);
    assert Rebuild(CostOf(bands), 0, Scan(CostOf(bands), 1, m, m).back) == [];
  }

  lemma OnePieceVolume(scale: AmountScale, bands: seq<Band>)
    requires bands != []
    ensures InRange([Piece(0, |bands|)], |bands|)
    ensures GoodVolume(scale, bands, [Piece(0, |bands|)])
         == if Grade(scale, SumBands(bands), bands).Good? then SumBands(bands).sx else 0.0
  {
    hide SumBands, Grade;
    var one := [Piece(0, |bands|)];
    assert one[..0] == [];
    assert bands[0..|bands|] == bands;
  }

  lemma GoodIsFeasible(scale: AmountScale, bands: seq<Band>)
    requires Grade(scale, SumBands(bands), bands).Good?
    ensures bands != [] && StatsCost(SumBands(bands)).Some?
  {
    hide Accurate, SlopePinned, ProportionalQ;
  }

  /** Some split has more rounded GOOD volume than the whole cluster has volume, which takes a band of
      negative volume. */
  ghost predicate CutGains(scale: AmountScale, bands: seq<Band>) {
    exists k :: 2 <= k <= MAX_SEGMENTS && Reachable(bands, k)
             && KeyVolume(scale, bands, k) > RoundCents(SumBands(bands).sx)
  }

  lemma NonNegativeNeverGains(scale: AmountScale, bands: seq<Band>)
    requires VolumesNonNegative(bands)
    ensures !CutGains(scale, bands)
  {
    hide KeyVolume, RoundCents, SumBands, Reachable;
    if k :| 2 <= k <= MAX_SEGMENTS && Reachable(bands, k)
            && KeyVolume(scale, bands, k) > RoundCents(SumBands(bands).sx) {
      KeyVolumeBounded(scale, bands, k);
    }
  }

  /** The chosen count for a cluster graded Good as one piece. */
  lemma ChosenForGood(scale: AmountScale, bands: seq<Band>)
    requires Grade(scale, SumBands(bands), bands).Good?
    ensures bands != []
    ensures var c := Choose(scale, bands, MAX_SEGMENTS);
            && 1 <= c && (c == 1 <==> !CutGains(scale, bands))
            && (c == 1 ==> Partitions(scale, bands) == [Piece(0, |bands|)])
            && (c > 1 ==> KeyVolume(scale, bands, c) > RoundCents(SumBands(bands).sx))
  {
    hide SumBands, Grade, RoundCents, GoodVolume, StatsCost;
    GoodIsFeasible(scale, bands);
    OnePiece(bands);
    OnePieceVolume(scale, bands);
    hide KeyVolume, Reachable;
    assert KeyVolume(scale, bands, 1) == RoundCents(SumBands(bands).sx) by { KeyOfOne(scale, bands); }
    ChooseIsBest(scale, bands, MAX_SEGMENTS, 1);
    if k :| 2 <= k <= MAX_SEGMENTS && Reachable(bands, k)
            && KeyVolume(scale, bands, k) > RoundCents(SumBands(bands).sx) {
      ChooseIsBest(scale, bands, MAX_SEGMENTS, k);
    }
  }

  lemma KeyOfOne(scale: AmountScale, bands: seq<Band>)
    requires Reachable(bands, 1) && Rebuild(CostOf(bands), 1, |bands|) == [Piece(0, |bands|)]
    requires bands != [] && Grade(scale, SumBands(bands), bands).Good?
    ensures KeyVolume(scale, bands, 1) == RoundCents(SumBands(bands).sx)
  {
    hide SumBands, Grade, RoundCents, GoodVolume, Rebuild;
    OnePieceVolume(scale, bands);
  }

  /** A cluster that one line already grades Good comes back as that one piece, if and only if no cut
      gains; without negative volumes none does. */
  lemma GoodGradeStaysWhole(scale: AmountScale, bands: seq<Band>)
    ensures Grade(scale, SumBands(bands), bands).Good? ==>
              && (|SegmentCluster(scale, bands)| == 1 <==> !CutGains(scale, bands))
              && (|SegmentCluster(scale, bands)| == 1 ==> Partitions(scale, bands) == [Piece(0, |bands|)])
    ensures VolumesNonNegative(bands) ==> !CutGains(scale, bands)
  {
    hide SumBands, Grade, SegmentOf, CutGains, KeyVolume, SegmentCluster;
    if VolumesNonNegative(bands) {
      NonNegativeNeverGains(scale, bands);
    }
    if Grade(scale, SumBands(bands), bands).Good? {
      ChosenForGood(scale, bands);
      SegmentOfPiece(scale, bands, 0);
      RebuildAttains(CostOf(bands), Choose(scale, bands, MAX_SEGMENTS), |bands|);
    }
  }

  /** What the early `continue` skips: a cluster the gate calls Good would be surfaced if and only if
      some cut gains and the cluster's volume is positive. */
  lemma GoodClusterStaysWhole(scale: AmountScale, bands: seq<Band>)
    ensures WholeVerdict(scale, bands).Good? ==>
              && (|SegmentCluster(scale, bands)| == 1 <==> !CutGains(scale, bands))
              && (IsCleanRecovery(SegmentCluster(scale, bands)) <==>
                    CutGains(scale, bands) && SumBands(bands).sx > 0.0)
    ensures VolumesNonNegative(bands) ==> !CutGains(scale, bands)
  {
    hide SumBands, Grade, SegmentCluster, CutGains, GoodPart, TotalVolume, KeyVolume;
    GateAgreesWithGrade(scale, bands);
    GoodGradeStaysWhole(scale, bands);
    if WholeVerdict(scale, bands).Good? {
      ChosenForGood(scale, bands);
      VolumeConserved(scale, bands);
      SegmentOfPiece(scale, bands, 0);
      if CutGains(scale, bands) {
        var segs := SegmentCluster(scale, bands);
        GainIsGood(scale, bands);
        if SumBands(bands).sx > 0.0 {
          AllIsNinetyPercent(GoodPart(segs), TotalVolume(segs));
        }
      }
    }
  }

  lemma GainIsGood(scale: AmountScale, bands: seq<Band>)
    requires bands != [] && Choose(scale, bands, MAX_SEGMENTS) > 1
    requires KeyVolume(scale, bands, Choose(scale, bands, MAX_SEGMENTS)) > RoundCents(SumBands(bands).sx)
    ensures |SegmentCluster(scale, bands)| > 1
    ensures GoodPart(SegmentCluster(scale, bands)) > SumBands(bands).sx
  {
    hide SumBands, GoodVolume, SegmentCluster, GoodPart, RoundCents, Rebuild;
    var c := Choose(scale, bands, MAX_SEGMENTS);
    VolumeConserved(scale, bands);
    SegmentOfPiece(scale, bands, 0);
    RebuildAttains(CostOf(bands), c, |bands|);
    if GoodPart(SegmentCluster(scale, bands)) <= SumBands(bands).sx {
      RoundCentsMonotone(GoodPart(SegmentCluster(scale, bands)), SumBands(bands).sx);
    }
  }

  lemma AllIsNinetyPercent(good: real, total: real)
    requires good >= total > 0.0
    ensures good / total >= 0.9
  {
    var r := good / total;
    assert r * total == good;
    assert (r - 1.0) * total >= 0.0;
  }

  // ---------------------------------------------------------------------------------------------
  // An input on which a cut gains
  // ---------------------------------------------------------------------------------------------

  /** Sums whose fitted line is zero, with this much squared relative error. */
  function FreeSums(n: real, volume: real, squares: real, error: real): SuffStats {
    SuffStats(n, volume, 0.0, squares, 0.0, 0.0, 0.0, 0.0, 0.0, 0.0, error)
  }

  lemma FreeSumsFit(n: real, volume: real, squares: real, error: real)
    requires n >= 25.0 && n * squares - volume * volume > 0.0 && error >= 0.0
    ensures var s := FreeSums(n, volume, squares, error);
            && Fit(s) == Line(0.0, 0.0) && BpsSquared(0.0, 0.0, s) == error / n * 100000000.0
            && StatsCost(s) == Some(error)
  {
  }

  /** The grade of such sums with 200 transactions, and when they are inaccurate. */
  lemma FreeSumsGrade(scale: AmountScale, bands: seq<Band>, n: real, volume: real, squares: real, error: real)
    requires IsAmountScale(scale) && SumBands(bands) == FreeSums(n, volume, squares, error)
    requires n >= 25.0 && n * squares - volume * volume > 0.0 && error >= 0.0
    ensures error / n * 100000000.0 > MAX_BPS_SQUARED ==> Grade(scale, SumBands(bands), bands).NonLinear?
    ensures error / n * 100000000.0 <= MAX_BPS_SQUARED && n >= MIN_N ==> Grade(scale, SumBands(bands), bands).Good?
  {
    hide Fit, BpsSquared, SumBands, SplitRegime;
    FreeSumsFit(n, volume, squares, error);
    RegimesAddUp(scale, bands, 0.0);
    NothingBelowZero(scale, bands);
    var above := SplitRegime(scale, bands, 0.0).1;
    assert ZERO.Plus(above) == above;
  }

  /** 25 inaccurate transactions with a volume of -1 beside 300 accurate ones with a volume of 3000. */
  function OddBands(): seq<Band> {
    [Band(0, FreeSums(25.0, -1.0, 1.0, 0.0001)), Band(1, FreeSums(300.0, 3000.0, 60000.0, 0.0))]
  }

  lemma OddSums()
    ensures SumBands(OddBands()) == FreeSums(325.0, 2999.0, 60001.0, 0.0001)
    ensures SumBands(OddBands()[0..1]) == FreeSums(25.0, -1.0, 1.0, 0.0001)
    ensures SumBands(OddBands()[1..2]) == FreeSums(300.0, 3000.0, 60000.0, 0.0)
    ensures |OddBands()| == 2
  {
    var a, b := OddBands()[0], OddBands()[1];
    assert OddBands()[0..1] == [a] && OddBands()[1..2] == [b] && OddBands()[..1] == [a];
    assert [a][..0] == [] && [b][..0] == [];
    assert SumBands([a]) == a.stats && SumBands([b]) == b.stats;
  }

  lemma OddGrades(scale: AmountScale)
    requires IsAmountScale(scale)
    ensures |OddBands()| == 2
    ensures WholeVerdict(scale, OddBands()).Good?
    ensures !Grade(scale, SumBands(OddBands()[0..1]), OddBands()[0..1]).Good?
    ensures Grade(scale, SumBands(OddBands()[1..2]), OddBands()[1..2]).Good?
    ensures StatsCost(SumBands(OddBands()[0..1])).Some? && StatsCost(SumBands(OddBands()[1..2])).Some?
  {
    hide Grade, SumBands, OddBands, Fit, IsAmountScale, WholeVerdict, StatsCost;
    OddSums();
    var bands := OddBands();
    FreeSumsGrade(scale, bands, 325.0, 2999.0, 60001.0, 0.0001);
    GateAgreesWithGrade(scale, bands);
    FreeSumsGrade(scale, bands[0..1], 25.0, -1.0, 1.0, 0.0001);
    FreeSumsGrade(scale, bands[1..2], 300.0, 3000.0, 60000.0, 0.0);
    FreeSumsFit(25.0, -1.0, 1.0, 0.0001);
    FreeSumsFit(300.0, 3000.0, 60000.0, 0.0);
  }

  /** Two bands have only one split into two pieces. */
  lemma SplitOfTwo(scale: AmountScale, bands: seq<Band>)
    requires |bands| == 2
    requires StatsCost(SumBands(bands[0..1])).Some? && StatsCost(SumBands(bands[1..2])).Some?
    requires !Grade(scale, SumBands(bands[0..1]), bands[0..1]).Good?
    requires Grade(scale, SumBands(bands[1..2]), bands[1..2]).Good?
    ensures Reachable(bands, 2) && KeyVolume(scale, bands, 2) == RoundCents(SumBands(bands[1..2]).sx)
  {
    hide SumBands, Grade, StatsCost, RoundCents, Rebuild;
    var parts := [Piece(0, 1), Piece(1, 2)];
    assert parts[..1] == [Piece(0, 1)] && parts[..1][..0] == [];
    assert Tiles([], 0) && SplitCost(CostOf(bands), []) == Some(0.0);
    LeastIsLowerBound(CostOf(bands), 2, 2, parts);
    RebuildAttains(CostOf(bands), 2, 2);
    var rebuilt := Rebuild(CostOf(bands), 2, 2);
    assert Tiles(rebuilt[..1], rebuilt[1].start);
    assert Tiles(rebuilt[..1][..0], rebuilt[0].start);
    assert rebuilt == parts;
    assert InRange(parts[..1], 2) && GoodVolume(scale, bands, parts[..1]) == 0.0;
  }

  /** A cluster that the gate calls Good, with one band of negative volume, would be cut and surfaced. */
  lemma NegativeVolumeIsCut(scale: AmountScale)
    requires IsAmountScale(scale)
    ensures WholeVerdict(scale, OddBands()).Good? && IsCleanRecovery(SegmentCluster(scale, OddBands()))
  {
    hide WholeVerdict, Grade, SegmentCluster, KeyVolume, SumBands, Reachable, OddBands, IsAmountScale, StatsCost;
    hide IsCleanRecovery;
    OddSums();
    OddGrades(scale);
    SplitOfTwo(scale, OddBands());
    assert CutGains(scale, OddBands());
    GoodClusterStaysWhole(scale, OddBands());
  }
}
