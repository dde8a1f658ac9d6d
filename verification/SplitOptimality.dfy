/**
 What `segment_partitions` of `src/cost_ingestion/segment.rs` minimises and selects, on the raw
 transactions behind the bands.

 Main results: no split into equally many feasible pieces has a smaller squared relative error around its
 pieces' least-squares lines than the one returned (`NoSplitIsCheaper`), and the number of pieces is the
 smallest of one to five whose cheapest split has the most GOOD volume (`SplitIsSelected`).
 */
module SplitOptimality {
  import opened Options
  import opened Sequences
  import opened Rounding
  import opened SufficientStats
  import opened LeastSquares
  import opened Grading
  import opened MinimumSplit
  import opened Partition
  import opened Segmentation

  /** A piece needs 25 transactions and two different amounts. */
  ghost predicate Feasible(txs: seq<Charge>) {
    |txs| >= 25 && AmountsVary(txs)
  }

  lemma LineExists(txs: seq<Charge>) returns (a: real, b: real)
    requires Feasible(txs)
    ensures IsLeastSquares(txs, a, b) && Fit(Fold(txs)) == Line(b, a)
  {
    hide Fit, Fold, AmountsVary, IsLeastSquares;
    FitDefinedExactly(txs);
    FitIsLeastSquares(txs);
    a, b := Fit(Fold(txs)).intercept, Fit(Fold(txs)).slope;
  }

  /** The squared relative error of the transactions around their least-squares line. */
  ghost predicate IsLineError(txs: seq<Charge>, e: real) {
    forall a, b :: IsLeastSquares(txs, a, b) ==> e == RelativeError(txs, a, b)
  }

  ghost function LineError(txs: seq<Charge>): (e: real)
    requires Feasible(txs)
    ensures IsLineError(txs, e)
  {
    LineErrorExists(txs);
    var e :| IsLineError(txs, e);
    e
  }

  lemma LineErrorExists(txs: seq<Charge>)
    requires Feasible(txs)
    ensures exists e :: IsLineError(txs, e)
  {
    hide Fit, Fold, RelativeError, AmountsVary, IsLeastSquares;
    var a, b := LineExists(txs);
    FitIsLeastSquares(txs);
    assert IsLineError(txs, RelativeError(txs, a, b));
  }

  /** What the table charges for a range of bands: nothing but the squared relative error of its
      transactions around their own least-squares line, and infinite exactly when there is no such line or
      there are too few transactions. */
  lemma CostMeaning(bands: seq<Band>, groups: seq<seq<Charge>>, i: nat, j: nat)
    requires FoldedFrom(bands, groups) && i <= j <= |bands|
    ensures var txs := Flatten(groups[i..j]);
            CostOf(bands)(i, j) == if Feasible(txs) then Some(LineError(txs)) else None
  {
    hide Fit, Fold, ProportionalQ, RelativeError, AmountsVary, IsLeastSquares, SumBands, Flatten, LineError;
    var txs := Flatten(groups[i..j]);
    SumBandsIsFold(bands[i..j], groups[i..j]);
    FoldCount(txs);
    FitDefinedExactly(txs);
    if Feasible(txs) {
      var a, b := LineExists(txs);
      ProportionalQIsRelativeError(txs, a, b);
      ErrorsNonNegative(txs, a, b);
      assert IsLineError(txs, LineError(txs));
    }
  }

  ghost predicate FeasibleSplit(groups: seq<seq<Charge>>, parts: seq<Piece>) {
    InRange(parts, |groups|) && forall p :: p in parts ==> Feasible(Flatten(groups[p.start..p.end]))
  }

  /** The total over the pieces. */
  ghost function SplitError(groups: seq<seq<Charge>>, parts: seq<Piece>): real
    requires FeasibleSplit(groups, parts)
  {
    if parts == [] then 0.0
    else
      var last := parts[|parts| - 1];
      SplitError(groups, parts[..|parts| - 1]) + LineError(Flatten(groups[last.start..last.end]))
  }

  lemma {:induction false} SplitCostMeaning(bands: seq<Band>, groups: seq<seq<Charge>>, parts: seq<Piece>)
    requires FoldedFrom(bands, groups) && InRange(parts, |bands|)
    ensures SplitCost(CostOf(bands), parts)
         == if FeasibleSplit(groups, parts) then Some(SplitError(groups, parts)) else None
  {
    hide CostOf, Feasible, LineError, Flatten, Fold;
    if parts != [] {
      var init, last := parts[..|parts| - 1], parts[|parts| - 1];
      assert parts == init + [last];
      SplitCostMeaning(bands, groups, init);
      CostMeaning(bands, groups, last.start, last.end);
    }
  }

  /** A count of pieces is reachable exactly when the bands can be cut into that many feasible pieces. */
  lemma ReachableMeaning(bands: seq<Band>, groups: seq<seq<Charge>>, k: nat)
    requires FoldedFrom(bands, groups)
    ensures Reachable(bands, k) <==>
            exists parts :: |parts| == k && Tiles(parts, |bands|) && FeasibleSplit(groups, parts)
  {
    hide CostOf, Least, Rebuild, FeasibleSplit, Fold;
    var m := |bands|;
    if Reachable(bands, k) {
      RebuildAttains(CostOf(bands), k, m);
      var parts := Rebuild(CostOf(bands), k, m);
      TilesInRange(parts, m);
      SplitCostMeaning(bands, groups, parts);
    }
    if parts :| |parts| == k && Tiles(parts, m) && FeasibleSplit(groups, parts) {
      TilesInRange(parts, m);
      SplitCostMeaning(bands, groups, parts);
      LeastIsLowerBound(CostOf(bands), k, m, parts);
    }
  }

  /** Among all cuts into as many feasible pieces, the returned one has the least squared relative error. */
  lemma NoSplitIsCheaper(scale: AmountScale, bands: seq<Band>, groups: seq<seq<Charge>>, other: seq<Piece>)
    requires FoldedFrom(bands, groups) && Tiles(other, |bands|) && FeasibleSplit(groups, other)
    ensures var parts := Partitions(scale, bands);
            |other| == |parts| ==>
              FeasibleSplit(groups, parts) && SplitError(groups, parts) <= SplitError(groups, other)
  {
    hide CostOf, Least, Rebuild, FeasibleSplit, SplitError, Fold, KeyVolume;
    var m := |bands|;
    var parts := Partitions(scale, bands);
    if |other| == |parts| && bands != [] {
      var k := |parts|;
      PartitionsTile(scale, bands);
      ReachableMeaning(bands, groups, k);
      NothingTiles(other, m);
      ChooseIsBest(scale, bands, 5, k);
      var c := Choose(scale, bands, 5);
      RebuildAttains(CostOf(bands), c, m);
      TilesInRange(parts, m);
      TilesInRange(other, m);
      SplitCostMeaning(bands, groups, parts);
      SplitCostMeaning(bands, groups, other);
      LeastIsLowerBound(CostOf(bands), k, m, other);
    } else if bands == [] {
      PartitionsTile(scale, bands);
      assert |other| == |parts| ==> other == parts;
    }
  }

  lemma NothingTiles(parts: seq<Piece>, m: nat)
    requires Tiles(parts, m) && m > 0
    ensures parts != []
  {
  }

  // ---------------------------------------------------------------------------------------------
  // The selection
  // ---------------------------------------------------------------------------------------------

  /** The gross amount in the pieces graded GOOD. */
  ghost function GoodAmount(
    scale: AmountScale, bands: seq<Band>, groups: seq<seq<Charge>>, parts: seq<Piece>): real
    requires |bands| == |groups| && InRange(parts, |bands|)
  {
    if parts == [] then 0.0
    else
      var p := parts[|parts| - 1];
      var piece, txs := bands[p.start..p.end], Flatten(groups[p.start..p.end]);
      GoodAmount(scale, bands, groups, parts[..|parts| - 1])
        + (if GradedGood(scale, piece, groups[p.start..p.end]) then SumOf(txs, (t: Charge) => t.amount) else 0.0)
  }

  /** The piece's transactions are GOOD on their least-squares line. */
  ghost predicate GradedGood(scale: AmountScale, bands: seq<Band>, groups: seq<seq<Charge>>)
    requires |bands| == |groups|
  {
    exists a, b :: IsLeastSquares(Flatten(groups), a, b) && VerdictOn(scale, bands, groups, a, b).Good?
  }

  lemma GradedGoodMeaning(scale: AmountScale, bands: seq<Band>, groups: seq<seq<Charge>>)
    requires FoldedFrom(bands, groups)
    ensures Grade(scale, SumBands(bands), bands).Good? <==> GradedGood(scale, bands, groups)
  {
    hide AmountsVary, IsLeastSquares, Grade, SumBands, Fold, AccurateLine, PinnedOn, Flatten;
    var txs := Flatten(groups);
    if Feasible(txs) {
      var a, b := LineExists(txs);
      VerdictMeaning(scale, bands, groups, a, b);
    } else {
      if AmountsVary(txs) && Grade(scale, SumBands(bands), bands).Good? {
        GoodVerdictMeaning(scale, bands, groups);
      } else if !AmountsVary(txs) {
        VerdictMeaning(scale, bands, groups, 0.0, 0.0);
      }
    }
    forall a, b | IsLeastSquares(txs, a, b) && VerdictOn(scale, bands, groups, a, b).Good?
      ensures Grade(scale, SumBands(bands), bands).Good?
    {
      VerdictMeaning(scale, bands, groups, a, b);
    }
  }

  lemma {:induction false} GoodVolumeMeaning(
    scale: AmountScale, bands: seq<Band>, groups: seq<seq<Charge>>, parts: seq<Piece>)
    requires FoldedFrom(bands, groups) && InRange(parts, |bands|)
    ensures GoodVolume(scale, bands, parts) == GoodAmount(scale, bands, groups, parts)
  {
    hide Grade, GradedGood, SumBands, Fold, Flatten, SumOf;
    if parts != [] {
      var p := parts[|parts| - 1];
      assert p in parts;
      GoodVolumeMeaning(scale, bands, groups, parts[..|parts| - 1]);
      GradedGoodMeaning(scale, bands[p.start..p.end], groups[p.start..p.end]);
      SumBandsIsFold(bands[p.start..p.end], groups[p.start..p.end]);
      FoldSums(Flatten(groups[p.start..p.end]));
    }
  }

  /** The cheapest split of the bands into `k` feasible pieces, of equally cheap ones the one whose last
      piece starts first, and so on towards the front. */
  ghost predicate IsCheapest(groups: seq<seq<Charge>>, parts: seq<Piece>, k: nat, j: nat)
    requires j <= |groups|
    decreases k
  {
    if k == 0 then parts == [] && j == 0
    else
      && |parts| == k && Tiles(parts, j) && FeasibleSplit(groups, parts)
      && (forall other: seq<Piece> :: |other| == k && Tiles(other, j) && FeasibleSplit(groups, other) ==>
            && SplitError(groups, parts) <= SplitError(groups, other)
            && (SplitError(groups, parts) == SplitError(groups, other) ==>
                  parts[k - 1].start <= other[k - 1].start))
      && parts[k - 1].start <= j && IsCheapest(groups, parts[..k - 1], k - 1, parts[k - 1].start)
  }

  /** `other` is a cut of the first `j` bands into as many feasible pieces as `parts`, which costs more or
      ends in a piece that starts no earlier. */
  lemma RebuiltIsFirst(bands: seq<Band>, groups: seq<seq<Charge>>, k: nat, j: nat, other: seq<Piece>)
    requires FoldedFrom(bands, groups) && j <= |bands| && 1 <= k && Least(CostOf(bands), k, j).Some?
    requires |other| == k && Tiles(other, j) && FeasibleSplit(groups, other)
    ensures FeasibleSplit(groups, Rebuild(CostOf(bands), k, j)) && |Rebuild(CostOf(bands), k, j)| == k
    ensures var parts := Rebuild(CostOf(bands), k, j);
            && SplitError(groups, parts) <= SplitError(groups, other)
            && (SplitError(groups, parts) == SplitError(groups, other) ==>
                  parts[k - 1].start <= other[k - 1].start)
  {
    hide CostOf, Least, Scan, Rebuild, FeasibleSplit, SplitError, Fold;
    var cost := CostOf(bands);
    RebuiltIsFeasible(bands, groups, k, j);
    TilesInRange(other, j);
    SplitCostMeaning(bands, groups, other);
    LeastIsLowerBound(cost, k, j, other);
    RebuildStep(cost, k, j);
    LeastIsScan(cost, k, j);
    var last := other[k - 1];
    LeastIsLowerBound(cost, k - 1, last.start, other[..k - 1]);
    if last.start < Scan(cost, k, j, j).back {
      ScanKeepsFirst(cost, k, j, j, last.start);
    }
  }

  lemma RebuiltIsFeasible(bands: seq<Band>, groups: seq<seq<Charge>>, k: nat, j: nat)
    requires FoldedFrom(bands, groups) && j <= |bands| && Least(CostOf(bands), k, j).Some?
    ensures var parts := Rebuild(CostOf(bands), k, j);
            && |parts| == k && Tiles(parts, j) && FeasibleSplit(groups, parts)
            && SplitError(groups, parts) == Least(CostOf(bands), k, j).value
  {
    hide CostOf, Least, Rebuild, FeasibleSplit, SplitError, Fold;
    RebuildAttains(CostOf(bands), k, j);
    TilesInRange(Rebuild(CostOf(bands), k, j), j);
    SplitCostMeaning(bands, groups, Rebuild(CostOf(bands), k, j));
  }

  lemma {:induction false} RebuiltIsCheapest(bands: seq<Band>, groups: seq<seq<Charge>>, k: nat, j: nat)
    requires FoldedFrom(bands, groups) && j <= |bands| && Least(CostOf(bands), k, j).Some?
    ensures IsCheapest(groups, Rebuild(CostOf(bands), k, j), k, j)
  {
    hide CostOf, Least, Scan, Rebuild, FeasibleSplit, SplitError, Fold;
    var cost := CostOf(bands);
    if k == 0 {
      RebuildNothing(cost, j);
    } else {
      RebuildStep(cost, k, j);
      var i := Scan(cost, k, j, j).back;
      RebuiltIsCheapest(bands, groups, k - 1, i);
      RebuiltIsFeasible(bands, groups, k, j);
      var parts := Rebuild(cost, k, j);
      assert parts[..k - 1] == Rebuild(cost, k - 1, i) by { RebuiltIsFeasible(bands, groups, k - 1, i); }
      forall other: seq<Piece> | |other| == k && Tiles(other, j) && FeasibleSplit(groups, other) ensures
        && SplitError(groups, parts) <= SplitError(groups, other)
        && (SplitError(groups, parts) == SplitError(groups, other) ==> parts[k - 1].start <= other[k - 1].start)
      {
        RebuiltIsFirst(bands, groups, k, j, other);
      }
    }
  }

  /** There is only one such split. */
  lemma {:induction false} CheapestIsUnique(
    groups: seq<seq<Charge>>, parts: seq<Piece>, other: seq<Piece>, k: nat, j: nat)
    requires j <= |groups| && IsCheapest(groups, parts, k, j) && IsCheapest(groups, other, k, j)
    ensures parts == other
  {
    hide FeasibleSplit, SplitError;
    if k > 0 {
      assert parts[k - 1].start == other[k - 1].start;
      CheapestIsUnique(groups, parts[..k - 1], other[..k - 1], k - 1, parts[k - 1].start);
      assert parts == parts[..k - 1] + [parts[k - 1]] && other == other[..k - 1] + [other[k - 1]];
    }
  }

  lemma CheapestIsReachable(bands: seq<Band>, groups: seq<seq<Charge>>, k: nat, parts: seq<Piece>)
    requires FoldedFrom(bands, groups) && IsCheapest(groups, parts, k, |bands|) && k > 0
    ensures Reachable(bands, k) && parts == Rebuild(CostOf(bands), k, |bands|)
  {
    hide CostOf, Least, Rebuild, FeasibleSplit, SplitError, Fold, IsCheapest;
    assert |parts| == k && Tiles(parts, |bands|) && FeasibleSplit(groups, parts) by {
      CheapestIsSplit(groups, parts, k, |bands|);
    }
    ReachableMeaning(bands, groups, k);
    RebuiltIsCheapest(bands, groups, k, |bands|);
    CheapestIsUnique(groups, parts, Rebuild(CostOf(bands), k, |bands|), k, |bands|);
  }

  lemma CheapestIsSplit(groups: seq<seq<Charge>>, parts: seq<Piece>, k: nat, j: nat)
    requires j <= |groups| && k > 0 && IsCheapest(groups, parts, k, j)
    ensures |parts| == k && Tiles(parts, j) && FeasibleSplit(groups, parts)
  {
  }

  /** The GOOD amount in whole cents. */
  ghost function GoodCents(
    scale: AmountScale, bands: seq<Band>, groups: seq<seq<Charge>>, parts: seq<Piece>): int
    requires |bands| == |groups| && InRange(parts, |bands|)
  {
    Round(GoodAmount(scale, bands, groups, parts) * 100.0)
  }

  /** What is returned for a cluster with bands: the whole as one piece when no cut into one to five pieces is
      feasible. Otherwise the cheapest split of its own count, and of those of all five counts the one with
      the most GOOD cents, and with equally many the one with the fewest pieces. */
  lemma SplitIsSelected(scale: AmountScale, bands: seq<Band>, groups: seq<seq<Charge>>, k: nat, other: seq<Piece>)
    requires FoldedFrom(bands, groups) && bands != []
    ensures var parts := Partitions(scale, bands);
            && InRange(parts, |bands|) && 1 <= |parts| <= 5
            && (parts == [Piece(0, |bands|)] || IsCheapest(groups, parts, |parts|, |bands|))
            && (1 <= k <= 5 && IsCheapest(groups, other, k, |bands|) ==>
                && IsCheapest(groups, parts, |parts|, |bands|)
                && InRange(other, |bands|)
                && GoodCents(scale, bands, groups, other) <= GoodCents(scale, bands, groups, parts)
                && (k < |parts| ==>
                    GoodCents(scale, bands, groups, other) < GoodCents(scale, bands, groups, parts)))
  {
    hide Least, Rebuild, IsCheapest, GoodAmount, GoodVolume, Fold, RoundCents, Round, CostOf, Tiles;
    var m := |bands|;
    var c, parts := Choose(scale, bands, 5), Partitions(scale, bands);
    PartitionsTile(scale, bands);
    TilesInRange(parts, m);
    if c != 0 {
      RebuiltIsCheapest(bands, groups, c, m);
      RebuildAttains(CostOf(bands), c, m);
      GoodVolumeMeaning(scale, bands, groups, parts);
      RoundIsNearest(GoodVolume(scale, bands, parts));
    }
    if 1 <= k <= 5 && IsCheapest(groups, other, k, m) {
      CheapestIsReachable(bands, groups, k, other);
      RebuildAttains(CostOf(bands), k, m);
      TilesInRange(other, m);
      ChooseIsBest(scale, bands, 5, k);
      GoodVolumeMeaning(scale, bands, groups, other);
      RoundIsNearest(GoodVolume(scale, bands, other));
    }
  }

  /** A cluster is surfaced as tiers exactly when it was cut and its GOOD pieces carry at least nine tenths of
      its gross amount. */
  lemma CleanRecoveryMeaning(scale: AmountScale, bands: seq<Band>, groups: seq<seq<Charge>>)
    requires FoldedFrom(bands, groups)
    ensures var parts := Partitions(scale, bands);
            var total := SumOf(Flatten(groups), (t: Charge) => t.amount);
            && InRange(parts, |bands|)
            && (IsCleanRecovery(SegmentCluster(scale, bands)) <==>
                  |parts| >= 2 && total > 0.0 && 10.0 * GoodAmount(scale, bands, groups, parts) >= 9.0 * total)
  {
    hide SumBands, SegmentCluster, Partitions, GoodVolume, GoodAmount, GoodPart, TotalVolume, Fold, Flatten, SumOf;
    VolumeConserved(scale, bands);
    SegmentOfPiece(scale, bands, 0);
    GoodVolumeMeaning(scale, bands, groups, Partitions(scale, bands));
    SumBandsIsFold(bands, groups);
    FoldSums(Flatten(groups));
    var segs := SegmentCluster(scale, bands);
    if TotalVolume(segs) > 0.0 {
      NineTenths(GoodPart(segs), TotalVolume(segs));
    }
  }

  lemma NineTenths(good: real, total: real)
    requires total > 0.0
    ensures good / total >= 0.9 <==> 10.0 * good >= 9.0 * total
  {
    DivisionCancels(good, total);
    ScaleAtMost(0.9, total, good / total);
  }
}
