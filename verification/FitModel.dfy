/**
 The published model of `src/cost_ingestion/fit.rs`: one row per cluster, fitted over the cluster's
 adaptive window, and what it means for the transactions behind the daily rows.
 */
module FitModel {
  import opened Options
  import opened Sequences
  import opened SufficientStats
  import opened CostTypes
  import opened LeastSquares
  import opened Grading
  import opened Rollup
  import opened FitSql
  import opened Segmentation

  type Model = map<ClusterKey, ModelRow>

  /** The bands a cluster is fitted on. */
  function ModelBands(rows: seq<DailyRow>, c: ClusterKey): seq<Band> {
    BandTable(rows, AdaptiveSelection(rows, WindowOf(rows), c))
  }

  /** The bands the segmenter's query returns for the cluster. */
  function SegmentBands(rows: seq<DailyRow>, c: ClusterKey): seq<Band> {
    BandTable(rows, BaseSelection(WindowOf(rows), c))
  }

  function Clusters(rows: seq<DailyRow>): set<ClusterKey> {
    set r | r in rows && r.key.day >= WindowOf(rows).maxStart :: r.key.cluster
  }

  /** The rows `FIT_SQL` inserts for one snapshot. */
  function FitTable(scale: AmountScale, rows: seq<DailyRow>): Model {
    map c | c in Clusters(rows) :: FitBands(scale, ModelBands(rows, c))
  }

  lemma FitKeys(scale: AmountScale, rows: seq<DailyRow>)
    ensures FitTable(scale, rows).Keys == Clusters(rows)
  {
    hide FitBands, Clusters;
  }

  lemma {:induction false} NothingSelected(rows: seq<DailyRow>, sel: KeySelection)
    requires forall r :: r in rows ==> !sel(r.key)
    ensures SumWhere(rows, sel) == ZERO
  {
    if rows != [] {
      assert rows[|rows| - 1] in rows;
      NothingSelected(rows[..|rows| - 1], sel);
    }
  }

  /** The window of a cluster, as a selection of keys. */
  function WindowSelection(rows: seq<DailyRow>, c: ClusterKey): KeySelection {
    (k: BucketKey) => InWindow(rows, c, k)
  }

  function BaseWindowSelection(rows: seq<DailyRow>, c: ClusterKey): KeySelection {
    (k: BucketKey) => InBaseWindow(rows, c, k)
  }

  /** The bands both queries work on: ascending, one for each band of a row in the window, with the sums of
      the window's rows of that band. */
  lemma BandsMeaning(rows: seq<DailyRow>, c: ClusterKey, index: int)
    ensures Ascending(ModelBands(rows, c)) && Ascending(SegmentBands(rows, c))
    ensures HasIndex(ModelBands(rows, c), index) <==>
            exists r :: r in rows && InWindow(rows, c, r.key) && r.key.band == index
    ensures HasIndex(SegmentBands(rows, c), index) <==>
            exists r :: r in rows && InBaseWindow(rows, c, r.key) && r.key.band == index
    ensures BandAt(ModelBands(rows, c), index) == SumWhere(rows, BandSelection(WindowSelection(rows, c), index))
    ensures BandAt(SegmentBands(rows, c), index) == SumWhere(rows, BandSelection(BaseWindowSelection(rows, c), index))
  {
    hide BandTable, BandAt, SumWhere, HasIndex, InWindow, InBaseWindow, KeptDay;
    WindowBands(rows, c);
    BandTableSpec(rows, WindowSelection(rows, c), index);
    BandTableSpec(rows, BaseWindowSelection(rows, c), index);
    BandTableIndices(rows, WindowSelection(rows, c), index);
    BandTableIndices(rows, BaseWindowSelection(rows, c), index);
  }

  lemma WindowBands(rows: seq<DailyRow>, c: ClusterKey)
    ensures ModelBands(rows, c) == BandTable(rows, WindowSelection(rows, c))
    ensures SegmentBands(rows, c) == BandTable(rows, BaseWindowSelection(rows, c))
  {
    hide BandTable, InWindow, InBaseWindow, KeptDay;
    forall r | r in rows
      ensures AdaptiveSelection(rows, WindowOf(rows), c)(r.key) == InWindow(rows, c, r.key)
      ensures BaseSelection(WindowOf(rows), c)(r.key) == InBaseWindow(rows, c, r.key)
    {
      WindowMeaning(rows, c, r.key);
    }
    BandTableCongruent(rows, AdaptiveSelection(rows, WindowOf(rows), c), WindowSelection(rows, c));
    BandTableCongruent(rows, BaseSelection(WindowOf(rows), c), BaseWindowSelection(rows, c));
  }

  /** A cluster is fitted when it has a row no more than 365 days before any row of the source; it then has
      one in its window. */
  lemma EveryClusterKeepsADay(rows: seq<DailyRow>, c: ClusterKey)
    requires CountsNonNegative(rows)
    ensures c in Clusters(rows) <==>
            exists r :: r in rows && r.key.cluster == c && forall x :: x in rows ==> x.key.day - r.key.day <= 365
    ensures c in Clusters(rows) <==> exists r :: r in rows && InWindow(rows, c, r.key)
  {
    var w := WindowOf(rows);
    if c in Clusters(rows) {
      var r :| r in rows && r.key.cluster == c && r.key.day >= w.maxStart;
      assert forall x :: x in rows ==> x.key.day - r.key.day <= 365;
      if KeptDay(rows, w, c, r.key.day) {
        WindowMeaning(rows, c, r.key);
      } else {
        assert HasDay(rows, w, c, r.key.day);
        var d := LatestDropped(rows, rows, w, c, r.key.day);
        if forall x :: x in rows ==> !LaterSelection(w, c, d)(x.key) {
          NothingSelected(rows, LaterSelection(w, c, d));
          assert false;
        }
        var x :| x in rows && LaterSelection(w, c, d)(x.key);
        assert AdaptiveSelection(rows, w, c)(x.key);
        WindowMeaning(rows, c, x.key);
      }
    }
    forall r | r in rows && r.key.cluster == c && forall x :: x in rows ==> x.key.day - r.key.day <= 365
      ensures c in Clusters(rows)
    {
      assert r.key.day >= w.maxStart;
    }
  }

  /** The fit is empty exactly when the table holds no daily row at all. */
  lemma FitEmptyIffNoData(scale: AmountScale, rows: seq<DailyRow>)
    ensures FitTable(scale, rows) == map[] <==> rows == []
  {
    if rows != [] {
      var d := LatestDay(rows);
      var r :| r in rows && r.key.day == d;
      assert r.key.cluster in Clusters(rows);
      assert r.key.cluster in FitTable(scale, rows);
    } else {
      assert Clusters(rows) == {};
    }
  }

  // ---------------------------------------------------------------------------------------------
  // Daily rows that come from transactions
  // ---------------------------------------------------------------------------------------------

  /** Each daily row holds the sums of its own transactions. */
  ghost predicate RowsFold(rows: seq<DailyRow>, txs: seq<seq<Charge>>) {
    && |rows| == |txs|
    && forall i :: 0 <= i < |rows| ==> rows[i].stats == Fold(txs[i])
  }

  /** The transactions behind the selected rows. */
  ghost function Collect(rows: seq<DailyRow>, txs: seq<seq<Charge>>, sel: KeySelection): seq<Charge>
    requires |rows| == |txs|
  {
    if rows == [] then []
    else
      var n := |rows| - 1;
      Collect(rows[..n], txs[..n], sel) + (if sel(rows[n].key) then txs[n] else [])
  }

  lemma {:induction false} CollectSum(rows: seq<DailyRow>, txs: seq<seq<Charge>>, sel: KeySelection)
    requires RowsFold(rows, txs)
    ensures SumWhere(rows, sel) == Fold(Collect(rows, txs, sel))
  {
    hide Fold, SuffStats.Plus;
    if rows == [] {
      assert Fold([]) == ZERO by { FoldNothing(); }
    } else {
      var n := |rows| - 1;
      CollectSum(rows[..n], txs[..n], sel);
      var before := Collect(rows[..n], txs[..n], sel);
      FoldConcat(before, txs[n]);
      assert before + [] == before;
    }
  }

  lemma RowsFoldCounts(rows: seq<DailyRow>, txs: seq<seq<Charge>>)
    requires RowsFold(rows, txs)
    ensures CountsNonNegative(rows)
  {
    hide Fold;
    forall r | r in rows ensures r.stats.n >= 0.0 {
      var i :| 0 <= i < |rows| && rows[i] == r;
      FoldCount(txs[i]);
    }
  }

  ghost function BandGroups(rows: seq<DailyRow>, txs: seq<seq<Charge>>, sel: KeySelection): seq<seq<Charge>>
    requires |rows| == |txs|
  {
    var bands := BandTable(rows, sel);
    seq(|bands|, i requires 0 <= i < |bands| => Collect(rows, txs, BandSelection(sel, bands[i].index)))
  }

  /** The bands of any selection are themselves folded from transactions. */
  lemma BandsAreFolded(rows: seq<DailyRow>, txs: seq<seq<Charge>>, sel: KeySelection)
    requires RowsFold(rows, txs)
    ensures FoldedFrom(BandTable(rows, sel), BandGroups(rows, txs, sel))
  {
    hide BandTable, Fold, Collect, SumWhere;
    var bands := BandTable(rows, sel);
    forall i | 0 <= i < |bands| ensures bands[i].stats == Fold(BandGroups(rows, txs, sel)[i]) {
      BandTableSpec(rows, sel, bands[i].index);
      BandAtIndex(bands, i);
      CollectSum(rows, txs, BandSelection(sel, bands[i].index));
    }
  }

  // ---------------------------------------------------------------------------------------------
  // The published line
  // ---------------------------------------------------------------------------------------------

  /** The line of a selection of rows, as the SQL computes it, is the one `Fit` gives on the raw fold. */
  lemma SqlLineOfRaw(rows: seq<DailyRow>, sel: KeySelection, txs: seq<Charge>)
    requires SumWhere(rows, sel) == Fold(txs)
    ensures SqlLine(SumBands(BandTable(rows, sel))) == Fit(Fold(txs))
  {
    hide BandTable, SumWhere, Fold, Denom, SumBands;
    BandTableSum(rows, sel);
    CauchySchwarz(txs);
    FoldCount(txs);
    if |txs| < 2 {
      FewDoNotVary(txs);
    }
  }

  /** The model row counts these transactions and carries their line: no other line `(a, b)` does as well,
      and it is missing exactly when the transactions determine none. */
  ghost predicate IsLineOf(m: ModelRow, txs: seq<Charge>, a: real, b: real) {
    && m.n == |txs| as real && m.grossSum == Fold(txs).sx
    && (m.fixed.None? <==> |txs| < 2 || !AmountsVary(txs))
    && (m.fixed.None? <==> m.pctBps.None?)
    && (m.fixed.Some? ==>
        var slope := m.pctBps.value / 10000.0;
        && SquaredError(txs, m.fixed.value, slope) <= SquaredError(txs, a, b)
        && (SquaredError(txs, m.fixed.value, slope) == SquaredError(txs, a, b) ==> a == m.fixed.value && b == slope))
  }

  lemma WindowSum(rows: seq<DailyRow>, c: ClusterKey)
    ensures SumWhere(rows, AdaptiveSelection(rows, WindowOf(rows), c)) == SumWhere(rows, WindowSelection(rows, c))
  {
    hide InWindow, KeptDay, SumWhere;
    forall r | r in rows ensures AdaptiveSelection(rows, WindowOf(rows), c)(r.key) == InWindow(rows, c, r.key) {
      WindowMeaning(rows, c, r.key);
    }
    SumWhereCongruent(rows, AdaptiveSelection(rows, WindowOf(rows), c), WindowSelection(rows, c));
  }

  /** The published rate and fixed fee are the unique least-squares line of the transactions in the
      cluster's window. */
  lemma PublishedLineIsLeastSquares(
    scale: AmountScale, rows: seq<DailyRow>, c: ClusterKey, txs: seq<Charge>, a: real, b: real)
    requires c in Clusters(rows)
    requires SumWhere(rows, WindowSelection(rows, c)) == Fold(txs)
    ensures IsLineOf(FitTable(scale, rows)[c], txs, a, b)
  {
    hide BandTable, SumWhere, Fold, Fit, SqlLine, SumBands, SqlVerdict, SqlAbove, SquaredError, AmountsVary,
         Clusters, AdaptiveSelection, WindowSelection;
    var sel := AdaptiveSelection(rows, WindowOf(rows), c);
    WindowSum(rows, c);
    SqlLineOfRaw(rows, sel, txs);
    BandTableSum(rows, sel);
    FoldCount(txs);
    FitDefinedExactly(txs);
    if Fit(Fold(txs)).Line? {
      FitIsUniqueMinimiser(txs, a, b);
    }
  }

  /** The whole published row on the transactions behind its window's bands, the verdict and the error of the
      line above its crossover included. */
  lemma PublishedRowMeaning(
    scale: AmountScale, rows: seq<DailyRow>, txs: seq<seq<Charge>>, c: ClusterKey, a: real, b: real)
    requires RowsFold(rows, txs) && c in Clusters(rows)
    ensures var bands, groups := ModelBands(rows, c), BandGroups(rows, txs, WindowSelection(rows, c));
            && FoldedFrom(bands, groups)
            && ((AmountsVary(Flatten(groups)) ==> IsLeastSquares(Flatten(groups), a, b)) ==>
                 IsRowOf(scale, bands, groups, FitTable(scale, rows)[c], a, b))
  {
    hide BandTable, BandGroups, IsRowOf, AmountsVary, IsLeastSquares, Flatten, FitBands, Clusters, WindowSelection;
    WindowBands(rows, c);
    BandsAreFolded(rows, txs, WindowSelection(rows, c));
    var bands, groups := ModelBands(rows, c), BandGroups(rows, txs, WindowSelection(rows, c));
    if AmountsVary(Flatten(groups)) ==> IsLeastSquares(Flatten(groups), a, b) {
      FitBandsMeaning(scale, bands, groups, a, b);
    }
  }

  // ---------------------------------------------------------------------------------------------
  // A GOOD model row and tiers exclude each other
  // ---------------------------------------------------------------------------------------------

  /** With 200 transactions in the base window both graders see the same bands. */
  lemma SameBands(rows: seq<DailyRow>, c: ClusterKey)
    requires CountsNonNegative(rows) && SumBands(SegmentBands(rows, c)).n >= 200.0
    ensures ModelBands(rows, c) == SegmentBands(rows, c)
  {
    hide SumBands;
    var w := WindowOf(rows);
    BandTableSum(rows, BaseSelection(w, c));
    AdaptiveIsBase(rows, w, c);
    BandTableCongruent(rows, AdaptiveSelection(rows, w, c), BaseSelection(w, c));
  }

  /** Bands read from daily rows that hold the sums of transactions have no negative volume, so no cut of a
      Good cluster ever gains and the segmenter's gate loses nothing. */
  lemma StoredBandsNeverGain(scale: AmountScale, rows: seq<DailyRow>, txs: seq<seq<Charge>>, c: ClusterKey)
    requires RowsFold(rows, txs)
    ensures VolumesNonNegative(SegmentBands(rows, c)) && !CutGains(scale, SegmentBands(rows, c))
  {
    hide BandTable, SumBands, CutGains;
    var sel := BaseSelection(WindowOf(rows), c);
    BandsAreFolded(rows, txs, sel);
    FoldedVolumesNonNegative(SegmentBands(rows, c), BandGroups(rows, txs, sel));
    NonNegativeNeverGains(scale, SegmentBands(rows, c));
  }

  /** If the base window holds at least 200 transactions of a cluster, a GOOD verdict in the snapshot
      means the Rust gate also says Good, so the cluster gets no segment rows. */
  lemma GoodModelHasNoTiers(scale: AmountScale, rows: seq<DailyRow>, txs: seq<seq<Charge>>, c: ClusterKey)
    requires RowsFold(rows, txs) && c in Clusters(rows)
    requires SumBands(SegmentBands(rows, c)).n >= 200.0
    requires FitTable(scale, rows)[c].verdict.Good?
    ensures WholeVerdict(scale, SegmentBands(rows, c)).Good?
    ensures !IsCleanRecovery(SegmentCluster(scale, SegmentBands(rows, c)))
  {
    hide BandTable, SumBands, SqlVerdict, WholeVerdict, FixedFeeOnly, SqlAbove, SqlLine, SegmentCluster;
    RowsFoldCounts(rows, txs);
    SameBands(rows, c);
    var sel := BaseSelection(WindowOf(rows), c);
    var bands := SegmentBands(rows, c);
    BandsAreFolded(rows, txs, sel);
    GradersAgree(scale, bands, BandGroups(rows, txs, sel));
    FoldedVolumesNonNegative(bands, BandGroups(rows, txs, sel));
    GoodClusterStaysWhole(scale, bands);
  }
}
