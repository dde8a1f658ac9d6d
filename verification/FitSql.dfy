/**
 The semantics of `FIT_SQL` in `src/cost_ingestion/fit.rs`: the adaptive per-cluster window, the
 per-band sums, the whole-cluster line and the SQL grader, over the deduplicated daily rows of one
 (connector, account, merchant).
 */
module FitSql {
  import opened Options
  import opened Sequences
  import opened SufficientStats
  import opened CostTypes
  import opened LeastSquares
  import opened Grading
  import opened Rollup

  const BASE_WINDOW_DAYS := 90
  const MAX_WINDOW_DAYS := 365
  const MIN_SAMPLES := 200.0

  /** First days of the base and of the maximum window. */
  datatype Window = Window(baseStart: int, maxStart: int)

  function LatestDay(rows: seq<DailyRow>): (d: int)
    requires rows != []
    ensures exists r :: r in rows && r.key.day == d
    ensures forall r :: r in rows ==> r.key.day <= d
  {
    var last := rows[|rows| - 1];
    assert last in rows;
    if |rows| == 1 then last.key.day
    else
      var before := LatestDay(rows[..|rows| - 1]);
      assert forall r :: r in rows ==> r in rows[..|rows| - 1] || r == last;
      if last.key.day > before then last.key.day else before
  }

  /** The windows end at the latest transaction in the data; an empty table gets the epoch (day 0). */
  function WindowOf(rows: seq<DailyRow>): Window {
    if rows == [] then Window(0, 0)
    else Window(LatestDay(rows) - BASE_WINDOW_DAYS, LatestDay(rows) - MAX_WINDOW_DAYS)
  }

  // ---------------------------------------------------------------------------------------------
  // The adaptive window
  // ---------------------------------------------------------------------------------------------

  function LaterSelection(w: Window, c: ClusterKey, day: int): KeySelection {
    (k: BucketKey) => k.cluster == c && k.day >= w.maxStart && k.day > day
  }

  /** `cum_n_before`: the cluster's transactions on more recent days of the maximum window. */
  function LaterCount(rows: seq<DailyRow>, w: Window, c: ClusterKey, day: int): real {
    SumWhere(rows, LaterSelection(w, c, day)).n
  }

  /** The cluster's day is part of its adaptive window. */
  predicate KeptDay(rows: seq<DailyRow>, w: Window, c: ClusterKey, day: int) {
    day >= w.maxStart && (day >= w.baseStart || LaterCount(rows, w, c, day) < MIN_SAMPLES)
  }

  function AdaptiveSelection(rows: seq<DailyRow>, w: Window, c: ClusterKey): KeySelection {
    (k: BucketKey) => k.cluster == c && KeptDay(rows, w, c, k.day)
  }

  /** The fixed base window, which the segmenter's query uses. */
  function BaseSelection(w: Window, c: ClusterKey): KeySelection {
    (k: BucketKey) => k.cluster == c && k.day >= w.baseStart
  }

  /** The cluster's transactions on days after this one. */
  function MoreRecent(rows: seq<DailyRow>, c: ClusterKey, day: int): real {
    if rows == [] then 0.0
    else
      var r := rows[|rows| - 1];
      MoreRecent(rows[..|rows| - 1], c, day) + (if r.key.cluster == c && r.key.day > day then r.stats.n else 0.0)
  }

  /** The rows a cluster is fitted on: no more than 90 days before any row of the source, or no more than 365
      days and with fewer than 200 of the cluster's transactions on later days. */
  predicate InWindow(rows: seq<DailyRow>, c: ClusterKey, k: BucketKey) {
    && k.cluster == c
    && (forall x :: x in rows ==> x.key.day - k.day <= 365)
    && ((forall x :: x in rows ==> x.key.day - k.day <= 90) || MoreRecent(rows, c, k.day) < 200.0)
  }

  /** The rows the segmenter sees of a cluster. */
  predicate InBaseWindow(rows: seq<DailyRow>, c: ClusterKey, k: BucketKey) {
    k.cluster == c && forall x :: x in rows ==> x.key.day - k.day <= 90
  }

  lemma {:induction false} LaterCountIs(rows: seq<DailyRow>, w: Window, c: ClusterKey, day: int)
    requires day >= w.maxStart
    ensures LaterCount(rows, w, c, day) == MoreRecent(rows, c, day)
  {
    if rows != [] {
      LaterCountIs(rows[..|rows| - 1], w, c, day);
    }
  }

  /** Both queries select by these windows. */
  lemma WindowMeaning(rows: seq<DailyRow>, c: ClusterKey, k: BucketKey)
    requires rows != []
    ensures AdaptiveSelection(rows, WindowOf(rows), c)(k) <==> InWindow(rows, c, k)
    ensures BaseSelection(WindowOf(rows), c)(k) <==> InBaseWindow(rows, c, k)
  {
    hide MoreRecent, LaterCount;
    var w, d := WindowOf(rows), LatestDay(rows);
    assert (forall x :: x in rows ==> x.key.day - k.day <= 365) <==> k.day >= w.maxStart;
    assert (forall x :: x in rows ==> x.key.day - k.day <= 90) <==> k.day >= w.baseStart;
    if k.day >= w.maxStart {
      LaterCountIs(rows, w, c, k.day);
    }
  }

  ghost predicate CountsNonNegative(rows: seq<DailyRow>) {
    forall r :: r in rows ==> r.stats.n >= 0.0
  }

  lemma {:induction false} SumWhereMonotone(rows: seq<DailyRow>, narrow: KeySelection, wide: KeySelection)
    requires CountsNonNegative(rows)
    requires forall r :: r in rows && narrow(r.key) ==> wide(r.key)
    ensures SumWhere(rows, narrow).n <= SumWhere(rows, wide).n
  {
    if rows != [] {
      var r := rows[|rows| - 1];
      assert r in rows;
      SumWhereMonotone(rows[..|rows| - 1], narrow, wide);
    }
  }

  lemma {:induction false} SumWhereCongruent(rows: seq<DailyRow>, one: KeySelection, two: KeySelection)
    requires forall r :: r in rows ==> one(r.key) == two(r.key)
    ensures SumWhere(rows, one) == SumWhere(rows, two)
  {
    hide SuffStats.Plus;
    if rows != [] {
      var r := rows[|rows| - 1];
      assert r in rows;
      SumWhereCongruent(rows[..|rows| - 1], one, two);
    }
  }

  /** The kept days are closed under "more recent". */
  lemma KeptDaysClosed(rows: seq<DailyRow>, w: Window, c: ClusterKey, day: int, later: int)
    requires CountsNonNegative(rows) && day <= later && KeptDay(rows, w, c, day)
    ensures KeptDay(rows, w, c, later)
  {
    SumWhereMonotone(rows, LaterSelection(w, c, later), LaterSelection(w, c, day));
  }

  /** The cluster has a row on this day of the maximum window. */
  ghost predicate HasDay(rows: seq<DailyRow>, w: Window, c: ClusterKey, day: int) {
    day >= w.maxStart && exists r :: r in rows && r.key.cluster == c && r.key.day == day
  }

  lemma {:induction false} LatestDropped(rows: seq<DailyRow>, all: seq<DailyRow>, w: Window, c: ClusterKey, day: int)
    returns (latest: int)
    requires HasDay(rows, w, c, day) && !KeptDay(all, w, c, day)
    ensures HasDay(rows, w, c, latest) && !KeptDay(all, w, c, latest)
    ensures forall r :: r in rows && r.key.cluster == c && r.key.day > latest ==> KeptDay(all, w, c, r.key.day)
  {
    hide KeptDay;
    var n := |rows| - 1;
    var last := rows[n];
    var init := rows[..n];
    assert rows == init + [last];
    var lastDropped := last.key.cluster == c && last.key.day >= w.maxStart && !KeptDay(all, w, c, last.key.day);
    if d :| HasDay(init, w, c, d) && !KeptDay(all, w, c, d) {
      latest := LatestDropped(init, all, w, c, d);
      var r :| r in init && r.key.cluster == c && r.key.day == latest;
      assert r in rows;
      if lastDropped && last.key.day > latest {
        latest := last.key.day;
        assert last in rows;
      } else if last.key.cluster == c && last.key.day > latest {
        assert last.key.day >= w.maxStart;
      }
    } else {
      var r :| r in rows && r.key.cluster == c && r.key.day == day;
      assert r !in init by {
        assert !HasDay(init, w, c, day);
      }
      latest := day;
      forall x | x in rows && x.key.cluster == c && x.key.day > latest ensures KeptDay(all, w, c, x.key.day) {
        assert x in init;
        assert HasDay(init, w, c, x.key.day);
      }
    }
  }

  /** Either every day of the maximum window is kept, or the kept days reach the sample gate. */
  lemma WindowReachesSamples(rows: seq<DailyRow>, w: Window, c: ClusterKey)
    requires CountsNonNegative(rows)
    ensures (forall d :: HasDay(rows, w, c, d) ==> KeptDay(rows, w, c, d))
         || SumWhere(rows, AdaptiveSelection(rows, w, c)).n >= 200.0
  {
    if d :| HasDay(rows, w, c, d) && !KeptDay(rows, w, c, d) {
      var latest := LatestDropped(rows, rows, w, c, d);
      SumWhereMonotone(rows, LaterSelection(w, c, latest), AdaptiveSelection(rows, w, c));
    }
  }

  /** Without its oldest day outside the base window the adaptive window would be below the gate. */
  lemma WindowIsMinimal(rows: seq<DailyRow>, w: Window, c: ClusterKey, oldest: int)
    requires CountsNonNegative(rows)
    requires KeptDay(rows, w, c, oldest) && oldest < w.baseStart
    requires forall d :: HasDay(rows, w, c, d) && KeptDay(rows, w, c, d) ==> oldest <= d
    ensures SumWhere(rows, (k: BucketKey) => k.cluster == c && KeptDay(rows, w, c, k.day) && k.day != oldest).n
          < 200.0
  {
    var without: KeySelection := (k: BucketKey) => k.cluster == c && KeptDay(rows, w, c, k.day) && k.day != oldest;
    forall r | r in rows ensures without(r.key) == LaterSelection(w, c, oldest)(r.key) {
      if r.key.cluster == c && r.key.day >= w.maxStart {
        assert HasDay(rows, w, c, r.key.day);
        if r.key.day > oldest {
          KeptDaysClosed(rows, w, c, oldest, r.key.day);
        }
      }
    }
    SumWhereCongruent(rows, without, LaterSelection(w, c, oldest));
  }

  /** With enough transactions in the base window, the adaptive window is exactly the base window. */
  lemma AdaptiveIsBase(rows: seq<DailyRow>, w: Window, c: ClusterKey)
    requires CountsNonNegative(rows) && w.maxStart <= w.baseStart
    requires SumWhere(rows, BaseSelection(w, c)).n >= 200.0
    ensures forall k :: AdaptiveSelection(rows, w, c)(k) == BaseSelection(w, c)(k)
  {
    forall k ensures AdaptiveSelection(rows, w, c)(k) == BaseSelection(w, c)(k) {
      if k.cluster == c && k.day < w.baseStart {
        SumWhereMonotone(rows, BaseSelection(w, c), LaterSelection(w, c, k.day));
      }
    }
  }

  // ---------------------------------------------------------------------------------------------
  // Per-band sums
  // ---------------------------------------------------------------------------------------------

  /** Add statistics to an ascending band list, merging equal indices. */
  function InsertBand(bands: seq<Band>, index: int, stats: SuffStats): seq<Band> {
    if bands == [] then [Band(index, stats)]
    else
      var last := bands[|bands| - 1];
      var init := bands[..|bands| - 1];
      if index > last.index then bands + [Band(index, stats)]
      else if index == last.index then init + [Band(index, last.stats.Plus(stats))]
      else InsertBand(init, index, stats) + [last]
  }

  /** `GROUP BY band` over the selected rows, in ascending band order. */
  function BandTable(rows: seq<DailyRow>, sel: KeySelection): seq<Band> {
    if rows == [] then []
    else
      var r := rows[|rows| - 1];
      var before := BandTable(rows[..|rows| - 1], sel);
      if sel(r.key) then InsertBand(before, r.key.band, r.stats) else before
  }

  /** The statistics of one band index, zero when it is absent. */
  function BandAt(bands: seq<Band>, index: int): SuffStats {
    if bands == [] then ZERO
    else
      var last := bands[|bands| - 1];
      if last.index == index then last.stats else BandAt(bands[..|bands| - 1], index)
  }

  lemma {:induction false} InsertBandSpec(bands: seq<Band>, index: int, stats: SuffStats, other: int)
    requires Ascending(bands)
    ensures var out := InsertBand(bands, index, stats);
            && Ascending(out)
            && out != []
            && out[|out| - 1].index ==
                 (if bands == [] || index > bands[|bands| - 1].index then index else bands[|bands| - 1].index)
            && BandAt(out, other) ==
                 if other == index then BandAt(bands, index).Plus(stats) else BandAt(bands, other)
  {
    if bands == [] {
      assert [Band(index, stats)][..0] == [];
    } else {
      var n := |bands| - 1;
      var init, last := bands[..n], bands[n];
      var out := InsertBand(bands, index, stats);
      if index > last.index {
        assert out[..|out| - 1] == bands;
        AbsentAbove(bands, index);
      } else if index == last.index {
        assert out[..|out| - 1] == init;
      } else {
        InsertBandSpec(init, index, stats, other);
        assert out[..|out| - 1] == InsertBand(init, index, stats);
        LastIsGreatest(InsertBand(init, index, stats), last);
      }
    }
  }

  lemma {:induction false} AbsentAbove(bands: seq<Band>, index: int)
    requires Ascending(bands) && (bands != [] ==> bands[|bands| - 1].index < index)
    ensures BandAt(bands, index) == ZERO
  {
    if |bands| > 1 {
      assert bands[|bands| - 2].index < bands[|bands| - 1].index;
      AbsentAbove(bands[..|bands| - 1], index);
    }
  }

  lemma LastIsGreatest(bands: seq<Band>, last: Band)
    requires Ascending(bands) && bands != [] && bands[|bands| - 1].index < last.index
    ensures Ascending(bands + [last])
  {
    var out := bands + [last];
    forall i, j | 0 <= i < j < |out| ensures out[i].index < out[j].index {
      if j == |bands| && i < |bands| - 1 {
        assert bands[i].index < bands[|bands| - 1].index;
      }
    }
  }

  function BandSelection(sel: KeySelection, index: int): KeySelection {
    (k: BucketKey) => sel(k) && k.band == index
  }

  /** The band table is ascending and holds, per band, the sum of the selected rows of that band. */
  lemma {:induction false} BandTableSpec(rows: seq<DailyRow>, sel: KeySelection, index: int)
    ensures Ascending(BandTable(rows, sel))
    ensures BandAt(BandTable(rows, sel), index) == SumWhere(rows, BandSelection(sel, index))
  {
    hide InsertBand, BandAt;
    if rows == [] {
      assert BandAt([], index) == ZERO by { AbsentAbove([], index); }
    } else {
      var r := rows[|rows| - 1];
      BandTableSpec(rows[..|rows| - 1], sel, index);
      BandTableSpec(rows[..|rows| - 1], sel, r.key.band);
      if sel(r.key) {
        InsertBandSpec(BandTable(rows[..|rows| - 1], sel), r.key.band, r.stats, index);
      }
    }
  }

  ghost predicate HasIndex(bands: seq<Band>, index: int) {
    exists b :: b in bands && b.index == index
  }

  lemma {:induction false} InsertBandIndices(bands: seq<Band>, index: int, stats: SuffStats, other: int)
    ensures HasIndex(InsertBand(bands, index, stats), other) <==> other == index || HasIndex(bands, other)
  {
    var out := InsertBand(bands, index, stats);
    if bands == [] {
      assert Band(index, stats) in out;
    } else {
      var init, last := bands[..|bands| - 1], bands[|bands| - 1];
      assert bands == init + [last];
      assert HasIndex(bands, other) <==> last.index == other || HasIndex(init, other) by {
        assert last in bands;
      }
      if index > last.index {
        assert out == bands + [Band(index, stats)];
        assert Band(index, stats) in out;
      } else if index == last.index {
        assert Band(index, last.stats.Plus(stats)) in out;
      } else {
        InsertBandIndices(init, index, stats, other);
        assert out == InsertBand(init, index, stats) + [last];
        assert last in out;
      }
    }
  }

  /** The table has exactly the bands that some selected row has. */
  lemma {:induction false} BandTableIndices(rows: seq<DailyRow>, sel: KeySelection, index: int)
    ensures HasIndex(BandTable(rows, sel), index) <==> exists r :: r in rows && sel(r.key) && r.key.band == index
  {
    hide InsertBand, HasIndex;
    if rows == [] {
      NoIndex(index);
    } else {
      var init, last := rows[..|rows| - 1], rows[|rows| - 1];
      assert rows == init + [last];
      BandTableIndices(init, sel, index);
      if sel(last.key) {
        InsertBandIndices(BandTable(init, sel), last.key.band, last.stats, index);
      }
    }
  }

  lemma NoIndex(index: int)
    ensures !HasIndex([], index)
  {
  }

  lemma {:induction false} BandAtIndex(bands: seq<Band>, i: nat)
    requires Ascending(bands) && i < |bands|
    ensures BandAt(bands, bands[i].index) == bands[i].stats
  {
    if i < |bands| - 1 {
      assert bands[i].index < bands[|bands| - 1].index;
      BandAtIndex(bands[..|bands| - 1], i);
    }
  }

  lemma PlusCommutesRight(s: SuffStats, o: SuffStats, p: SuffStats)
    ensures s.Plus(o).Plus(p) == s.Plus(p).Plus(o)
    ensures s.Plus(o.Plus(p)) == s.Plus(o).Plus(p)
  {
  }

  lemma {:induction false} InsertBandSum(bands: seq<Band>, index: int, stats: SuffStats)
    ensures SumBands(InsertBand(bands, index, stats)) == SumBands(bands).Plus(stats)
  {
    hide SuffStats.Plus;
    if bands == [] {
      assert [Band(index, stats)][..0] == [];
    } else {
      var n := |bands| - 1;
      var init, last := bands[..n], bands[n];
      var out := InsertBand(bands, index, stats);
      if index > last.index {
        assert out[..|out| - 1] == bands;
      } else if index == last.index {
        assert out[..|out| - 1] == init;
        PlusCommutesRight(SumBands(init), last.stats, stats);
      } else {
        InsertBandSum(init, index, stats);
        assert out[..|out| - 1] == InsertBand(init, index, stats);
        PlusCommutesRight(SumBands(init), last.stats, stats);
      }
    }
  }

  /** The whole-cluster sums are the sums of the selected rows. */
  lemma {:induction false} BandTableSum(rows: seq<DailyRow>, sel: KeySelection)
    ensures SumBands(BandTable(rows, sel)) == SumWhere(rows, sel)
  {
    hide SuffStats.Plus, InsertBand;
    if rows != [] {
      var r := rows[|rows| - 1];
      var before := BandTable(rows[..|rows| - 1], sel);
      BandTableSum(rows[..|rows| - 1], sel);
      InsertBandSum(before, r.key.band, r.stats);
    }
  }

  lemma {:induction false} BandTableCongruent(rows: seq<DailyRow>, one: KeySelection, two: KeySelection)
    requires forall r :: r in rows ==> one(r.key) == two(r.key)
    ensures BandTable(rows, one) == BandTable(rows, two)
  {
    hide InsertBand;
    if rows != [] {
      var r := rows[|rows| - 1];
      assert r in rows;
      BandTableCongruent(rows[..|rows| - 1], one, two);
    }
  }

  // ---------------------------------------------------------------------------------------------
  // The SQL line and grader
  // ---------------------------------------------------------------------------------------------

  /** The `whole` line: unlike `Fit`, only a zero denominator is NaN. (A group always has rows, so
      `n == 0` does not arise.) */
  function SqlLine(s: SuffStats): Fitted {
    var denom := Denom(s);
    if denom == 0.0 || s.n == 0.0 then NoLine
    else
      var slope := (s.n * s.sxy - s.sx * s.sy) / denom;
      Line(slope, (s.sy - slope * s.sx) / s.n)
  }

  function AStar(f: Fitted): real {
    match f
    case NoLine => 0.0
    case Line(slope, intercept) => if slope > 0.0 && intercept > 0.0 then intercept / slope else 0.0
  }

  /** The `above` sums: bands whose upper bound is past `a*`. */
  function SqlAbove(scale: AmountScale, bands: seq<Band>, astar: real): SuffStats {
    if bands == [] then ZERO
    else
      var band := bands[|bands| - 1];
      var before := SqlAbove(scale, bands[..|bands| - 1], astar);
      if scale(band.index + 1) > astar then before.Plus(band.stats) else before
  }

  /** The square of the SQL's `bps_rmse`; 999999 when nothing lies above `a*`, NaN without a line. */
  function SqlBpsSquared(f: Fitted, above: SuffStats): Option<real> {
    if above.n == 0.0 then Some(999999.0 * 999999.0)
    else
      match f
      case NoLine => None
      case Line(slope, intercept) =>
        Some(Max0(intercept * intercept * above.suu + above.n * slope * slope + above.syyuu
                  - 2.0 * intercept * above.suuy - 2.0 * slope * above.suy
                  + 2.0 * intercept * slope * above.su) / above.n * 100000000.0)
  }

  /** `ci_bps <= 15`, squared. */
  predicate SqlTight(s: SuffStats, f: Fitted) {
    f.Line? && s.n > 2.0 && Denom(s) > 0.0 &&
    Z_SQUARED * (Max0(SlopeSse(f.intercept, f.slope, s)) / (s.n - 2.0) * s.n / Denom(s) * 100000000.0)
      <= MAX_BPS_SQUARED
  }

  /** The `multiIf` of `FIT_SQL`. */
  function SqlVerdict(scale: AmountScale, bands: seq<Band>): Verdict {
    var s := SumBands(bands);
    var f := SqlLine(s);
    var above := SqlAbove(scale, bands, AStar(f));
    var bps := SqlBpsSquared(f, above);
    var poor := above.n == 0.0 || bps.None? || bps.value > MAX_BPS_SQUARED;
    if poor && s.n >= 200.0 then NonLinear
    else if poor then Thin
    else if s.n >= 200.0 then Good
    else if s.n >= 30.0 && SqlTight(s, f) then Good
    else Thin
  }

  /** One row of `cost_fee_model`; absent numbers are NaN. */
  datatype ModelRow = ModelRow(
    pctBps: Option<real>, fixed: Option<real>, n: real, grossSum: real, bpsSquared: Option<real>, verdict: Verdict)

  /** The model row of a cluster with the given bands. */
  function FitBands(scale: AmountScale, bands: seq<Band>): ModelRow {
    var s := SumBands(bands);
    var f := SqlLine(s);
    ModelRow(
      if f.Line? then Some(f.slope * 10000.0) else None,
      if f.Line? then Some(f.intercept) else None,
      s.n, s.sx, SqlBpsSquared(f, SqlAbove(scale, bands, AStar(f))), SqlVerdict(scale, bands))
  }

  // ---------------------------------------------------------------------------------------------
  // The two graders
  // ---------------------------------------------------------------------------------------------

  lemma {:induction false} SameRegime(scale: AmountScale, bands: seq<Band>, astar: real)
    ensures SqlAbove(scale, bands, astar) == SplitRegime(scale, bands, astar).1
  {
    hide SuffStats.Plus;
    if bands != [] {
      SameRegime(scale, bands[..|bands| - 1], astar);
    }
  }

  lemma SameCrossover(f: Fitted)
    requires f.Line?
    ensures AStar(f) == Crossover(f.slope, f.intercept)
  {
  }

  lemma SameProportionalError(f: Fitted, above: SuffStats)
    requires f.Line? && above.n > 0.0
    ensures SqlBpsSquared(f, above) == Some(BpsSquared(f.intercept, f.slope, above))
  {
    var a, b := f.intercept, f.slope;
    assert a * a * above.suu + above.n * b * b + above.syyuu - 2.0 * a * above.suuy - 2.0 * b * above.suy
           + 2.0 * a * b * above.su == ProportionalQ(a, b, above);
  }

  lemma {:induction false} RegimeCounts(
    scale: AmountScale, bands: seq<Band>, groups: seq<seq<Charge>>, astar: real)
    requires FoldedFrom(bands, groups)
    ensures SplitRegime(scale, bands, astar).0.n >= 0.0 && SplitRegime(scale, bands, astar).1.n >= 0.0
  {
    hide Fold;
    if bands != [] {
      var k := |bands| - 1;
      RegimeCounts(scale, bands[..k], groups[..k], astar);
      FoldCount(groups[k]);
    }
  }

  /** On bands folded from transactions both fits exist together and give the same line. */
  lemma SameLine(bands: seq<Band>, groups: seq<seq<Charge>>)
    requires FoldedFrom(bands, groups)
    ensures SqlLine(SumBands(bands)) == Fit(SumBands(bands))
  {
    hide SumBands, Denom, Fold;
    var txs := Flatten(groups);
    SumBandsIsFold(bands, groups);
    CauchySchwarz(txs);
    FoldCount(txs);
    if |txs| < 2 {
      FewDoNotVary(txs);
    }
  }

  lemma FewDoNotVary(txs: seq<Charge>)
    requires |txs| < 2
    ensures !AmountsVary(txs)
  {
  }

  lemma SameSlopeTest(s: SuffStats)
    requires Fit(s).Line?
    ensures SqlTight(s, Fit(s)) <==> SlopePinned(s, Fit(s).slope, Fit(s).intercept)
  {
    FitGivesDenom(s);
    hide Fit, Denom, SlopeSse;
  }

  /** The regime where nothing lies above the crossover: only the Rust graders grade it. */
  predicate FixedFeeOnly(scale: AmountScale, bands: seq<Band>) {
    var f := Fit(SumBands(bands));
    f.Line? && SplitRegime(scale, bands, Crossover(f.slope, f.intercept)).1.n == 0.0
  }

  /** The SQL accuracy test is the Rust one wherever something lies above the crossover. */
  lemma SameAccuracy(scale: AmountScale, bands: seq<Band>, groups: seq<seq<Charge>>)
    requires FoldedFrom(bands, groups) && Fit(SumBands(bands)).Line?
    ensures var f := Fit(SumBands(bands));
            var above := SqlAbove(scale, bands, AStar(f));
            && (above.n == 0.0 <==> FixedFeeOnly(scale, bands))
            && (above.n != 0.0 ==>
                SqlBpsSquared(f, above).Some? &&
                (SqlBpsSquared(f, above).value <= MAX_BPS_SQUARED
                 <==> Accurate(scale, bands, f.slope, f.intercept)))
  {
    hide SumBands, SplitRegime, SqlAbove, BpsSquared, Fit, SqlBpsSquared, AbsoluteQ, Square;
    var f := Fit(SumBands(bands));
    SameCrossover(f);
    SameRegime(scale, bands, AStar(f));
    RegimeCounts(scale, bands, groups, AStar(f));
    if SplitRegime(scale, bands, AStar(f)).1.n > 0.0 {
      SameProportionalError(f, SplitRegime(scale, bands, AStar(f)).1);
    }
  }

  /** The SQL grader and the Rust graders agree on what is GOOD, from the SQL's floor of 30
      transactions on, except for a purely fixed-fee cluster: the SQL never grades that one GOOD, while
      Rust grades it on its flat tail. From 200 transactions on this covers the segmenter's gate. */
  lemma GradersAgree(scale: AmountScale, bands: seq<Band>, groups: seq<seq<Charge>>)
    requires FoldedFrom(bands, groups)
    ensures FixedFeeOnly(scale, bands) ==> !SqlVerdict(scale, bands).Good?
    ensures !FixedFeeOnly(scale, bands) ==>
              (SqlVerdict(scale, bands).Good?
               <==> SumBands(bands).n >= 30.0 && Grade(scale, SumBands(bands), bands).Good?)
    ensures !FixedFeeOnly(scale, bands) && SumBands(bands).n >= 200.0 ==>
              (SqlVerdict(scale, bands).Good? <==> WholeVerdict(scale, bands).Good?)
  {
    hide SumBands, SqlAbove, Fit, SqlLine, SqlTight, SlopePinned, Accurate, SqlBpsSquared, FixedFeeOnly, AStar;
    var s := SumBands(bands);
    SameLine(bands, groups);
    if Fit(s).Line? {
      SameAccuracy(scale, bands, groups);
      SameSlopeTest(s);
      FitGivesDenom(s);
    } else {
      NoLineIsPoor(scale, bands);
    }
  }

  /** Without a line there is no GOOD verdict on either side. */
  lemma NoLineIsPoor(scale: AmountScale, bands: seq<Band>)
    requires SqlLine(SumBands(bands)).NoLine? && Fit(SumBands(bands)).NoLine?
    ensures !SqlVerdict(scale, bands).Good? && !Grade(scale, SumBands(bands), bands).Good?
    ensures !WholeVerdict(scale, bands).Good?
  {
    hide SumBands, SqlAbove, Fit, SqlLine;
  }

  // ---------------------------------------------------------------------------------------------
  // The model row on transactions
  // ---------------------------------------------------------------------------------------------

  /** The transactions above the crossover of the line. */
  ghost predicate IsAbove(
    scale: AmountScale, bands: seq<Band>, groups: seq<seq<Charge>>, a: real, b: real, above: seq<Charge>)
    requires |bands| == |groups|
  {
    exists astar :: IsCrossover(astar, b, a) && above == RegimeTxs(scale, bands, groups, astar, false)
  }

  /** They exist and their mean squared relative error is at most (15 bps)^2. */
  ghost predicate SqlAccurate(
    scale: AmountScale, bands: seq<Band>, groups: seq<seq<Charge>>, a: real, b: real)
    requires |bands| == |groups|
  {
    forall above :: IsAbove(scale, bands, groups, a, b, above) ==>
      above != [] && 100000000.0 * RelativeError(above, a, b) <= 225.0 * |above| as real
  }

  /** The SQL's verdict on the transactions and their least-squares line `(a, b)`. */
  ghost function SqlVerdictOn(
    scale: AmountScale, bands: seq<Band>, groups: seq<seq<Charge>>, a: real, b: real): Verdict
    requires |bands| == |groups|
  {
    var txs := Flatten(groups);
    if !AmountsVary(txs) || !SqlAccurate(scale, bands, groups, a, b) then
      if |txs| >= 200 then NonLinear else Thin
    else if |txs| >= 200 || (|txs| >= 30 && PinnedOn(txs, a, b)) then Good
    else Thin
  }

  lemma AboveIs(scale: AmountScale, bands: seq<Band>, groups: seq<seq<Charge>>, a: real, b: real)
    returns (above: seq<Charge>)
    requires FoldedFrom(bands, groups)
    ensures IsAbove(scale, bands, groups, a, b, above)
    ensures forall other :: IsAbove(scale, bands, groups, a, b, other) ==> other == above
    ensures SqlAbove(scale, bands, AStar(Line(b, a))) == Fold(above)
  {
    hide RegimeTxs, Fold, SqlAbove, SplitRegime, Crossover, IsCrossover;
    var astar := Crossover(b, a);
    above := RegimeTxs(scale, bands, groups, astar, false);
    CrossoverMeaning(astar, b, a);
    SameCrossover(Line(b, a));
    SameRegime(scale, bands, astar);
    RegimesAreFolds(scale, bands, groups, astar);
    forall other | IsAbove(scale, bands, groups, a, b, other) ensures other == above {
      var x :| IsCrossover(x, b, a) && other == RegimeTxs(scale, bands, groups, x, false);
      CrossoverMeaning(x, b, a);
    }
  }

  /** The error column of a fitted row, and the accuracy test on it. */
  lemma SqlErrorMeaning(scale: AmountScale, bands: seq<Band>, groups: seq<seq<Charge>>, a: real, b: real)
    requires FoldedFrom(bands, groups)
    ensures var above := SqlAbove(scale, bands, AStar(Line(b, a)));
            var e := SqlBpsSquared(Line(b, a), above);
            && e.Some?
            && (above.n != 0.0 && e.value <= MAX_BPS_SQUARED <==> SqlAccurate(scale, bands, groups, a, b))
            && (forall txs :: IsAbove(scale, bands, groups, a, b, txs) ==>
                  if txs == [] then e.value == 999999.0 * 999999.0
                  else e.value * |txs| as real == 100000000.0 * RelativeError(txs, a, b))
  {
    hide Fold, SqlAbove, RelativeError, IsAbove, SqlBpsSquared, BpsSquared;
    var txs := AboveIs(scale, bands, groups, a, b);
    FoldCount(txs);
    var above := Fold(txs);
    if txs != [] {
      SameProportionalError(Line(b, a), above);
      BpsSquaredMeaning(txs, a, b);
      ScaleAtMost(BpsSquared(a, b, above), |txs| as real, 225.0);
    } else {
      NothingAbove(Line(b, a), above);
    }
  }

  lemma NothingAbove(f: Fitted, above: SuffStats)
    requires above.n == 0.0
    ensures SqlBpsSquared(f, above) == Some(999999.0 * 999999.0)
  {
  }

  /** The model row on the transactions behind its bands and their least-squares line `(a, b)`: count, gross
      amount, verdict, line, and the error of the line above its crossover. */
  ghost predicate IsRowOf(
    scale: AmountScale, bands: seq<Band>, groups: seq<seq<Charge>>, m: ModelRow, a: real, b: real)
    requires |bands| == |groups|
  {
    var txs := Flatten(groups);
    && m.n == |txs| as real && m.grossSum == SumOf(txs, (t: Charge) => t.amount)
    && m.verdict == SqlVerdictOn(scale, bands, groups, a, b)
    && (AmountsVary(txs) ==>
        && m.fixed == Some(a) && m.pctBps == Some(b * 10000.0) && m.bpsSquared.Some?
        && forall above :: IsAbove(scale, bands, groups, a, b, above) ==>
             if above == [] then m.bpsSquared.value == 999999.0 * 999999.0
             else m.bpsSquared.value * |above| as real == 100000000.0 * RelativeError(above, a, b))
    && (!AmountsVary(txs) ==>
        && m.fixed == None && m.pctBps == None
        && (IsAmountScale(scale) ==>
              m.bpsSquared == if txs == [] then Some(999999.0 * 999999.0) else None))
  }

  /** What the SQL computes from the bands' sums. */
  lemma FitBandsMeaning(scale: AmountScale, bands: seq<Band>, groups: seq<seq<Charge>>, a: real, b: real)
    requires FoldedFrom(bands, groups)
    requires AmountsVary(Flatten(groups)) ==> IsLeastSquares(Flatten(groups), a, b)
    ensures IsRowOf(scale, bands, groups, FitBands(scale, bands), a, b)
  {
    hide Fold, Fit, SumBands, SqlLine, SqlAbove, SqlBpsSquared, SqlTight, AStar, IsAbove, SqlAccurate, PinnedOn,
         AmountsVary, IsLeastSquares, Flatten, SumOf, RelativeError;
    var txs := Flatten(groups);
    SumBandsIsFold(bands, groups);
    FoldCount(txs);
    FoldSums(txs);
    SameLine(bands, groups);
    FitDefinedExactly(txs);
    if AmountsVary(txs) {
      VariedNumberTwo(txs);
      FitIsLeastSquares(txs);
      SqlErrorMeaning(scale, bands, groups, a, b);
      SameSlopeTest(Fold(txs));
      PinnedMeaning(txs);
    } else {
      NoLineVerdict(scale, bands);
      if IsAmountScale(scale) {
        AllAboveZero(scale, bands);
        NoLineError(SumBands(bands));
      }
    }
  }

  lemma {:induction false} AllAboveZero(scale: AmountScale, bands: seq<Band>)
    requires IsAmountScale(scale)
    ensures SqlAbove(scale, bands, AStar(NoLine)) == SumBands(bands)
  {
    hide SuffStats.Plus;
    if bands != [] {
      AllAboveZero(scale, bands[..|bands| - 1]);
      assert scale(bands[|bands| - 1].index + 1) > 0.0;
    }
  }

  lemma NoLineError(above: SuffStats)
    ensures SqlBpsSquared(NoLine, above) == if above.n == 0.0 then Some(999999.0 * 999999.0) else None
  {
  }

  lemma VariedNumberTwo(txs: seq<Charge>)
    requires AmountsVary(txs)
    ensures |txs| >= 2
  {
  }

  lemma NoLineVerdict(scale: AmountScale, bands: seq<Band>)
    requires SqlLine(SumBands(bands)).NoLine?
    ensures SqlVerdict(scale, bands) == if SumBands(bands).n >= 200.0 then NonLinear else Thin
  {
    hide SumBands, SqlAbove, SqlLine;
  }
}
