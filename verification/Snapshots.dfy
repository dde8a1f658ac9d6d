/**
 The snapshot table behind serving, `cost_fee_model`, over long runs: `fit_snapshot` and
 `should_purge_empty` of `src/cost_ingestion/fit.rs`, and the reads of `src/cost_ingestion/serving.rs`.

 The table's sort key has no `funding` (clickhouse/scripts/035_cost_model.sh), so a `FINAL` read returns
 only one of two clusters of a snapshot that differ in nothing else.

 Main results: after any run of inserts, deletes, merges and refits the latest snapshot is the fit of the
 daily rows shown at the last refit (`RunsStayCurrent`), and every read serves all of its GOOD clusters if
 and only if none of them differs from another cluster in funding alone (`ServedExactly`).
 */
module Snapshots {
  import opened Options
  import opened SufficientStats
  import opened CostTypes
  import opened Grading
  import opened Rollup
  import opened FitSql
  import opened FitModel
  import opened DailyTable
  import opened MergedReads

  datatype SnapshotKey = SnapshotKey(source: Source, reportDate: int)

  /** `daily` holds the versions stored; `model` has an entry for each non-empty snapshot, as inserted. */
  datatype Tables = Tables(daily: seq<StoredRow>, model: map<SnapshotKey, Model>)

  /** The daily rows of one source, as the fit queries see them. */
  function DailyRows(t: Tables, source: Source): seq<DailyRow> {
    RowsOf(Final(t.daily), source)
  }

  // ---------------------------------------------------------------------------------------------
  // The snapshot table
  // ---------------------------------------------------------------------------------------------

  /** `should_purge_empty`: only a definitely parsed zero, and never with a blank identifier. */
  predicate ShouldPurge(totalParsed: Option<nat>, source: Source) {
    totalParsed == Some(0) && source.connector != "" && source.account != "" && source.merchant != ""
  }

  /** `fit_snapshot` on the model table: clear this date, insert the fit, count, maybe purge.
      `parsed` says whether the summary response could be read. */
  function Refit(scale: AmountScale, t: Tables, source: Source, date: int, parsed: bool): Tables {
    var fit := FitTable(scale, DailyRows(t, source));
    var key := SnapshotKey(source, date);
    var cleared := t.model - {key};
    var inserted := if fit == map[] then cleared else cleared[key := fit];
    var total := if parsed then Some(|fit|) else None;
    if ShouldPurge(total, source) then t.(model := Purge(inserted, source)) else t.(model := inserted)
  }

  function Purge(model: map<SnapshotKey, Model>, source: Source): map<SnapshotKey, Model> {
    map k | k in model && k.source != source :: model[k]
  }

  /** The snapshot with the greatest report date, if there is one. */
  ghost predicate IsLatest(model: map<SnapshotKey, Model>, source: Source, r: Option<Model>) {
    match r
    case None => forall d :: SnapshotKey(source, d) !in model
    case Some(m) =>
      exists d :: SnapshotKey(source, d) in model && model[SnapshotKey(source, d)] == m &&
                  forall e :: SnapshotKey(source, e) in model ==> e <= d
  }

  /** The fit of a source's rows, nothing when there is no data. */
  function Current(scale: AmountScale, rows: seq<DailyRow>): Option<Model> {
    if rows == [] then None else Some(FitTable(scale, rows))
  }

  lemma LatestIsUnique(model: map<SnapshotKey, Model>, source: Source, r: Option<Model>, o: Option<Model>)
    requires IsLatest(model, source, r) && IsLatest(model, source, o)
    ensures r == o
  {
  }

  /** A refit makes the latest snapshot current exactly in these cases. With data: no snapshot is dated later, or the
      latest one equals the fit anyway. Without: the emptiness was definitely read for a complete
      identifier, or there was no snapshot of another date. */
  lemma RefitIsCurrentExactly(scale: AmountScale, t: Tables, source: Source, date: int, parsed: bool)
    ensures var rows := DailyRows(t, source);
            IsLatest(Refit(scale, t, source, date, parsed).model, source, Current(scale, rows))
            <==> if rows != [] then
                   || (forall d :: SnapshotKey(source, d) in t.model ==> d <= date)
                   || IsLatest(t.model, source, Current(scale, rows))
                 else
                   || (parsed && source.connector != "" && source.account != "" && source.merchant != "")
                   || (forall d :: SnapshotKey(source, d) in t.model ==> d == date)
  {
    hide FitTable;
    var rows := DailyRows(t, source);
    var fit := FitTable(scale, rows);
    var model := Refit(scale, t, source, date, parsed).model;
    FitEmptyIffNoData(scale, rows);
    if rows != [] {
      var key := SnapshotKey(source, date);
      assert fit != map[] && |fit| != 0;
      assert model == t.model[key := fit];
      LatestAfterInsert(t.model, source, date, fit);
    } else {
      assert |fit| == 0;
      if exists d :: SnapshotKey(source, d) in t.model && d != date {
        var d :| SnapshotKey(source, d) in t.model && d != date;
        assert !ShouldPurge(if parsed then Some(|fit|) else None, source) ==> SnapshotKey(source, d) in model;
      }
    }
  }

  lemma LatestAfterInsert(model: map<SnapshotKey, Model>, source: Source, date: int, fit: Model)
    ensures IsLatest(model[SnapshotKey(source, date) := fit], source, Some(fit)) <==>
            || (forall d :: SnapshotKey(source, d) in model ==> d <= date)
            || IsLatest(model, source, Some(fit))
  {
    var after := model[SnapshotKey(source, date) := fit];
    if later :| SnapshotKey(source, later) in model && later > date {
      assert SnapshotKey(source, later) in after;
      if IsLatest(after, source, Some(fit)) {
        var d :| SnapshotKey(source, d) in after && after[SnapshotKey(source, d)] == fit &&
                 forall e :: SnapshotKey(source, e) in after ==> e <= d;
        assert SnapshotKey(source, d) in model && model[SnapshotKey(source, d)] == fit;
      }
      if IsLatest(model, source, Some(fit)) {
        var d :| SnapshotKey(source, d) in model && model[SnapshotKey(source, d)] == fit &&
                 forall e :: SnapshotKey(source, e) in model ==> e <= d;
        assert SnapshotKey(source, d) in after && after[SnapshotKey(source, d)] == fit;
      }
    } else {
      assert SnapshotKey(source, date) in after;
    }
  }

  lemma RefitFrame(scale: AmountScale, t: Tables, source: Source, date: int, parsed: bool, k: SnapshotKey)
    requires k.source != source
    ensures k in Refit(scale, t, source, date, parsed).model <==> k in t.model
    ensures k in t.model ==> Refit(scale, t, source, date, parsed).model[k] == t.model[k]
  {
    hide FitTable;
  }

  /** A refit leaves the latest snapshot of every other source the latest. */
  lemma OtherSourcesUnaffected(
    scale: AmountScale, t: Tables, source: Source, date: int, parsed: bool, other: Source, r: Option<Model>)
    requires other != source
    ensures IsLatest(Refit(scale, t, source, date, parsed).model, other, r) <==> IsLatest(t.model, other, r)
  {
    hide Refit;
    var model := Refit(scale, t, source, date, parsed).model;
    forall d ensures var k := SnapshotKey(other, d);
      (k in model <==> k in t.model) && (k in t.model ==> model[k] == t.model[k])
    {
      RefitFrame(scale, t, source, date, parsed, SnapshotKey(other, d));
    }
    if IsLatest(t.model, other, r) {
      SameSnapshotsSameLatest(t.model, model, other, r);
    }
    if IsLatest(model, other, r) {
      SameSnapshotsSameLatest(model, t.model, other, r);
    }
  }

  lemma SameSnapshotsSameLatest(
    before: map<SnapshotKey, Model>, after: map<SnapshotKey, Model>, source: Source, r: Option<Model>)
    requires forall d :: var k := SnapshotKey(source, d);
               (k in after <==> k in before) && (k in before ==> after[k] == before[k])
    requires IsLatest(before, source, r)
    ensures IsLatest(after, source, r)
  {
    if r.Some? {
      var d :| SnapshotKey(source, d) in before && before[SnapshotKey(source, d)] == r.value &&
               forall e :: SnapshotKey(source, e) in before ==> e <= d;
      assert SnapshotKey(source, d) in after;
    }
  }

  // ---------------------------------------------------------------------------------------------
  // Reads
  // ---------------------------------------------------------------------------------------------

  predicate IsServed(m: ModelRow) {
    m.verdict.Good? && m.grossSum > 0.0
  }

  /** The rows serving keeps of a read. */
  function Served(read: Model): Model {
    map c | c in read && IsServed(read[c]) :: read[c]
  }

  /** The GOOD rows of positive gross. */
  ghost function GoodRows(snapshot: Model): Model {
    map c | c in snapshot && snapshot[c].verdict.Good? && snapshot[c].grossSum > 0.0 :: snapshot[c]
  }

  /** Every read serves exactly the snapshot's GOOD clusters of positive gross, if and only if none of those
      differs in funding alone from another cluster of the snapshot, GOOD or not. */
  lemma ServedExactly(snapshot: Model)
    ensures (forall read :: FinalOf(snapshot, read, SortKey) ==> Served(read) == GoodRows(snapshot)) <==>
            (forall c, d :: c in GoodRows(snapshot) && d in snapshot ==> !DifferInFundingAlone(c, d))
  {
    hide SortKey, DifferInFundingAlone;
    assert Served(snapshot) == GoodRows(snapshot);
    forall c, d | c in snapshot && d in snapshot
      ensures SortKey(c) == SortKey(d) <==> c == d || DifferInFundingAlone(c, d)
      ensures DifferInFundingAlone(c, d) ==> c != d
    {
      SortKeyMeaning(c, d);
    }
    if c, d :| c in snapshot && IsServed(snapshot[c]) && d in snapshot && SortKey(c) == SortKey(d) && c != d {
      var read := ReadWith(snapshot, {d}, SortKey);
      assert c in Served(snapshot) && c !in Served(read);
    } else {
      forall read | FinalOf(snapshot, read, SortKey) ensures Served(read) == Served(snapshot) {
        forall c | c in Served(snapshot) ensures c in read {
          assert Represented(read, c, SortKey);
          var d :| d in read && SortKey(d) == SortKey(c);
        }
      }
    }
  }

  /** What a `FINAL` read of the latest snapshot of a source may return. */
  ghost predicate Reads(model: map<SnapshotKey, Model>, source: Source, read: Option<Model>) {
    match read
    case None => IsLatest(model, source, None)
    case Some(m) => exists snapshot :: IsLatest(model, source, Some(snapshot)) && FinalOf(snapshot, m, SortKey)
  }

  // ---------------------------------------------------------------------------------------------
  // Runs
  // ---------------------------------------------------------------------------------------------

  datatype Step =
    | Insert(source: Source, ingestion: string, rows: seq<DailyRow>)
    | Delete(source: Source, ingestion: string)
    | Refresh(source: Source, date: int)

  function Apply(scale: AmountScale, t: Tables, step: Step): Tables {
    match step
    case Insert(source, ingestion, rows) => t.(daily := t.daily + Stamp(source, ingestion, rows))
    case Delete(source, ingestion) => t.(daily := DeleteOwned(t.daily, source, ingestion))
    case Refresh(source, date) => Refit(scale, t, source, date, true)
  }

  /** After each step the database may merge the daily table. */
  ghost predicate Follows(t: Tables, after: Tables) {
    IsMerge(t.daily, after.daily) && after.model == t.model
  }

  ghost predicate IsRun(scale: AmountScale, trace: seq<Tables>, steps: seq<Step>) {
    && |trace| == |steps| + 1
    && trace[0] == Tables([], map[])
    && forall i :: 0 <= i < |steps| ==> Follows(Apply(scale, trace[i], steps[i]), trace[i + 1])
  }

  lemma RunPrefix(scale: AmountScale, trace: seq<Tables>, steps: seq<Step>, n: nat)
    requires IsRun(scale, trace, steps) && n <= |steps|
    ensures IsRun(scale, trace[..n + 1], steps[..n])
  {
    hide Follows, Apply;
  }

  /** The position of a source's last refit. */
  ghost function LastRefit(steps: seq<Step>, source: Source): (r: Option<nat>)
    ensures r.Some? ==> r.value < |steps| && steps[r.value].Refresh? && steps[r.value].source == source
  {
    if steps == [] then None
    else
      var n := |steps| - 1;
      if steps[n].Refresh? && steps[n].source == source then Some(n) else LastRefit(steps[..n], source)
  }

  /** Identifiers are complete, and no source is refitted under an earlier date than before. */
  ghost predicate WellTimed(steps: seq<Step>) {
    && (forall i :: 0 <= i < |steps| && steps[i].Refresh? ==>
          steps[i].source.connector != "" && steps[i].source.account != "" && steps[i].source.merchant != "")
    && (forall i, j ::
          (0 <= i < j < |steps| && steps[i].Refresh? && steps[j].Refresh? && steps[i].source == steps[j].source)
          ==> steps[i].date <= steps[j].date)
  }

  /** After any run, the latest snapshot of each source is the fit of the rows it had at its last refit, or
      none of any date remains if it had none then or was never refitted. */
  lemma {:induction false} RunsStayCurrent(
    scale: AmountScale, trace: seq<Tables>, steps: seq<Step>, source: Source)
    requires IsRun(scale, trace, steps) && WellTimed(steps)
    ensures var r := LastRefit(steps, source);
            var model := trace[|steps|].model;
            && IsLatest(model, source, if r.Some? then Current(scale, DailyRows(trace[r.value], source)) else None)
            && (forall d :: SnapshotKey(source, d) in model ==> r.Some? && d <= steps[r.value].date)
    decreases |steps|
  {
    hide FitTable, Final, DeleteOwned, RowsOf, Refit, IsMerge, IsLatest, Current;
    if steps == [] {
      NothingIsLatest(source);
    } else {
      var n := |steps| - 1;
      RunPrefix(scale, trace, steps, n);
      RunsStayCurrent(scale, trace[..n + 1], steps[..n], source);
      var t, last := trace[n], steps[n];
      assert Follows(Apply(scale, t, last), trace[n + 1]);
      if last.Refresh? {
        if last.source == source {
          assert forall d :: SnapshotKey(source, d) in t.model ==> d <= last.date;
          RefitIsCurrent(scale, t, source, last.date);
          RefitDates(scale, t, source, last.date);
        } else {
          var r := LastRefit(steps[..n], source);
          OtherSourcesUnaffected(scale, t, last.source, last.date, true, source,
                                 if r.Some? then Current(scale, DailyRows(trace[r.value], source)) else None);
          forall d ensures SnapshotKey(source, d) in trace[n + 1].model ==> SnapshotKey(source, d) in t.model {
            RefitFrame(scale, t, last.source, last.date, true, SnapshotKey(source, d));
          }
        }
      }
    }
  }

  lemma NothingIsLatest(source: Source)
    ensures IsLatest(map[], source, None)
  {
  }

  lemma RefitIsCurrent(scale: AmountScale, t: Tables, source: Source, date: int)
    requires forall d :: SnapshotKey(source, d) in t.model ==> d <= date
    requires source.connector != "" && source.account != "" && source.merchant != ""
    ensures IsLatest(Refit(scale, t, source, date, true).model, source, Current(scale, DailyRows(t, source)))
  {
    hide Refit, IsLatest, Current, DailyRows;
    RefitIsCurrentExactly(scale, t, source, date, true);
  }

  lemma RefitDates(scale: AmountScale, t: Tables, source: Source, date: int)
    requires forall d :: SnapshotKey(source, d) in t.model ==> d <= date
    ensures forall d :: SnapshotKey(source, d) in Refit(scale, t, source, date, true).model ==> d <= date
  {
    hide FitTable, DailyRows;
  }

  /** Over whole runs, what a read of a source may return is exactly a `FINAL` read of its fit at the last
      refit, or nothing when there was no refit or no row then. */
  lemma RunsReadCurrent(
    scale: AmountScale, trace: seq<Tables>, steps: seq<Step>, source: Source, read: Option<Model>)
    requires IsRun(scale, trace, steps) && WellTimed(steps)
    ensures var r := LastRefit(steps, source);
            var current := if r.Some? then Current(scale, DailyRows(trace[r.value], source)) else None;
            Reads(trace[|steps|].model, source, read) <==>
            || (read.None? && current.None?)
            || (read.Some? && current.Some? && FinalOf(current.value, read.value, SortKey))
  {
    hide Follows, WellTimed, IsLatest, FinalOf, Current, DailyRows;
    RunsStayCurrent(scale, trace, steps, source);
    var r := LastRefit(steps, source);
    var current := if r.Some? then Current(scale, DailyRows(trace[r.value], source)) else None;
    var model := trace[|steps|].model;
    forall o | IsLatest(model, source, o) ensures o == current {
      LatestIsUnique(model, source, o, current);
    }
  }

  // ---------------------------------------------------------------------------------------------
  // The tables as the source changes them
  // ---------------------------------------------------------------------------------------------

  const INSERT_CHUNK_ROWS := 25000

  class Warehouse {
    var tables: Tables
    const scale: AmountScale

    constructor (scale: AmountScale)
      ensures tables == Tables([], map[]) && this.scale == scale
    {
      this.scale := scale;
      tables := Tables([], map[]);
    }

    /** `insert_daily_stats`, in bounded chunks: one insert, after which each written row is shown and
        every row of another identity stays shown. */
    method InsertDailyStats(source: Source, ingestion: string, rows: seq<DailyRow>) returns (written: nat)
      modifies this
      ensures tables == Apply(scale, old(tables), Insert(source, ingestion, rows))
      ensures Distinct(KeysOf(rows)) ==> forall x :: x in Final(tables.daily) <==>
                || x in Stamp(source, ingestion, rows)
                || (x in Final(old(tables).daily) && !(x.source == source && x.key in KeysOf(rows)))
      ensures written == |rows|
    {
      hide Final, Stamp;
      var stamped := Stamp(source, ingestion, rows);
      var i := 0;
      while i < |stamped|
        invariant 0 <= i <= |stamped|
        invariant tables == old(tables).(daily := old(tables).daily + stamped[..i])
      {
        var j := if i + INSERT_CHUNK_ROWS < |stamped| then i + INSERT_CHUNK_ROWS else |stamped|;
        assert old(tables).daily + stamped[..i] + stamped[i..j] == old(tables).daily + stamped[..j];
        tables := tables.(daily := tables.daily + stamped[i..j]);
        i := j;
      }
      assert stamped[..|stamped|] == stamped;
      forall x | Distinct(KeysOf(rows)) ensures x in Final(tables.daily) <==>
        || x in stamped || (x in Final(old(tables).daily) && !(x.source == source && x.key in KeysOf(rows)))
      {
        InsertedFinal(old(tables).daily, source, ingestion, rows, x);
      }
      return |rows|;
    }

    /** `delete_ingestion_rows`: the versions kept are exactly those the ingestion did not write, and a row
        shown before is still shown. */
    method DeleteIngestionRows(source: Source, ingestion: string)
      modifies this
      ensures forall x :: x in tables.daily <==> x in old(tables).daily && !OwnedBy(x, source, ingestion)
      ensures forall x :: x in Final(old(tables).daily) && !OwnedBy(x, source, ingestion) ==> x in Final(tables.daily)
      ensures Deduplicated(old(tables).daily) ==> Deduplicated(tables.daily)
      ensures tables.model == old(tables).model
      ensures tables == Apply(scale, old(tables), Delete(source, ingestion))
    {
      hide Final, DeleteOwned;
      DeleteOwnedSpec(tables.daily, source, ingestion);
      ShownSurvivesDelete(tables.daily, source, ingestion);
      tables := tables.(daily := DeleteOwned(tables.daily, source, ingestion));
    }

    /** `fit_snapshot`: clear, insert, count, purge; then the summary counts of the snapshot. */
    method FitSnapshot(source: Source, date: int, parsed: bool) returns (total: nat, good: nat)
      modifies this
      ensures tables == Refit(scale, old(tables), source, date, parsed)
      ensures var fit := FitTable(scale, DailyRows(old(tables), source));
              parsed ==> total == |fit| && good == |set c | c in fit && fit[c].verdict.Good?|
    {
      var key := SnapshotKey(source, date);
      tables := tables.(model := tables.model - {key});
      var fit := FitTable(scale, DailyRows(tables, source));
      if fit != map[] {
        tables := tables.(model := tables.model[key := fit]);
      }
      var counted := if key in tables.model then tables.model[key] else map[];
      assert counted == fit;
      var totalParsed := if parsed then Some(|counted|) else None;
      total := if parsed then |counted| else 0;
      good := if parsed then |set c | c in counted && counted[c].verdict.Good?| else 0;
      if ShouldPurge(totalParsed, source) {
        tables := tables.(model := Purge(tables.model, source));
      }
    }
  }
}
