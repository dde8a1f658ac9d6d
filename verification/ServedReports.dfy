/**
 From report rows to the served line: the whole path through `src/cost_ingestion`, over long runs of
 uploads, deletions, merges and refits.

 Main results: the daily table shows a bucket's latest report for certain, if and only if that report was
 not deleted or no older one is left (`BucketSettledExactly`); and each row that serving reads carries the
 unique least-squares line of the raw report rows behind its cluster's window (`ServedLineFitsReports`).
 */
module ServedReports {
  import opened Options
  import opened SufficientStats
  import opened CostTypes
  import opened LeastSquares
  import opened Grading
  import opened Rollup
  import opened FitSql
  import opened FitModel
  import opened DailyTable
  import opened MergedReads
  import opened Snapshots

  /** What is asked of the system: a report's raw rows, a deletion, a refit. */
  datatype Event =
    | Report(source: Source, ingestion: string, rules: Rules, raw: seq<SettledRow>)
    | Erase(source: Source, ingestion: string)
    | Reckon(source: Source, date: int)

  /** The step on the tables that carries the event out: for a report, inserting its buckets. */
  ghost predicate Performs(step: Step, event: Event) {
    match event
    case Report(source, ingestion, rules, raw) =>
      step.Insert? && step.source == source && step.ingestion == ingestion && BucketsOf(rules, raw, step.rows)
    case Erase(source, ingestion) => step == Delete(source, ingestion)
    case Reckon(source, date) => step == Refresh(source, date)
  }

  ghost predicate PerformsAll(steps: seq<Step>, events: seq<Event>) {
    && |steps| == |events|
    && forall i :: 0 <= i < |steps| ==> Performs(steps[i], events[i])
  }

  // ---------------------------------------------------------------------------------------------
  // Which raw rows are behind the daily table
  // ---------------------------------------------------------------------------------------------

  /** An ingestion that wrote a bucket, and the transactions it put there. */
  datatype Origin = Origin(ingestion: string, txs: seq<Charge>)

  /** The origins of another ingestion. */
  function WithoutIngestion(origins: seq<Origin>, ingestion: string): (r: seq<Origin>)
    ensures forall o :: o in r <==> o in origins && o.ingestion != ingestion
  {
    if origins == [] then []
    else
      var init, last := origins[..|origins| - 1], origins[|origins| - 1];
      assert origins == init + [last];
      WithoutIngestion(init, ingestion) + (if last.ingestion == ingestion then [] else [last])
  }

  /** Everything that was put into the bucket and not deleted since, oldest first. */
  ghost function Candidates(events: seq<Event>, source: Source, key: BucketKey): seq<Origin> {
    if events == [] then []
    else
      var before := Candidates(events[..|events| - 1], source, key);
      match events[|events| - 1]
      case Report(s, ingestion, rules, raw) =>
        if s == source && Charges(rules, raw, key) != [] then before + [Origin(ingestion, Charges(rules, raw, key))]
        else before
      case Erase(s, ingestion) => if s == source then WithoutIngestion(before, ingestion) else before
      case Reckon(_, _) => before
  }

  /** The last report with rows for the bucket, unless it was deleted since. */
  ghost function Surviving(events: seq<Event>, source: Source, key: BucketKey): (r: Option<Origin>)
    ensures r.Some? ==> r.value in Candidates(events, source, key)
  {
    if events == [] then None
    else
      var before := Surviving(events[..|events| - 1], source, key);
      match events[|events| - 1]
      case Report(s, ingestion, rules, raw) =>
        if s == source && Charges(rules, raw, key) != [] then Some(Origin(ingestion, Charges(rules, raw, key)))
        else before
      case Erase(s, ingestion) =>
        if s == source && before.Some? && before.value.ingestion == ingestion then None else before
      case Reckon(_, _) => before
  }

  /** The row holds what this origin put into its bucket. */
  ghost predicate From(x: StoredRow, o: Origin) {
    x.ingestion == o.ingestion && x.stats == Fold(o.txs)
  }

  ghost function RowFor(source: Source, key: BucketKey, o: Origin): StoredRow {
    StoredRow(source, key, o.ingestion, Fold(o.txs))
  }

  lemma BucketRow(rules: Rules, raw: seq<SettledRow>, rows: seq<DailyRow>, r: DailyRow)
    requires BucketsOf(rules, raw, rows)
    ensures r in rows <==> Charges(rules, raw, r.key) != [] && r.stats == Fold(Charges(rules, raw, r.key))
  {
    hide ChargesOf, Fold;
    if r in rows {
      var i :| 0 <= i < |rows| && rows[i] == r;
      assert KeysOf(rows)[i] == r.key;
    }
    if Charges(rules, raw, r.key) != [] && r.stats == Fold(Charges(rules, raw, r.key)) {
      var i :| 0 <= i < |rows| && KeysOf(rows)[i] == r.key;
      assert rows[i] in rows && rows[i] == r;
    }
  }

  /** The rows an event's insert writes, bucket by bucket. */
  lemma InsertedRow(event: Event, rows: seq<DailyRow>, x: StoredRow)
    requires event.Report? && BucketsOf(event.rules, event.raw, rows)
    ensures var txs := Charges(event.rules, event.raw, x.key);
            && (x in Stamp(event.source, event.ingestion, rows) <==>
                  x.source == event.source && txs != [] && From(x, Origin(event.ingestion, txs)))
            && (x.key in KeysOf(rows) <==> txs != [])
  {
    hide ChargesOf, Fold, Stamp;
    StampedRow(event.source, event.ingestion, rows, x);
    BucketRow(event.rules, event.raw, rows, DailyRow(x.key, x.stats));
  }

  // ---------------------------------------------------------------------------------------------
  // Whatever the database merges
  // ---------------------------------------------------------------------------------------------

  ghost predicate OnlyCandidates(daily: seq<StoredRow>, events: seq<Event>) {
    forall x :: x in daily ==> exists o :: o in Candidates(events, x.source, x.key) && From(x, o)
  }

  ghost predicate ShowsSurviving(daily: seq<StoredRow>, events: seq<Event>) {
    forall source, key :: Surviving(events, source, key).Some? ==>
      RowFor(source, key, Surviving(events, source, key).value) in Final(daily)
  }

  /** In every run each stored version comes from a report that was not deleted since, and the last report
      of a bucket is shown while it is not deleted. */
  lemma {:induction false} DailyHoldsReports(
    scale: AmountScale, trace: seq<Tables>, steps: seq<Step>, events: seq<Event>)
    requires IsRun(scale, trace, steps) && PerformsAll(steps, events)
    ensures OnlyCandidates(trace[|steps|].daily, events) && ShowsSurviving(trace[|steps|].daily, events)
    decreases |steps|
  {
    hide OnlyCandidates, ShowsSurviving, IsMerge, Refit, Stamp, DeleteOwned, BucketsOf;
    if steps == [] {
      NothingReported();
    } else {
      var n := |steps| - 1;
      RunPrefix(scale, trace, steps, n);
      DailyHoldsReports(scale, trace[..n + 1], steps[..n], events[..n]);
      assert Performs(steps[n], events[n]);
      var t := Apply(scale, trace[n], steps[n]);
      assert events == events[..n] + [events[n]];
      match events[n] {
        case Report(source, ingestion, rules, raw) =>
          InsertHoldsReports(trace[n].daily, events[..n], events[n], steps[n].rows);
        case Erase(source, ingestion) => DeleteHoldsReports(trace[n].daily, events[..n], source, ingestion);
        case Reckon(source, date) =>
          RefitKeepsDaily(scale, trace[n], source, date);
          ReckonHoldsReports(trace[n].daily, events[..n], source, date);
      }
      assert Follows(t, trace[n + 1]);
      MergeHoldsReports(t.daily, trace[n + 1].daily, events);
    }
  }

  lemma NothingReported()
    ensures OnlyCandidates([], []) && ShowsSurviving([], [])
  {
  }

  lemma MergeHoldsReports(before: seq<StoredRow>, after: seq<StoredRow>, events: seq<Event>)
    requires IsMerge(before, after) && OnlyCandidates(before, events) && ShowsSurviving(before, events)
    ensures OnlyCandidates(after, events) && ShowsSurviving(after, events)
  {
    hide Subsequence, Final, From, Candidates, Surviving;
    forall x | x in after ensures x in before {
      SubsequenceMembers(after, before, x);
    }
  }

  lemma InsertHoldsReports(daily: seq<StoredRow>, before: seq<Event>, event: Event, rows: seq<DailyRow>)
    requires event.Report? && BucketsOf(event.rules, event.raw, rows)
    requires OnlyCandidates(daily, before) && ShowsSurviving(daily, before)
    ensures var after := daily + Stamp(event.source, event.ingestion, rows);
            OnlyCandidates(after, before + [event]) && ShowsSurviving(after, before + [event])
  {
    hide Stamp, Final, Fold, ChargesOf, BucketsOf;
    var events := before + [event];
    assert events[..|before|] == before;
    var stamped := Stamp(event.source, event.ingestion, rows);
    var after := daily + stamped;
    forall x | x in after ensures exists o :: o in Candidates(events, x.source, x.key) && From(x, o) {
      InsertedRow(event, rows, x);
      if x in stamped {
        var o := Origin(event.ingestion, Charges(event.rules, event.raw, x.key));
        assert o in Candidates(events, x.source, x.key) && From(x, o);
      } else {
        var o :| o in Candidates(before, x.source, x.key) && From(x, o);
        assert o in Candidates(events, x.source, x.key);
      }
    }
    assert Distinct(KeysOf(rows)) by { BucketsDistinct(event.rules, event.raw, rows); }
    forall source, key | Surviving(events, source, key).Some?
      ensures RowFor(source, key, Surviving(events, source, key).value) in Final(after)
    {
      var x := RowFor(source, key, Surviving(events, source, key).value);
      InsertedRow(event, rows, x);
      InsertedFinal(daily, event.source, event.ingestion, rows, x);
    }
  }

  lemma BucketsDistinct(rules: Rules, raw: seq<SettledRow>, emitted: seq<DailyRow>)
    requires BucketsOf(rules, raw, emitted)
    ensures Distinct(KeysOf(emitted))
  {
  }

  lemma DeleteHoldsReports(daily: seq<StoredRow>, before: seq<Event>, source: Source, ingestion: string)
    requires OnlyCandidates(daily, before) && ShowsSurviving(daily, before)
    ensures var after, events := DeleteOwned(daily, source, ingestion), before + [Erase(source, ingestion)];
            OnlyCandidates(after, events) && ShowsSurviving(after, events)
  {
    hide DeleteOwned, Final, Fold;
    var after, events := DeleteOwned(daily, source, ingestion), before + [Erase(source, ingestion)];
    assert events[..|before|] == before;
    DeleteOwnedSpec(daily, source, ingestion);
    ShownSurvivesDelete(daily, source, ingestion);
    forall x | x in after ensures exists o :: o in Candidates(events, x.source, x.key) && From(x, o) {
      var o :| o in Candidates(before, x.source, x.key) && From(x, o);
      assert o in Candidates(events, x.source, x.key);
    }
    forall other, key | Surviving(events, other, key).Some?
      ensures RowFor(other, key, Surviving(events, other, key).value) in Final(after)
    {
      assert Surviving(events, other, key) == Surviving(before, other, key);
      assert !OwnedBy(RowFor(other, key, Surviving(before, other, key).value), source, ingestion);
    }
  }

  lemma ReckonHoldsReports(daily: seq<StoredRow>, before: seq<Event>, source: Source, date: int)
    requires OnlyCandidates(daily, before) && ShowsSurviving(daily, before)
    ensures var events := before + [Reckon(source, date)];
            OnlyCandidates(daily, events) && ShowsSurviving(daily, events)
  {
    hide Final, Fold;
    var events := before + [Reckon(source, date)];
    assert events[..|before|] == before;
    forall x | x in daily ensures exists o :: o in Candidates(events, x.source, x.key) && From(x, o) {
      assert Candidates(events, x.source, x.key) == Candidates(before, x.source, x.key);
    }
    forall other, key | Surviving(events, other, key).Some?
      ensures RowFor(other, key, Surviving(events, other, key).value) in Final(daily)
    {
      assert Surviving(events, other, key) == Surviving(before, other, key);
    }
  }

  lemma RefitKeepsDaily(scale: AmountScale, t: Tables, source: Source, date: int)
    ensures Apply(scale, t, Refresh(source, date)).daily == t.daily
  {
  }

  // ---------------------------------------------------------------------------------------------
  // What is shown of one bucket
  // ---------------------------------------------------------------------------------------------

  /** The table shows exactly this of the bucket. */
  ghost predicate Shows(daily: seq<StoredRow>, source: Source, key: BucketKey, o: Option<Origin>) {
    forall x :: x in Final(daily) && x.source == source && x.key == key <==>
                o.Some? && x == RowFor(source, key, o.value)
  }

  /** The tables when the database merges nothing. */
  ghost function Unmerged(scale: AmountScale, steps: seq<Step>): Tables {
    if steps == [] then Tables([], map[])
    else Apply(scale, Unmerged(scale, steps[..|steps| - 1]), steps[|steps| - 1])
  }

  ghost function UnmergedTrace(scale: AmountScale, steps: seq<Step>): (trace: seq<Tables>)
    ensures |trace| == |steps| + 1
    ensures forall i :: 0 <= i <= |steps| ==> trace[i] == Unmerged(scale, steps[..i])
  {
    seq(|steps| + 1, i requires 0 <= i <= |steps| => Unmerged(scale, steps[..i]))
  }

  lemma UnmergedStep(scale: AmountScale, steps: seq<Step>, i: nat)
    requires i < |steps|
    ensures Unmerged(scale, steps[..i + 1]) == Apply(scale, Unmerged(scale, steps[..i]), steps[i])
  {
    hide Apply;
    assert steps[..i + 1][..i] == steps[..i];
  }

  lemma UnmergedIsRun(scale: AmountScale, steps: seq<Step>)
    ensures IsRun(scale, UnmergedTrace(scale, steps), steps)
  {
    hide Apply, IsMerge;
    var trace := UnmergedTrace(scale, steps);
    assert steps[..0] == [];
    forall i | 0 <= i < |steps| ensures Follows(Apply(scale, trace[i], steps[i]), trace[i + 1]) {
      UnmergedStep(scale, steps, i);
      NoMerge(trace[i + 1].daily);
    }
  }

  /** The stored versions of one bucket, oldest first. */
  function VersionsOf(daily: seq<StoredRow>, source: Source, key: BucketKey): seq<StoredRow> {
    if daily == [] then []
    else
      var last := daily[|daily| - 1];
      VersionsOf(daily[..|daily| - 1], source, key)
        + (if last.source == source && last.key == key then [last] else [])
  }

  ghost predicate AllFrom(versions: seq<StoredRow>, origins: seq<Origin>) {
    |versions| == |origins| && forall i :: 0 <= i < |versions| ==> From(versions[i], origins[i])
  }

  lemma {:induction false} VersionsConcat(xs: seq<StoredRow>, ys: seq<StoredRow>, source: Source, key: BucketKey)
    ensures VersionsOf(xs + ys, source, key) == VersionsOf(xs, source, key) + VersionsOf(ys, source, key)
    decreases |ys|
  {
    if ys == [] {
      assert xs + ys == xs;
    } else {
      VersionsConcat(xs, ys[..|ys| - 1], source, key);
      assert (xs + ys)[..|xs + ys| - 1] == xs + ys[..|ys| - 1];
    }
  }

  /** Distinct rows hold one version of a bucket or none. */
  lemma {:induction false} OneVersion(rows: seq<StoredRow>, source: Source, key: BucketKey)
    requires Deduplicated(rows)
    ensures |VersionsOf(rows, source, key)| <= 1
    ensures forall x :: x in VersionsOf(rows, source, key) <==> x in rows && x.source == source && x.key == key
  {
    if rows != [] {
      var init, last := rows[..|rows| - 1], rows[|rows| - 1];
      assert rows == init + [last];
      OneVersion(init, source, key);
      var before := VersionsOf(init, source, key);
      assert before != [] ==> before[0] in before;
    }
  }

  lemma VersionsSnoc(init: seq<StoredRow>, last: StoredRow, source: Source, key: BucketKey)
    ensures VersionsOf(init + [last], source, key) ==
            VersionsOf(init, source, key) + (if last.source == source && last.key == key then [last] else [])
  {
    assert (init + [last])[..|init|] == init;
  }

  lemma SameIngestion(x: StoredRow, o: Origin)
    requires From(x, o)
    ensures x.ingestion == o.ingestion
  {
  }

  lemma {:induction false} VersionsOfDelete(
    daily: seq<StoredRow>, owner: Source, ingestion: string, source: Source, key: BucketKey)
    ensures VersionsOf(DeleteOwned(daily, owner, ingestion), source, key)
         == DeleteOwned(VersionsOf(daily, source, key), owner, ingestion)
  {
    hide DeleteOwned, VersionsOf;
    if daily == [] {
      NoVersionsToDelete(owner, ingestion, source, key);
    } else {
      var init, last := daily[..|daily| - 1], daily[|daily| - 1];
      assert daily == init + [last];
      var before, kept := VersionsOf(init, source, key), DeleteOwned(init, owner, ingestion);
      VersionsOfDelete(init, owner, ingestion, source, key);
      DeleteSnoc(init, last, owner, ingestion);
      DeleteSnoc(before, last, owner, ingestion);
      VersionsSnoc(init, last, source, key);
      VersionsSnoc(kept, last, source, key);
      assert before + [] == before && kept + [] == kept;
      assert VersionsOf(kept, source, key) + [] == VersionsOf(kept, source, key);
    }
  }

  lemma NoVersionsToDelete(owner: Source, ingestion: string, source: Source, key: BucketKey)
    ensures VersionsOf([], source, key) == [] && DeleteOwned([], owner, ingestion) == []
  {
  }

  lemma {:induction false} DeletedVersions(
    versions: seq<StoredRow>, origins: seq<Origin>, source: Source, ingestion: string)
    requires AllFrom(versions, origins) && forall x :: x in versions ==> x.source == source
    ensures AllFrom(DeleteOwned(versions, source, ingestion), WithoutIngestion(origins, ingestion))
  {
    hide From;
    if versions != [] {
      var n := |versions| - 1;
      assert versions == versions[..n] + [versions[n]];
      SameIngestion(versions[n], origins[n]);
      DeletedVersions(versions[..n], origins[..n], source, ingestion);
    }
  }

  lemma {:induction false} VersionsBelong(daily: seq<StoredRow>, source: Source, key: BucketKey)
    ensures forall x :: x in VersionsOf(daily, source, key) ==> x in daily && x.source == source && x.key == key
  {
    if daily != [] {
      VersionsBelong(daily[..|daily| - 1], source, key);
    }
  }

  /** Without merges the stored versions of a bucket are its candidates, one by one. */
  lemma {:induction false} UnmergedVersions(
    scale: AmountScale, steps: seq<Step>, events: seq<Event>, source: Source, key: BucketKey)
    requires PerformsAll(steps, events)
    ensures AllFrom(VersionsOf(Unmerged(scale, steps).daily, source, key), Candidates(events, source, key))
  {
    hide AllFrom, Stamp, DeleteOwned, VersionsOf, BucketsOf, ChargesOf, WithoutIngestion, Refit;
    if steps == [] {
      NoVersions(source, key);
    } else {
      var n := |steps| - 1;
      UnmergedVersions(scale, steps[..n], events[..n], source, key);
      var t := Unmerged(scale, steps[..n]);
      assert Performs(steps[n], events[n]);
      match events[n] {
        case Report(s, _, _, _) =>
          InsertedVersion(t.daily, events[n], steps[n].rows, source, key, Candidates(events[..n], source, key));
        case Erase(s, ingestion) =>
          var versions := VersionsOf(t.daily, source, key);
          VersionsBelong(t.daily, source, key);
          VersionsOfDelete(t.daily, s, ingestion, source, key);
          if s == source {
            DeletedVersions(versions, Candidates(events[..n], source, key), source, ingestion);
          } else {
            DeleteStrangers(versions, s, ingestion);
          }
        case Reckon(s, date) => RefitKeepsDaily(scale, t, s, date);
      }
    }
  }

  lemma NoVersions(source: Source, key: BucketKey)
    ensures AllFrom(VersionsOf([], source, key), [])
  {
  }

  lemma InsertedVersion(
    daily: seq<StoredRow>, event: Event, rows: seq<DailyRow>, source: Source, key: BucketKey, origins: seq<Origin>)
    requires event.Report? && BucketsOf(event.rules, event.raw, rows)
    requires AllFrom(VersionsOf(daily, source, key), origins)
    ensures var txs := Charges(event.rules, event.raw, key);
            AllFrom(VersionsOf(daily + Stamp(event.source, event.ingestion, rows), source, key),
                    if event.source == source && txs != [] then origins + [Origin(event.ingestion, txs)] else origins)
  {
    hide Stamp, VersionsOf, ChargesOf, Fold, BucketsOf;
    var stamped := Stamp(event.source, event.ingestion, rows);
    var txs := Charges(event.rules, event.raw, key);
    assert Distinct(KeysOf(rows)) by { BucketsDistinct(event.rules, event.raw, rows); }
    StampDeduplicated(event.source, event.ingestion, rows);
    VersionsConcat(daily, stamped, source, key);
    OneVersion(stamped, source, key);
    var x := RowFor(source, key, Origin(event.ingestion, txs));
    InsertedRow(event, rows, x);
    var added := VersionsOf(stamped, source, key);
    if added != [] {
      assert added[0] in added;
      InsertedRow(event, rows, added[0]);
      assert added == [added[0]];
    }
  }

  /** The last of a bucket's versions is shown. */
  lemma {:induction false} LastIsShown(daily: seq<StoredRow>, source: Source, key: BucketKey)
    ensures var versions := VersionsOf(daily, source, key);
            versions != [] ==> versions[|versions| - 1] in Final(daily)
  {
    hide Upsert;
    if daily != [] {
      var init, last := daily[..|daily| - 1], daily[|daily| - 1];
      LastIsShown(init, source, key);
      VersionsBelong(init, source, key);
      UpsertSpec(Final(init), last);
      var before := VersionsOf(init, source, key);
      assert before != [] ==> before[|before| - 1] in before;
    }
  }

  /** Every run shows exactly the last report of a bucket unless it was deleted since, if and only if it was
      not, or no older report that was not deleted has rows for the bucket. Otherwise the older report
      shows in a run without merges. */
  lemma BucketSettledExactly(
    scale: AmountScale, steps: seq<Step>, events: seq<Event>, source: Source, key: BucketKey)
    requires PerformsAll(steps, events)
    ensures var settled := Surviving(events, source, key).Some? || Candidates(events, source, key) == [];
            settled <==>
            (forall trace: seq<Tables> :: IsRun(scale, trace, steps) ==>
               Shows(trace[|steps|].daily, source, key, Surviving(events, source, key)))
  {
    hide Shows, PerformsAll, Candidates, Surviving;
    var o := Surviving(events, source, key);
    if o.Some? || Candidates(events, source, key) == [] {
      forall trace: seq<Tables> | IsRun(scale, trace, steps) ensures Shows(trace[|steps|].daily, source, key, o) {
        DailyHoldsReports(scale, trace, steps, events);
        SettledShows(trace[|steps|].daily, events, source, key);
      }
    } else {
      var trace := UnmergedTrace(scale, steps);
      assert steps[..|steps|] == steps;
      UnmergedIsRun(scale, steps);
      UnmergedVersions(scale, steps, events, source, key);
      OlderShows(trace[|steps|].daily, events, source, key);
    }
  }

  lemma SettledShows(daily: seq<StoredRow>, events: seq<Event>, source: Source, key: BucketKey)
    requires OnlyCandidates(daily, events) && ShowsSurviving(daily, events)
    requires Surviving(events, source, key).Some? || Candidates(events, source, key) == []
    ensures Shows(daily, source, key, Surviving(events, source, key))
  {
    hide Final, Fold, Candidates, Surviving;
    var o := Surviving(events, source, key);
    forall x | x in Final(daily) && x.source == source && x.key == key
      ensures o.Some? && x == RowFor(source, key, o.value)
    {
      ShownIsStored(daily, x);
      if o.Some? {
        ShownOnce(daily, x, RowFor(source, key, o.value));
      } else {
        assert false;
      }
    }
  }

  lemma ShownIsStored(daily: seq<StoredRow>, x: StoredRow)
    requires x in Final(daily)
    ensures x in daily
  {
    hide Final, LastVersion;
    FinalSpec(daily);
    LastIsStored(daily, x);
  }

  lemma OlderShows(daily: seq<StoredRow>, events: seq<Event>, source: Source, key: BucketKey)
    requires AllFrom(VersionsOf(daily, source, key), Candidates(events, source, key))
    requires Surviving(events, source, key).None? && Candidates(events, source, key) != []
    ensures !Shows(daily, source, key, Surviving(events, source, key))
  {
    hide Final, VersionsOf, Fold, Candidates, Surviving;
    LastIsShown(daily, source, key);
    VersionsBelong(daily, source, key);
    var versions := VersionsOf(daily, source, key);
    assert versions[|versions| - 1] in versions;
  }

  /** If the database always merges completely, the table holds exactly the last reports not deleted. */
  lemma {:induction false} MergedDailyIsSurviving(
    scale: AmountScale, trace: seq<Tables>, steps: seq<Step>, events: seq<Event>)
    requires IsRun(scale, trace, steps) && PerformsAll(steps, events)
    requires forall i :: 0 <= i < |trace| ==> Deduplicated(trace[i].daily)
    ensures forall x :: x in trace[|steps|].daily <==>
              var o := Surviving(events, x.source, x.key);
              o.Some? && From(x, o.value)
    decreases |steps|
  {
    hide IsMerge, Stamp, DeleteOwned, Fold, ChargesOf, BucketsOf, Deduplicated, Refit, Final;
    if steps != [] {
      var n := |steps| - 1;
      RunPrefix(scale, trace, steps, n);
      MergedDailyIsSurviving(scale, trace[..n + 1], steps[..n], events[..n]);
      assert Performs(steps[n], events[n]);
      var daily, after := trace[n].daily, trace[n + 1].daily;
      FinalOfDeduplicated(daily);
      FinalOfDeduplicated(after);
      assert Follows(Apply(scale, trace[n], steps[n]), trace[n + 1]);
      MergedShows(Apply(scale, trace[n], steps[n]).daily, after);
      match events[n] {
        case Report(source, ingestion, rules, raw) =>
          assert Distinct(KeysOf(steps[n].rows)) by { BucketsDistinct(rules, raw, steps[n].rows); }
          forall x ensures x in after <==> var o := Surviving(events, x.source, x.key); o.Some? && From(x, o.value) {
            InsertedRow(events[n], steps[n].rows, x);
            InsertedFinal(daily, source, ingestion, steps[n].rows, x);
          }
        case Erase(source, ingestion) =>
          DeleteOwnedSpec(daily, source, ingestion);
          FinalOfDeduplicated(DeleteOwned(daily, source, ingestion));
        case Reckon(source, date) => RefitKeepsDaily(scale, trace[n], source, date);
      }
    }
  }

  lemma MergedShows(before: seq<StoredRow>, after: seq<StoredRow>)
    requires IsMerge(before, after) && Deduplicated(after)
    ensures after == Final(before)
  {
    FinalOfDeduplicated(after);
  }

  // ---------------------------------------------------------------------------------------------
  // What is served
  // ---------------------------------------------------------------------------------------------

  /** The transactions behind a daily row: the surviving origin's, or else those of a candidate whose sums
      the row holds. */
  ghost function TxsBehind(events: seq<Event>, source: Source, r: DailyRow): seq<Charge> {
    var o := Surviving(events, source, r.key);
    if o.Some? then o.value.txs
    else if exists c :: c in Candidates(events, source, r.key) && Fold(c.txs) == r.stats then
      var c :| c in Candidates(events, source, r.key) && Fold(c.txs) == r.stats;
      c.txs
    else []
  }

  /** The transactions behind each daily row of the source. */
  ghost function RawTxs(events: seq<Event>, source: Source, rows: seq<DailyRow>): (txs: seq<seq<Charge>>)
    ensures |txs| == |rows|
    ensures forall i :: 0 <= i < |rows| ==> txs[i] == TxsBehind(events, source, rows[i])
  {
    seq(|rows|, i requires 0 <= i < |rows| => TxsBehind(events, source, rows[i]))
  }

  /** The raw transactions behind the rows in the cluster's window. */
  ghost function WindowTxs(events: seq<Event>, source: Source, rows: seq<DailyRow>, c: ClusterKey): seq<Charge> {
    Collect(rows, RawTxs(events, source, rows), WindowSelection(rows, c))
  }

  /** A shown row holds the sums of the transactions behind it. */
  lemma RowIsBehind(daily: seq<StoredRow>, events: seq<Event>, source: Source, r: DailyRow)
    requires OnlyCandidates(daily, events) && ShowsSurviving(daily, events)
    requires r in RowsOf(Final(daily), source)
    ensures Candidates(events, source, r.key) != []
    ensures r.stats == Fold(TxsBehind(events, source, r))
  {
    hide Final, Fold, RowsOf, Candidates, Surviving;
    RowsOfMembers(Final(daily), source, r);
    var x :| x in Final(daily) && x.source == source && x.key == r.key && x.stats == r.stats;
    ShownIsStored(daily, x);
    var o :| o in Candidates(events, source, r.key) && From(x, o);
    var last := Surviving(events, source, r.key);
    if last.Some? {
      ShownOnce(daily, x, RowFor(source, r.key, last.value));
    }
  }

  lemma StoredRowsFold(
    scale: AmountScale, trace: seq<Tables>, steps: seq<Step>, events: seq<Event>, source: Source)
    requires IsRun(scale, trace, steps) && PerformsAll(steps, events)
    ensures var rows := DailyRows(trace[|steps|], source);
            && RowsFold(rows, RawTxs(events, source, rows))
            && Distinct(KeysOf(rows))
            && (forall k :: Surviving(events, source, k).Some? ==> k in KeysOf(rows))
            && (forall k :: k in KeysOf(rows) ==> Candidates(events, source, k) != [])
  {
    hide PerformsAll, RowsOf, Final, Fold, Surviving, Candidates, TxsBehind, Deduplicated, OnlyCandidates;
    DailyHoldsReports(scale, trace, steps, events);
    var daily := trace[|steps|].daily;
    var rows := DailyRows(trace[|steps|], source);
    FinalSpec(daily);
    RowsOfDistinct(Final(daily), source);
    forall k | Surviving(events, source, k).Some? ensures k in KeysOf(rows) {
      var x := RowFor(source, k, Surviving(events, source, k).value);
      RowsOfMembers(Final(daily), source, DailyRow(k, x.stats));
      var i :| 0 <= i < |rows| && rows[i] == DailyRow(k, x.stats);
      assert KeysOf(rows)[i] == k;
    }
    forall i | 0 <= i < |rows|
      ensures Candidates(events, source, KeysOf(rows)[i]) != []
      ensures rows[i].stats == Fold(RawTxs(events, source, rows)[i])
    {
      RowIsBehind(daily, events, source, rows[i]);
    }
  }

  /** Over any run of reports, deletions, merges and refits, for any `FINAL` read of a source's latest
      snapshot: the source was refitted; the rows it was fitted on are one per bucket, with every bucket
      whose last report was not deleted and none without a report left; each row read is the unique
      least-squares line of the raw report rows behind its own cluster's window, and is served exactly when
      it is GOOD; every fitted cluster has a row with its sort key, and they are all read if and only if no
      two differ in funding alone. */
  lemma ServedLineFitsReports(
    scale: AmountScale, trace: seq<Tables>, steps: seq<Step>, events: seq<Event>, source: Source,
    snapshot: Model, read: Model, c: ClusterKey, a: real, b: real)
    requires IsRun(scale, trace, steps) && PerformsAll(steps, events) && WellTimed(steps)
    requires IsLatest(trace[|steps|].model, source, Some(snapshot)) && FinalOf(snapshot, read, SortKey)
    ensures var r := LastRefit(steps, source);
            && r.Some?
            && var rows, before := DailyRows(trace[r.value], source), events[..r.value];
            && Distinct(KeysOf(rows))
            && (forall k :: Surviving(before, source, k).Some? ==> k in KeysOf(rows))
            && (forall k :: k in KeysOf(rows) ==> Candidates(before, source, k) != [])
            && (c in read ==> c in Clusters(rows) && IsLineOf(read[c], WindowTxs(before, source, rows, c), a, b))
            && (c in Served(read) <==> c in read && read[c].verdict.Good?)
            && (c in Clusters(rows) ==> Represented(read, c, SortKey))
            && (read.Keys == Clusters(rows) <==> NoneDifferInFundingAlone(Clusters(rows)))
  {
    hide Follows, Performs, WellTimed, IsLatest, IsLineOf, Surviving, Candidates, WindowTxs, RawTxs,
         FinalOf, KeysApart, NoneDifferInFundingAlone, Clusters, Represented, DailyRows, FitTable, Served;
    SnapshotIsFit(scale, trace, steps, source, snapshot);
    var r := LastRefit(steps, source).value;
    var rows, before := DailyRows(trace[r], source), events[..r];
    RunPrefix(scale, trace, steps, r);
    PerformsPrefix(steps, events, r);
    StoredRowsFold(scale, trace[..r + 1], steps[..r], before, source);
    FitKeys(scale, rows);
    ReadsAllExactly(snapshot, read, SortKey);
    FundingAloneCollides(snapshot.Keys);
    ReadRow(snapshot, read, c);
    if c in read {
      FittedLine(scale, before, source, rows, c, a, b);
    }
    ServedRow(read, c);
  }

  /** The latest snapshot of a run is the fit at the last refit. */
  lemma SnapshotIsFit(
    scale: AmountScale, trace: seq<Tables>, steps: seq<Step>, source: Source, snapshot: Model)
    requires IsRun(scale, trace, steps) && WellTimed(steps)
    requires IsLatest(trace[|steps|].model, source, Some(snapshot))
    ensures var r := LastRefit(steps, source);
            r.Some? && snapshot == FitTable(scale, DailyRows(trace[r.value], source))
  {
    hide Follows, WellTimed, IsLatest, FitTable, DailyRows;
    RunsStayCurrent(scale, trace, steps, source);
    var r := LastRefit(steps, source);
    LatestIsUnique(trace[|steps|].model, source, Some(snapshot),
                   if r.Some? then Current(scale, DailyRows(trace[r.value], source)) else None);
  }

  lemma PerformsPrefix(steps: seq<Step>, events: seq<Event>, n: nat)
    requires PerformsAll(steps, events) && n <= |steps|
    ensures PerformsAll(steps[..n], events[..n])
  {
    hide Performs;
  }

  /** A fitted row is the line of the raw transactions behind its window, and is served when it is GOOD. */
  lemma FittedLine(
    scale: AmountScale, events: seq<Event>, source: Source, rows: seq<DailyRow>, c: ClusterKey, a: real, b: real)
    requires RowsFold(rows, RawTxs(events, source, rows)) && c in FitTable(scale, rows)
    ensures IsLineOf(FitTable(scale, rows)[c], WindowTxs(events, source, rows, c), a, b)
    ensures IsServed(FitTable(scale, rows)[c]) <==> FitTable(scale, rows)[c].verdict.Good?
  {
    hide RawTxs, FitBands, IsLineOf, Collect, SumWhere, ModelBands, WindowSelection;
    CollectSum(rows, RawTxs(events, source, rows), WindowSelection(rows, c));
    PublishedLineIsLeastSquares(scale, rows, c, WindowTxs(events, source, rows, c), a, b);
    GoodIsServed(scale, ModelBands(rows, c), WindowTxs(events, source, rows, c), a, b);
  }

  lemma ServedRow(read: Model, c: ClusterKey)
    ensures c in Served(read) <==> c in read && IsServed(read[c])
  {
  }

  lemma ReadRow(snapshot: Model, read: Model, c: ClusterKey)
    requires FinalOf(snapshot, read, SortKey)
    ensures c in read ==> c in snapshot && read[c] == snapshot[c]
    ensures c in snapshot ==> Represented(read, c, SortKey)
  {
  }

  /** A GOOD row has gross volume, so serving's second filter never drops one. */
  lemma GoodIsServed(scale: AmountScale, bands: seq<Band>, txs: seq<Charge>, a: real, b: real)
    requires IsLineOf(FitBands(scale, bands), txs, a, b)
    ensures IsServed(FitBands(scale, bands)) <==> FitBands(scale, bands).verdict.Good?
  {
    hide SumBands, SqlLine, SqlAbove, SqlTight, SqlBpsSquared, AStar, Fold, SquaredError;
    FoldCount(txs);
  }

  // ---------------------------------------------------------------------------------------------
  // One report into empty tables
  // ---------------------------------------------------------------------------------------------

  lemma FirstReport(
    scale: AmountScale, rules: Rules, raw: seq<SettledRow>, emitted: seq<DailyRow>, trace: seq<Tables>,
    source: Source, ingestion: string, date: int)
    requires BucketsOf(rules, raw, emitted)
    requires IsRun(scale, trace, [Insert(source, ingestion, emitted), Refresh(source, date)])
    ensures emitted != [] ==>
              && SnapshotKey(source, date) in trace[2].model
              && trace[2].model[SnapshotKey(source, date)] == FitTable(scale, emitted)
  {
    hide Final, RowsOf, FitTable, BucketsOf, Stamp, Subsequence;
    var stamped := Stamp(source, ingestion, emitted);
    var steps := [Insert(source, ingestion, emitted), Refresh(source, date)];
    assert Distinct(KeysOf(emitted)) by { BucketsDistinct(rules, raw, emitted); }
    StampDeduplicated(source, ingestion, emitted);
    FinalOfDeduplicated(stamped);
    StampedRows(source, ingestion, emitted);
    assert Follows(Apply(scale, trace[0], steps[0]), trace[1]);
    assert Follows(Apply(scale, trace[1], steps[1]), trace[2]);
    assert [] + stamped == stamped;
    assert DailyRows(trace[1], source) == emitted;
    FitEmptyIffNoData(scale, emitted);
  }

  /** A report's buckets inserted into empty tables and fitted: each row read is the unique least-squares
      line of the report's own rows in the window, none of which was ever stored, and every cluster's row is
      read if and only if no two clusters differ in funding alone. */
  lemma StreamedReportFitsRawRows(
    scale: AmountScale, rules: Rules, raw: seq<SettledRow>, emitted: seq<DailyRow>, trace: seq<Tables>,
    source: Source, ingestion: string, date: int, read: Model, c: ClusterKey, a: real, b: real)
    requires BucketsOf(rules, raw, emitted) && emitted != []
    requires IsRun(scale, trace, [Insert(source, ingestion, emitted), Refresh(source, date)])
    ensures var model := trace[2].model;
            && SnapshotKey(source, date) in model
            && (FinalOf(model[SnapshotKey(source, date)], read, SortKey) ==>
                && (read.Keys == Clusters(emitted) <==> NoneDifferInFundingAlone(Clusters(emitted)))
                && (c in read ==>
                    && c in Clusters(emitted)
                    && IsLineOf(read[c], ChargesWhere(rules, raw, WindowSelection(emitted, c)),
                                a, b)))
  {
    hide IsRun, FitTable, IsLineOf, ChargesWhere, SumWhere, BucketsOf, FinalOf, KeysApart, NoneDifferInFundingAlone,
         Clusters;
    FirstReport(scale, rules, raw, emitted, trace, source, ingestion, date);
    var snapshot := FitTable(scale, emitted);
    FitKeys(scale, emitted);
    if FinalOf(snapshot, read, SortKey) {
      ReadsAllExactly(snapshot, read, SortKey);
      FundingAloneCollides(snapshot.Keys);
      ReadRow(snapshot, read, c);
      if c in read {
        var sel := WindowSelection(emitted, c);
        EmittedBucketsAreRawSums(rules, raw, emitted, sel);
        PublishedLineIsLeastSquares(scale, emitted, c, ChargesWhere(rules, raw, sel), a, b);
      }
    }
  }

  /** An input on which a cluster is lost: a report of two rows that differ only in funding gives two
      clusters with a model row each, and no read returns both. */
  lemma FundingCollapses(
    scale: AmountScale, rules: Rules, row: SettledRow, funding: string, emitted: seq<DailyRow>, trace: seq<Tables>,
    source: Source, ingestion: string, date: int, read: Model)
    requires Kept(row) && funding != row.funding
    requires BucketsOf(rules, [row, row.(funding := funding)], emitted)
    requires IsRun(scale, trace, [Insert(source, ingestion, emitted), Refresh(source, date)])
    ensures var c, d := KeyOf(rules, row).cluster, KeyOf(rules, row.(funding := funding)).cluster;
            var model := trace[2].model;
            && c != d && SortKey(c) == SortKey(d)
            && SnapshotKey(source, date) in model
            && var snapshot := model[SnapshotKey(source, date)];
            && c in snapshot && d in snapshot
            && (FinalOf(snapshot, read, SortKey) ==> !(c in read && d in read))
  {
    hide IsRun, FitBands, BucketsOf, KeyOf, SortKey;
    var other := row.(funding := funding);
    var raw := [row, other];
    TwoKeys(rules, row, funding);
    BothBuckets(rules, row, other, emitted);
    FirstReport(scale, rules, raw, emitted, trace, source, ingestion, date);
  }

  lemma TwoKeys(rules: Rules, row: SettledRow, funding: string)
    requires Kept(row) && funding != row.funding
    ensures var k, l := KeyOf(rules, row), KeyOf(rules, row.(funding := funding));
            k.cluster != l.cluster && SortKey(k.cluster) == SortKey(l.cluster) && k.day == l.day
  {
    assert BinPrefix(row.bin) == BinPrefix(row.(funding := funding).bin);
  }

  /** Two rows of one day are both in the window of their report. */
  lemma BothBuckets(rules: Rules, row: SettledRow, other: SettledRow, emitted: seq<DailyRow>)
    requires Kept(row) && Kept(other) && KeyOf(rules, row).day == KeyOf(rules, other).day
    requires BucketsOf(rules, [row, other], emitted)
    ensures emitted != []
    ensures KeyOf(rules, row).cluster in Clusters(emitted) && KeyOf(rules, other).cluster in Clusters(emitted)
  {
    hide KeyOf, Fold;
    var raw := [row, other];
    assert raw[..1] == [row] && [row][..0] == [];
    KeptRowHasBucket(rules, raw, row);
    KeptRowHasBucket(rules, raw, other);
    var i :| 0 <= i < |emitted| && KeysOf(emitted)[i] == KeyOf(rules, row);
    var j :| 0 <= j < |emitted| && KeysOf(emitted)[j] == KeyOf(rules, other);
    var d := LatestDay(emitted);
    var r :| r in emitted && r.key.day == d;
    OnlyTwoKeys(rules, row, other, emitted, r);
    assert emitted[i] in emitted && emitted[j] in emitted;
  }

  lemma OnlyTwoKeys(rules: Rules, row: SettledRow, other: SettledRow, emitted: seq<DailyRow>, r: DailyRow)
    requires Kept(row) && Kept(other) && BucketsOf(rules, [row, other], emitted) && r in emitted
    ensures r.key == KeyOf(rules, row) || r.key == KeyOf(rules, other)
  {
    hide KeyOf, Fold, ChargesOf, InBucket;
    var sel := (x: SettledRow) => InBucket(rules, x, r.key);
    assert [] + [row] == [row] && [row] + [other] == [row, other];
    ChargesSnoc([], row, sel);
    ChargesSnoc([row], other, sel);
    NoCharges();
    KeyIsBucket(rules, row, r.key);
    KeyIsBucket(rules, other, r.key);
    var i :| 0 <= i < |emitted| && emitted[i] == r;
    assert KeysOf(emitted)[i] == r.key;
    assert Charges(rules, [row, other], r.key) != [];
  }
}
