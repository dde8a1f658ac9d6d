/**
 The `cost_daily_stats` table: `insert_daily_stats` and `delete_ingestion_rows` of
 `src/cost_ingestion/sink.rs` on a ReplacingMergeTree. The table holds versions; reads go through
 `FINAL`, which shows the last version of each identity; at any time a background merge may drop
 superseded versions.

 Main result: deleting an ingestion restores what was shown before it, whatever was merged in between,
 if and only if it had superseded nothing (`DeleteUndoesInsertExactly`).
 */
module DailyTable {
  import opened SufficientStats
  import opened CostTypes
  import opened Rollup

  /** The (connector, account, merchant) that owns daily rows and snapshots. */
  datatype Source = Source(connector: string, account: string, merchant: string)

  datatype StoredRow = StoredRow(source: Source, key: BucketKey, ingestion: string, stats: SuffStats)

  // ---------------------------------------------------------------------------------------------
  // The last version of each identity
  // ---------------------------------------------------------------------------------------------

  predicate SameIdentity(x: StoredRow, y: StoredRow) {
    x.source == y.source && x.key == y.key
  }

  ghost predicate Deduplicated(daily: seq<StoredRow>) {
    forall i, j :: 0 <= i < j < |daily| ==> !SameIdentity(daily[i], daily[j])
  }

  /** The rows with another identity. */
  function Others(daily: seq<StoredRow>, row: StoredRow): (r: seq<StoredRow>)
    ensures forall x :: x in r <==> x in daily && !SameIdentity(x, row)
    ensures Deduplicated(daily) ==> Deduplicated(r)
  {
    if daily == [] then []
    else
      var init, last := daily[..|daily| - 1], daily[|daily| - 1];
      assert daily == init + [last];
      assert Deduplicated(daily) ==> forall x :: x in init ==> !SameIdentity(x, last);
      Others(init, row) + (if SameIdentity(last, row) then [] else [last])
  }

  function Upsert(daily: seq<StoredRow>, row: StoredRow): seq<StoredRow> {
    Others(daily, row) + [row]
  }

  function UpsertAll(daily: seq<StoredRow>, rows: seq<StoredRow>): seq<StoredRow> {
    if rows == [] then daily else Upsert(UpsertAll(daily, rows[..|rows| - 1]), rows[|rows| - 1])
  }

  /** What `FINAL` shows of the stored versions, which are in the order of their insertion. */
  function Final(versions: seq<StoredRow>): seq<StoredRow> {
    UpsertAll([], versions)
  }

  lemma UpsertSpec(daily: seq<StoredRow>, row: StoredRow)
    ensures Deduplicated(daily) ==> Deduplicated(Upsert(daily, row))
    ensures forall x :: x in Upsert(daily, row) <==> x == row || (x in daily && !SameIdentity(x, row))
  {
  }

  /** After an insert each written row is shown and every other row survives unless a written row has
      its identity. */
  lemma {:induction false} UpsertAllSpec(daily: seq<StoredRow>, rows: seq<StoredRow>)
    requires Deduplicated(rows)
    ensures Deduplicated(daily) ==> Deduplicated(UpsertAll(daily, rows))
    ensures forall x :: x in UpsertAll(daily, rows) <==>
              x in rows || (x in daily && forall r :: r in rows ==> !SameIdentity(x, r))
  {
    hide Upsert;
    if rows != [] {
      var init, last := rows[..|rows| - 1], rows[|rows| - 1];
      assert rows == init + [last];
      UpsertAllSpec(daily, init);
      UpsertSpec(UpsertAll(daily, init), last);
      assert forall r :: r in init ==> !SameIdentity(r, last);
    }
  }

  /** Splitting an insert into chunks changes nothing. */
  lemma {:induction false} UpsertAllConcat(daily: seq<StoredRow>, xs: seq<StoredRow>, ys: seq<StoredRow>)
    ensures UpsertAll(daily, xs + ys) == UpsertAll(UpsertAll(daily, xs), ys)
    decreases |ys|
  {
    if ys == [] {
      assert xs + ys == xs;
    } else {
      UpsertAllConcat(daily, xs, ys[..|ys| - 1]);
      assert (xs + ys)[..|xs + ys| - 1] == xs + ys[..|ys| - 1];
    }
  }

  /** `x` is the last version of its identity. */
  ghost predicate LastVersion(versions: seq<StoredRow>, x: StoredRow) {
    exists i :: 0 <= i < |versions| && versions[i] == x &&
                forall j :: i < j < |versions| ==> !SameIdentity(versions[j], x)
  }

  lemma LastVersionSnoc(init: seq<StoredRow>, last: StoredRow, x: StoredRow)
    ensures LastVersion(init + [last], x) <==> x == last || (LastVersion(init, x) && !SameIdentity(x, last))
  {
    var versions := init + [last];
    assert versions[|init|] == last;
    if LastVersion(init, x) && !SameIdentity(x, last) {
      var i :| 0 <= i < |init| && init[i] == x && forall j :: i < j < |init| ==> !SameIdentity(init[j], x);
      assert versions[i] == x;
    }
    if LastVersion(versions, x) && x != last {
      var i :| 0 <= i < |versions| && versions[i] == x &&
               forall j :: i < j < |versions| ==> !SameIdentity(versions[j], x);
      assert init[i] == x;
      assert forall j :: i < j < |init| ==> init[j] == versions[j];
    }
  }

  /** `FINAL` shows exactly the last versions, one per identity. */
  lemma {:induction false} FinalSpec(versions: seq<StoredRow>)
    ensures Deduplicated(Final(versions))
    ensures forall x :: x in Final(versions) <==> LastVersion(versions, x)
  {
    hide Upsert, LastVersion;
    if versions == [] {
      NothingIsLast();
    } else {
      var init, last := versions[..|versions| - 1], versions[|versions| - 1];
      assert versions == init + [last];
      FinalSpec(init);
      UpsertSpec(Final(init), last);
      forall x ensures x in Final(versions) <==> LastVersion(versions, x) {
        LastVersionSnoc(init, last, x);
      }
    }
  }

  lemma NothingIsLast()
    ensures forall x :: !LastVersion([], x)
  {
  }

  lemma OthersOfStrangers(daily: seq<StoredRow>, row: StoredRow)
    requires forall x :: x in daily ==> !SameIdentity(x, row)
    ensures Others(daily, row) == daily
  {
    if daily != [] {
      var init, last := daily[..|daily| - 1], daily[|daily| - 1];
      assert daily == init + [last];
      OthersOfStrangers(init, row);
    }
  }

  /** Rows with distinct identities are all shown, in order. */
  lemma {:induction false} FinalOfDeduplicated(rows: seq<StoredRow>)
    requires Deduplicated(rows)
    ensures Final(rows) == rows
  {
    if rows != [] {
      var init, last := rows[..|rows| - 1], rows[|rows| - 1];
      assert rows == init + [last];
      FinalOfDeduplicated(init);
      OthersOfStrangers(init, last);
    }
  }

  // ---------------------------------------------------------------------------------------------
  // Background merges
  // ---------------------------------------------------------------------------------------------

  ghost predicate Subsequence(w: seq<StoredRow>, v: seq<StoredRow>) {
    || w == []
    || (v != [] && w[|w| - 1] == v[|v| - 1] && Subsequence(w[..|w| - 1], v[..|v| - 1]))
    || (v != [] && Subsequence(w, v[..|v| - 1]))
  }

  lemma {:induction false} SubsequenceMembers(w: seq<StoredRow>, v: seq<StoredRow>, x: StoredRow)
    requires Subsequence(w, v) && x in w
    ensures x in v
    decreases |v|
  {
    if v != [] && w[|w| - 1] == v[|v| - 1] && Subsequence(w[..|w| - 1], v[..|v| - 1]) {
      if x in w[..|w| - 1] {
        SubsequenceMembers(w[..|w| - 1], v[..|v| - 1], x);
      }
    } else {
      SubsequenceMembers(w, v[..|v| - 1], x);
    }
  }

  /** A merge drops versions but never a last one, so `FINAL` shows the same. */
  ghost predicate IsMerge(before: seq<StoredRow>, after: seq<StoredRow>) {
    Subsequence(after, before) && Final(after) == Final(before)
  }

  lemma {:induction false} WholeIsSubsequence(v: seq<StoredRow>)
    ensures Subsequence(v, v)
  {
    if v != [] {
      WholeIsSubsequence(v[..|v| - 1]);
    }
  }

  /** The database may also merge nothing. */
  lemma NoMerge(v: seq<StoredRow>)
    ensures IsMerge(v, v)
  {
    WholeIsSubsequence(v);
  }

  lemma {:induction false} OthersSubsequence(w: seq<StoredRow>, v: seq<StoredRow>, row: StoredRow)
    requires Subsequence(w, v)
    ensures Subsequence(Others(w, row), v)
    decreases |v|
  {
    if w != [] {
      if v != [] && w[|w| - 1] == v[|v| - 1] && Subsequence(w[..|w| - 1], v[..|v| - 1]) {
        OthersSubsequence(w[..|w| - 1], v[..|v| - 1], row);
        var rest := Others(w[..|w| - 1], row);
        assert (rest + [w[|w| - 1]])[..|rest|] == rest;
        assert rest + [] == rest;
      } else {
        OthersSubsequence(w, v[..|v| - 1], row);
      }
    }
  }

  lemma {:induction false} FinalIsSubsequence(v: seq<StoredRow>)
    ensures Subsequence(Final(v), v)
  {
    if v != [] {
      var init, last := v[..|v| - 1], v[|v| - 1];
      FinalIsSubsequence(init);
      OthersSubsequence(Final(init), init, last);
      var rest := Others(Final(init), last);
      assert (rest + [last])[..|rest|] == rest;
    }
  }

  /** It may also merge everything, and keep only what `FINAL` shows. */
  lemma FullMerge(v: seq<StoredRow>)
    ensures IsMerge(v, Final(v))
  {
    FinalIsSubsequence(v);
    FinalSpec(v);
    FinalOfDeduplicated(Final(v));
  }

  // ---------------------------------------------------------------------------------------------
  // Inserts and deletes
  // ---------------------------------------------------------------------------------------------

  function Stamp(source: Source, ingestion: string, rows: seq<DailyRow>): (out: seq<StoredRow>)
    ensures |out| == |rows|
    ensures forall i :: 0 <= i < |rows| ==> out[i] == StoredRow(source, rows[i].key, ingestion, rows[i].stats)
  {
    seq(|rows|, i requires 0 <= i < |rows| => StoredRow(source, rows[i].key, ingestion, rows[i].stats))
  }

  lemma StampDeduplicated(source: Source, ingestion: string, rows: seq<DailyRow>)
    requires Distinct(KeysOf(rows))
    ensures Deduplicated(Stamp(source, ingestion, rows))
  {
    var stamped := Stamp(source, ingestion, rows);
    forall i, j | 0 <= i < j < |stamped| ensures !SameIdentity(stamped[i], stamped[j]) {
      assert KeysOf(rows)[i] != KeysOf(rows)[j];
    }
  }

  lemma StampedRow(source: Source, ingestion: string, rows: seq<DailyRow>, x: StoredRow)
    ensures x in Stamp(source, ingestion, rows) <==>
              x.source == source && x.ingestion == ingestion && DailyRow(x.key, x.stats) in rows
    ensures (exists r :: r in Stamp(source, ingestion, rows) && SameIdentity(x, r)) <==>
              x.source == source && x.key in KeysOf(rows)
  {
    var stamped := Stamp(source, ingestion, rows);
    if x.source == source && x.ingestion == ingestion && DailyRow(x.key, x.stats) in rows {
      var i :| 0 <= i < |rows| && rows[i] == DailyRow(x.key, x.stats);
      assert stamped[i] == x;
    }
    if x.source == source && x.key in KeysOf(rows) {
      var i :| 0 <= i < |rows| && KeysOf(rows)[i] == x.key;
      assert stamped[i] in stamped && SameIdentity(x, stamped[i]);
    }
    if r :| r in stamped && SameIdentity(x, r) {
      var i :| 0 <= i < |stamped| && stamped[i] == r;
      assert KeysOf(rows)[i] == x.key;
    }
  }

  predicate OwnedBy(row: StoredRow, source: Source, ingestion: string) {
    row.source == source && row.ingestion == ingestion
  }

  function DeleteOwned(daily: seq<StoredRow>, source: Source, ingestion: string): seq<StoredRow> {
    if daily == [] then []
    else
      var last := daily[|daily| - 1];
      var init := DeleteOwned(daily[..|daily| - 1], source, ingestion);
      if OwnedBy(last, source, ingestion) then init else init + [last]
  }

  lemma DeleteSnoc(init: seq<StoredRow>, last: StoredRow, source: Source, ingestion: string)
    ensures DeleteOwned(init + [last], source, ingestion) ==
            DeleteOwned(init, source, ingestion) + (if OwnedBy(last, source, ingestion) then [] else [last])
  {
    assert (init + [last])[..|init|] == init;
  }

  /** A delete removes exactly the versions the ingestion wrote. */
  lemma {:induction false} DeleteOwnedSpec(daily: seq<StoredRow>, source: Source, ingestion: string)
    ensures Deduplicated(daily) ==> Deduplicated(DeleteOwned(daily, source, ingestion))
    ensures forall x :: x in DeleteOwned(daily, source, ingestion) <==> x in daily && !OwnedBy(x, source, ingestion)
  {
    if daily != [] {
      var init, last := daily[..|daily| - 1], daily[|daily| - 1];
      assert daily == init + [last];
      DeleteOwnedSpec(init, source, ingestion);
      assert Deduplicated(daily) ==> forall x :: x in init ==> !SameIdentity(x, last);
    }
  }

  /** What was shown and is not deleted is still shown. */
  lemma {:induction false} LastSurvivesDelete(
    versions: seq<StoredRow>, source: Source, ingestion: string, x: StoredRow)
    requires LastVersion(versions, x) && !OwnedBy(x, source, ingestion)
    ensures LastVersion(DeleteOwned(versions, source, ingestion), x)
  {
    hide LastVersion;
    if versions == [] {
      NothingIsLast();
    } else {
      var init, last := versions[..|versions| - 1], versions[|versions| - 1];
      assert versions == init + [last];
      LastVersionSnoc(init, last, x);
      var kept := DeleteOwned(init, source, ingestion);
      LastVersionSnoc(kept, last, x);
      if x != last {
        LastSurvivesDelete(init, source, ingestion, x);
      }
    }
  }

  lemma ShownSurvivesDelete(versions: seq<StoredRow>, source: Source, ingestion: string)
    ensures forall x :: x in Final(versions) && !OwnedBy(x, source, ingestion) ==>
              x in Final(DeleteOwned(versions, source, ingestion))
  {
    hide Final, LastVersion, DeleteOwned;
    FinalSpec(versions);
    FinalSpec(DeleteOwned(versions, source, ingestion));
    forall x | x in Final(versions) && !OwnedBy(x, source, ingestion)
      ensures LastVersion(DeleteOwned(versions, source, ingestion), x)
    {
      LastSurvivesDelete(versions, source, ingestion, x);
    }
  }

  lemma {:induction false} DeleteStrangers(versions: seq<StoredRow>, source: Source, ingestion: string)
    requires forall x :: x in versions ==> !OwnedBy(x, source, ingestion)
    ensures DeleteOwned(versions, source, ingestion) == versions
  {
    if versions != [] {
      var init, last := versions[..|versions| - 1], versions[|versions| - 1];
      assert versions == init + [last];
      DeleteStrangers(init, source, ingestion);
    }
  }

  lemma {:induction false} DeleteConcat(
    xs: seq<StoredRow>, ys: seq<StoredRow>, source: Source, ingestion: string)
    requires forall y :: y in ys ==> OwnedBy(y, source, ingestion)
    ensures DeleteOwned(xs + ys, source, ingestion) == DeleteOwned(xs, source, ingestion)
    decreases |ys|
  {
    if ys == [] {
      assert xs + ys == xs;
    } else {
      var init, last := ys[..|ys| - 1], ys[|ys| - 1];
      assert ys == init + [last];
      DeleteConcat(xs, init, source, ingestion);
      assert (xs + ys)[..|xs + ys| - 1] == xs + init;
    }
  }

  // ---------------------------------------------------------------------------------------------
  // What a delete undoes
  // ---------------------------------------------------------------------------------------------

  /** The ingestion writes a bucket that is already shown. */
  ghost predicate Supersedes(versions: seq<StoredRow>, source: Source, rows: seq<DailyRow>) {
    exists x :: x in Final(versions) && x.source == source && x.key in KeysOf(rows)
  }

  /** The two tables show the same rows. */
  ghost predicate ShowSame(v: seq<StoredRow>, w: seq<StoredRow>) {
    forall x :: x in Final(v) <==> x in Final(w)
  }

  /** Deleting a new ingestion again restores what was shown before, however the database merged in
      between, if and only if it had superseded nothing; without any merge it always does. */
  lemma DeleteUndoesInsertExactly(versions: seq<StoredRow>, source: Source, ingestion: string, rows: seq<DailyRow>)
    requires Distinct(KeysOf(rows))
    requires forall x :: x in versions ==> !OwnedBy(x, source, ingestion)
    ensures var inserted := versions + Stamp(source, ingestion, rows);
            && (!Supersedes(versions, source, rows) <==>
                forall merged :: IsMerge(inserted, merged) ==>
                  ShowSame(DeleteOwned(merged, source, ingestion), versions))
            && DeleteOwned(inserted, source, ingestion) == versions
  {
    hide IsMerge, ShowSame, DeleteOwned, Final, Supersedes;
    var stamped := Stamp(source, ingestion, rows);
    var inserted := versions + stamped;
    DeleteConcat(versions, stamped, source, ingestion);
    DeleteStrangers(versions, source, ingestion);
    if Supersedes(versions, source, rows) {
      FullMerge(inserted);
      FullMergeLoses(versions, source, ingestion, rows);
    } else {
      forall merged | IsMerge(inserted, merged) ensures ShowSame(DeleteOwned(merged, source, ingestion), versions) {
        MergeKeepsUnsuperseded(versions, source, ingestion, rows, merged);
      }
    }
  }

  lemma InsertedFinal(versions: seq<StoredRow>, source: Source, ingestion: string, rows: seq<DailyRow>, x: StoredRow)
    requires Distinct(KeysOf(rows))
    ensures x in Final(versions + Stamp(source, ingestion, rows)) <==>
              || x in Stamp(source, ingestion, rows)
              || (x in Final(versions) && !(x.source == source && x.key in KeysOf(rows)))
  {
    hide Stamp, UpsertAll, SameIdentity;
    var stamped := Stamp(source, ingestion, rows);
    StampDeduplicated(source, ingestion, rows);
    UpsertAllConcat([], versions, stamped);
    UpsertAllSpec(Final(versions), stamped);
    StampedRow(source, ingestion, rows, x);
  }

  lemma FullMergeLoses(versions: seq<StoredRow>, source: Source, ingestion: string, rows: seq<DailyRow>)
    requires Distinct(KeysOf(rows)) && Supersedes(versions, source, rows)
    ensures var merged := Final(versions + Stamp(source, ingestion, rows));
            !ShowSame(DeleteOwned(merged, source, ingestion), versions)
  {
    hide Final, Stamp, DeleteOwned, SameIdentity;
    var merged := Final(versions + Stamp(source, ingestion, rows));
    var x :| x in Final(versions) && x.source == source && x.key in KeysOf(rows);
    var after := DeleteOwned(merged, source, ingestion);
    FinalSpec(versions + Stamp(source, ingestion, rows));
    DeleteOwnedSpec(merged, source, ingestion);
    FinalOfDeduplicated(after);
    InsertedFinal(versions, source, ingestion, rows, x);
    StampedRow(source, ingestion, rows, x);
    assert x !in after;
  }

  lemma MergeKeepsUnsuperseded(
    versions: seq<StoredRow>, source: Source, ingestion: string, rows: seq<DailyRow>, merged: seq<StoredRow>)
    requires Distinct(KeysOf(rows)) && !Supersedes(versions, source, rows)
    requires forall x :: x in versions ==> !OwnedBy(x, source, ingestion)
    requires IsMerge(versions + Stamp(source, ingestion, rows), merged)
    ensures ShowSame(DeleteOwned(merged, source, ingestion), versions)
  {
    hide Stamp, DeleteOwned, SameIdentity, Subsequence, Final, LastVersion;
    var stamped := Stamp(source, ingestion, rows);
    var after := DeleteOwned(merged, source, ingestion);
    FinalSpec(versions);
    FinalSpec(merged);
    FinalSpec(after);
    DeleteOwnedSpec(merged, source, ingestion);
    forall x | x in Final(versions) ensures x in Final(after) {
      LastIsStored(versions, x);
      InsertedFinal(versions, source, ingestion, rows, x);
      LastSurvivesDelete(merged, source, ingestion, x);
    }
    forall x | x in Final(after) ensures x in Final(versions) {
      LastIsStored(after, x);
      SubsequenceMembers(merged, versions + stamped, x);
      StampedRow(source, ingestion, rows, x);
      assert x in versions;
      var y := ShownFor(versions, x);
      LastIsStored(versions, y);
      InsertedFinal(versions, source, ingestion, rows, y);
      LastSurvivesDelete(merged, source, ingestion, y);
      ShownOnce(after, x, y);
    }
  }

  lemma LastIsStored(versions: seq<StoredRow>, x: StoredRow)
    requires LastVersion(versions, x)
    ensures x in versions
  {
  }

  /** Every stored identity is shown. */
  lemma {:induction false} ShownFor(versions: seq<StoredRow>, x: StoredRow) returns (y: StoredRow)
    requires x in versions
    ensures SameIdentity(x, y) && y in Final(versions)
  {
    var init, last := versions[..|versions| - 1], versions[|versions| - 1];
    assert versions == init + [last];
    if SameIdentity(x, last) {
      y := last;
    } else {
      y := ShownFor(init, x);
    }
    UpsertSpec(Final(init), last);
  }

  lemma ShownOnce(versions: seq<StoredRow>, x: StoredRow, y: StoredRow)
    requires x in Final(versions) && y in Final(versions) && SameIdentity(x, y)
    ensures x == y
  {
    hide Final;
    FinalSpec(versions);
  }

  // ---------------------------------------------------------------------------------------------
  // The rows of one source
  // ---------------------------------------------------------------------------------------------

  function RowsOf(daily: seq<StoredRow>, source: Source): seq<DailyRow> {
    if daily == [] then []
    else
      var last := daily[|daily| - 1];
      RowsOf(daily[..|daily| - 1], source)
        + (if last.source == source then [DailyRow(last.key, last.stats)] else [])
  }

  ghost predicate Stores(daily: seq<StoredRow>, source: Source, r: DailyRow) {
    exists x :: x in daily && x.source == source && x.key == r.key && x.stats == r.stats
  }

  lemma {:induction false} RowsOfMembers(daily: seq<StoredRow>, source: Source, r: DailyRow)
    ensures r in RowsOf(daily, source) <==> Stores(daily, source, r)
  {
    if daily != [] {
      var init, last := daily[..|daily| - 1], daily[|daily| - 1];
      assert daily == init + [last];
      RowsOfMembers(init, source, r);
    }
  }

  /** The fit queries see each shown bucket of the source once. */
  lemma {:induction false} RowsOfDistinct(daily: seq<StoredRow>, source: Source)
    requires Deduplicated(daily)
    ensures Distinct(KeysOf(RowsOf(daily, source)))
  {
    if daily != [] {
      var init, last := daily[..|daily| - 1], daily[|daily| - 1];
      assert daily == init + [last];
      RowsOfDistinct(init, source);
      var rows := RowsOf(init, source);
      KeysSnoc(rows, DailyRow(last.key, last.stats));
      forall i | 0 <= i < |rows| && last.source == source ensures KeysOf(rows)[i] != last.key {
        RowsOfMembers(init, source, rows[i]);
        var x :| x in init && x.source == source && x.key == rows[i].key;
        assert !SameIdentity(x, last);
      }
    }
  }

  lemma KeysSnoc(rows: seq<DailyRow>, r: DailyRow)
    ensures KeysOf(rows + [r]) == KeysOf(rows) + [r.key]
  {
    assert (rows + [r])[..|rows|] == rows;
  }

  lemma {:induction false} StampedRows(source: Source, ingestion: string, rows: seq<DailyRow>)
    ensures RowsOf(Stamp(source, ingestion, rows), source) == rows
  {
    if rows != [] {
      var n := |rows| - 1;
      StampedRows(source, ingestion, rows[..n]);
      assert Stamp(source, ingestion, rows)[..n] == Stamp(source, ingestion, rows[..n]);
    }
  }
}
