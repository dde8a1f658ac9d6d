/**
 How a report reaches the rollup: `parse_in_batches` of `src/cost_ingestion/source.rs` and the
 receiving loop of `ingest_report_reader` in `src/cost_ingestion/pipeline.rs`.
 */
module Pipeline {
  import opened Options
  import opened Sequences
  import opened SufficientStats
  import opened Rollup

  ghost predicate AllFull<T>(batches: seq<seq<T>>, size: nat) {
    forall b :: b in batches ==> |b| == size
  }

  function BatchSize(configured: nat): nat {
    if configured == 0 then 1 else configured
  }

  /** `parse_in_batches`. The connector delivers `rows` and then ends, in an error when
      `sourceFails`; the consumer refuses the batch numbered `refuseAt`, if any. `batches` is what the
      consumer accepted. */
  method ParseInBatches<T>(rows: seq<T>, configured: nat, sourceFails: bool, refuseAt: Option<nat>)
    returns (batches: seq<seq<T>>, ok: bool)
    ensures Flatten(batches) <= rows
    ensures ok ==> !sourceFails && Flatten(batches) == rows
    ensures !sourceFails && refuseAt == None ==> ok
    ensures refuseAt.Some? ==> |batches| <= refuseAt.value
    ensures !ok && !sourceFails ==> refuseAt == Some(|batches|) && Flatten(batches) < rows
    ensures refuseAt == None ==> |rows| - |Flatten(batches)| < (if configured >= 1 then configured else 1)
    ensures var size := if configured >= 1 then configured else 1;
            if ok && batches != []
            then AllFull(batches[..|batches| - 1], size) && 1 <= |batches[|batches| - 1]| <= size
            else AllFull(batches, size)
  {
    hide Flatten;
    var size := BatchSize(configured);
    batches := [];
    assert Flatten(batches) == [] by { FlattenNothing<T>(); }
    var batch: seq<T> := [];
    for i := 0 to |rows|
      invariant Flatten(batches) + batch == rows[..i]
      invariant AllFull(batches, size) && |batch| < size
      invariant refuseAt.Some? ==> |batches| <= refuseAt.value
    {
      ghost var before := batch;
      batch := batch + [rows[i]];
      assert Flatten(batches) + batch == rows[..i + 1] by {
        assert Flatten(batches) + batch == Flatten(batches) + before + [rows[i]];
      }
      if |batch| >= size {
        if refuseAt == Some(|batches|) {
          assert Flatten(batches) <= rows;
          return batches, false;
        }
        FlattenSnoc(batches, batch);
        batches, batch := batches + [batch], [];
        assert Flatten(batches) + [] == Flatten(batches);
      }
    }
    assert rows[..|rows|] == rows;
    assert Flatten(batches) <= rows;
    if sourceFails {
      return batches, false;
    }
    if batch != [] {
      if refuseAt == Some(|batches|) {
        return batches, false;
      }
      FlattenSnoc(batches, batch);
      assert (batches + [batch])[..|batches|] == batches;
      batches := batches + [batch];
    } else {
      assert Flatten(batches) + [] == Flatten(batches);
    }
    return batches, true;
  }

  /** The shape of a report that the history record keeps. `totalGross == None` is NaN. */
  datatype Shape = Shape(
    currencies: set<string>, countries: set<string>,
    periodStart: Option<int>, periodEnd: Option<int>, totalGross: Option<real>, processed: nat)

  ghost predicate IsLeastDate(d: Option<int>, rows: seq<SettledRow>) {
    && (d.None? <==> forall r :: r in rows ==> r.txnDate.None?)
    && (d.Some? ==>
        && (exists r :: r in rows && r.txnDate == d)
        && (forall r :: r in rows && r.txnDate.Some? ==> d.value <= r.txnDate.value))
  }

  ghost predicate IsGreatestDate(d: Option<int>, rows: seq<SettledRow>) {
    && (d.None? <==> forall r :: r in rows ==> r.txnDate.None?)
    && (d.Some? ==>
        && (exists r :: r in rows && r.txnDate == d)
        && (forall r :: r in rows && r.txnDate.Some? ==> r.txnDate.value <= d.value))
  }

  function GrossSum(rows: seq<SettledRow>): Option<real> {
    if rows == [] then Some(0.0)
    else
      var before, g := GrossSum(rows[..|rows| - 1]), rows[|rows| - 1].gross;
      if before.Some? && g.Some? then Some(before.value + g.value) else None
  }

  ghost predicate CurrenciesOf(currencies: set<string>, rows: seq<SettledRow>) {
    forall s :: s in currencies <==> s != "" && exists r :: r in rows && r.currency == s
  }

  ghost predicate CountriesOf(countries: set<string>, rows: seq<SettledRow>) {
    forall s :: s in countries <==> s != "" && exists r :: r in rows && r.issuerCountry == s
  }

  ghost predicate Describes(shape: Shape, rows: seq<SettledRow>) {
    && CurrenciesOf(shape.currencies, rows) && CountriesOf(shape.countries, rows)
    && IsLeastDate(shape.periodStart, rows) && IsGreatestDate(shape.periodEnd, rows)
    && shape.totalGross == GrossSum(rows) && shape.processed == |rows|
  }

  function ShapeWith(shape: Shape, row: SettledRow): Shape {
    Shape(
      shape.currencies + (if row.currency != "" then {row.currency} else {}),
      shape.countries + (if row.issuerCountry != "" then {row.issuerCountry} else {}),
      (match (row.txnDate, shape.periodStart) {
        case (Some(d), Some(p)) => Some(if p < d then p else d)
        case (Some(d), None) => Some(d)
        case (None, p) => p }),
      (match (row.txnDate, shape.periodEnd) {
        case (Some(d), Some(p)) => Some(if p > d then p else d)
        case (Some(d), None) => Some(d)
        case (None, p) => p }),
      (if shape.totalGross.Some? && row.gross.Some?
       then Some(shape.totalGross.value + row.gross.value) else None),
      shape.processed + 1)
  }

  lemma LeastDateStep(d: Option<int>, rows: seq<SettledRow>, row: SettledRow)
    requires IsLeastDate(d, rows)
    ensures IsLeastDate(if row.txnDate.None? || (d.Some? && d.value < row.txnDate.value) then d else row.txnDate,
                        rows + [row])
  {
    var all := rows + [row];
    assert row in all;
    assert forall r :: r in rows ==> r in all;
    assert forall r :: r in all ==> r in rows || r == row;
  }

  lemma GreatestDateStep(d: Option<int>, rows: seq<SettledRow>, row: SettledRow)
    requires IsGreatestDate(d, rows)
    ensures IsGreatestDate(if row.txnDate.None? || (d.Some? && d.value > row.txnDate.value) then d else row.txnDate,
                           rows + [row])
  {
    var all := rows + [row];
    assert row in all;
    assert forall r :: r in rows ==> r in all;
    assert forall r :: r in all ==> r in rows || r == row;
  }

  lemma CurrencyStep(currencies: set<string>, rows: seq<SettledRow>, row: SettledRow)
    requires CurrenciesOf(currencies, rows)
    ensures CurrenciesOf(currencies + (if row.currency != "" then {row.currency} else {}), rows + [row])
  {
    assert row in rows + [row];
    assert forall r :: r in rows ==> r in rows + [row];
    assert forall r :: r in rows + [row] ==> r in rows || r == row;
  }

  lemma CountryStep(countries: set<string>, rows: seq<SettledRow>, row: SettledRow)
    requires CountriesOf(countries, rows)
    ensures CountriesOf(countries + (if row.issuerCountry != "" then {row.issuerCountry} else {}), rows + [row])
  {
    assert row in rows + [row];
    assert forall r :: r in rows ==> r in rows + [row];
    assert forall r :: r in rows + [row] ==> r in rows || r == row;
  }

  lemma GrossStep(rows: seq<SettledRow>, row: SettledRow)
    ensures var before := GrossSum(rows);
            GrossSum(rows + [row]) ==
              if before.Some? && row.gross.Some? then Some(before.value + row.gross.value) else None
  {
    assert (rows + [row])[..|rows|] == rows;
  }

  lemma ShapeStep(shape: Shape, rows: seq<SettledRow>, row: SettledRow)
    requires Describes(shape, rows)
    ensures Describes(ShapeWith(shape, row), rows + [row])
  {
    hide IsLeastDate, IsGreatestDate, CurrenciesOf, CountriesOf, GrossSum;
    CurrencyStep(shape.currencies, rows, row);
    CountryStep(shape.countries, rows, row);
    LeastDateStep(shape.periodStart, rows, row);
    GreatestDateStep(shape.periodEnd, rows, row);
    GrossStep(rows, row);
  }

  lemma DescribesNothing()
    ensures Describes(Shape({}, {}, None, None, Some(0.0), 0), [])
  {
  }

  /** The receiving loop: whatever the batch boundaries, every row is folded once and in order. */
  method IngestBatches(acc: RollupAccumulator, batches: seq<seq<SettledRow>>) returns (shape: Shape)
    requires acc.Valid() && acc.seen == []
    modifies acc
    ensures acc.Valid() && acc.seen == Flatten(batches)
    ensures Describes(shape, Flatten(batches))
  {
    hide HoldsBuckets, HoldsBins, Describes, ShapeWith, Flatten;
    shape := Shape({}, {}, None, None, Some(0.0), 0);
    DescribesNothing();
    assert Flatten(batches[..0]) == [] by { FlattenNothing<SettledRow>(); }
    for i := 0 to |batches|
      invariant acc.Valid() && acc.seen == Flatten(batches[..i])
      invariant Describes(shape, acc.seen)
    {
      var batch := batches[i];
      for j := 0 to |batch|
        invariant acc.Valid() && acc.seen == Flatten(batches[..i]) + batch[..j]
        invariant Describes(shape, acc.seen)
      {
        ShapeStep(shape, acc.seen, batch[j]);
        shape := ShapeWith(shape, batch[j]);
        acc.AddRow(batch[j]);
        assert Flatten(batches[..i]) + batch[..j] + [batch[j]] == Flatten(batches[..i]) + batch[..j + 1];
      }
      assert batch[..|batch|] == batch;
      FlattenSnoc(batches[..i], batch);
      assert batches[..i + 1] == batches[..i] + [batch];
    }
    assert batches[..|batches|] == batches;
  }

  /** A whole report, streamed: for every row list and batch size the emitted rows are the buckets of the
      raw rows and, summed over any selection of keys, give the fold of the raw rows with those keys. */
  method IngestReport(rules: Rules, rows: seq<SettledRow>, batchSize: nat)
    returns (emitted: seq<DailyRow>, binRows: seq<BinRow>, shape: Shape)
    ensures BucketsOf(rules, rows, emitted)
    ensures forall sel: KeySelection :: SumWhere(emitted, sel) == Fold(ChargesWhere(rules, rows, sel))
    ensures TotalSupport(binRows) == RowsWithBin(rows)
    ensures Describes(shape, rows)
  {
    hide Describes, ChargesOf, Fold, SumWhere, BucketsOf;
    var batches, ok := ParseInBatches(rows, batchSize, false, None);
    var acc := new RollupAccumulator(rules);
    shape := IngestBatches(acc, batches);
    binRows := acc.BinRows();
    emitted := acc.IntoRows();
    EmitsBuckets(rules, rows, acc.buckets, emitted);
    forall sel: KeySelection ensures SumWhere(emitted, sel) == Fold(ChargesWhere(rules, rows, sel)) {
      EmittedBucketsAreRawSums(rules, rows, emitted, sel);
    }
  }
}
