/**
 The streaming rollup: `parse_in_batches` of `src/cost_ingestion/source.rs`, the batch loop of
 `src/cost_ingestion/pipeline.rs`, and `RollupAccumulator` of `src/cost_ingestion/rollup.rs`.

 Main results: for every row list and every batch size, the emitted buckets selected by any of the raw
 rows' fields sum to the raw rows so selected (`EmittedByRows`, `EmittedByField`).
 */
module Rollup {
  import opened Options
  import opened SufficientStats
  import opened CostTypes

  /** One parsed report row; `gross == None` is NaN. */
  datatype SettledRow = SettledRow(
    cardNetwork: string, variant: string, funding: string, issuerCountry: string, currency: string,
    icCategory: string, icBps: string, txnDate: Option<int>, channel: string,
    gross: Option<real>, totalFee: real, bin: string)

  datatype BinKey = BinKey(
    bin: string, cardNetwork: string, issuerCountry: string, funding: string, cardProduct: string)

  /** What a report's rows are resolved against: the global BIN map, the log-amount band of an
      amount, and the date given to rows without one. */
  datatype Rules = Rules(binProduct: map<string, string>, bandOf: real -> int, fallbackDate: int)

  datatype DailyRow = DailyRow(key: BucketKey, stats: SuffStats)

  datatype BinRow = BinRow(key: BinKey, support: nat)

  predicate IsDigit(c: char) {
    '0' <= c <= '9'
  }

  /** The leading digits, at most `limit` of them. */
  function LeadingDigits(s: string, limit: nat): string {
    if limit == 0 || s == "" || !IsDigit(s[0]) then "" else [s[0]] + LeadingDigits(s[1..], limit - 1)
  }

  function BinPrefix(bin: string): string {
    LeadingDigits(bin, 6)
  }

  /** The BIN key: the first six characters, or as many of them as are digits without a gap. */
  lemma BinPrefixSpec(bin: string)
    ensures var d := BinPrefix(bin);
            && d <= bin && |d| <= 6
            && (forall c :: c in d ==> '0' <= c <= '9')
            && (|d| == 6 || |d| == |bin| || !('0' <= bin[|d|] <= '9'))
            && BinPrefix(d) == d
  {
    LeadingDigitsSpec(bin, 6);
  }

  /** `resolve_card_product`: the BIN's dominant rate when known and non-empty, else the row's own. */
  function ResolveCardProduct(rules: Rules, row: SettledRow): string {
    var b := BinPrefix(row.bin);
    if row.bin != "" && b in rules.binProduct && rules.binProduct[b] != "" then rules.binProduct[b]
    else row.icBps
  }

  /** The BIN key is the longest run of leading digits, up to six, and is its own key. */
  lemma {:induction false} LeadingDigitsSpec(s: string, limit: nat)
    ensures var d := LeadingDigits(s, limit);
            && d <= s && |d| <= limit
            && (forall c :: c in d ==> IsDigit(c))
            && (|d| == limit || |d| == |s| || !IsDigit(s[|d|]))
            && LeadingDigits(d, limit) == d
  {
    if limit > 0 && s != "" && IsDigit(s[0]) {
      LeadingDigitsSpec(s[1..], limit - 1);
      var d := LeadingDigits(s, limit);
      assert d[1..] == LeadingDigits(s[1..], limit - 1);
      assert s == [s[0]] + s[1..];
    }
  }

  /** Rows without a positive gross contribute to no bucket. */
  predicate Kept(row: SettledRow) {
    row.gross.Some? && row.gross.value > 0.0
  }

  function ChargeOf(row: SettledRow): Charge
    requires Kept(row)
  {
    Txn(row.gross.value, row.totalFee)
  }

  function KeyOf(rules: Rules, row: SettledRow): BucketKey
    requires Kept(row)
  {
    BucketKey(
      ClusterKey(row.cardNetwork, row.variant, row.funding, row.issuerCountry, row.currency,
                 row.icCategory, ResolveCardProduct(rules, row)),
      match row.txnDate { case Some(d) => d case None => rules.fallbackDate },
      rules.bandOf(row.gross.value),
      row.channel)
  }

  /** The rows agree on everything but the rate that goes into the bucket key. */
  predicate SameButRate(rules: Rules, row: SettledRow, other: SettledRow)
    requires Kept(row) && Kept(other)
  {
    && row.cardNetwork == other.cardNetwork && row.variant == other.variant && row.funding == other.funding
    && row.issuerCountry == other.issuerCountry && row.currency == other.currency
    && row.icCategory == other.icCategory && row.channel == other.channel
    && rules.bandOf(row.gross.value) == rules.bandOf(other.gross.value)
    && (if row.txnDate.Some? then row.txnDate.value else rules.fallbackDate)
    == (if other.txnDate.Some? then other.txnDate.value else rules.fallbackDate)
  }

  /** When two transactions on one BIN share a bucket: those that agree on all else always do if the BIN is
      known, and otherwise only if they also carry the same rate. */
  lemma KnownBinConsolidates(rules: Rules, row: SettledRow, other: SettledRow)
    requires Kept(row) && Kept(other)
    requires row.bin != "" && other.bin != "" && BinPrefix(row.bin) == BinPrefix(other.bin)
    ensures var b := BinPrefix(row.bin);
            KeyOf(rules, row) == KeyOf(rules, other) <==>
            && SameButRate(rules, row, other)
            && ((b in rules.binProduct && rules.binProduct[b] != "") || row.icBps == other.icBps)
  {
  }

  function BinKeyOf(row: SettledRow): BinKey {
    BinKey(BinPrefix(row.bin), row.cardNetwork, row.issuerCountry, row.funding, row.icBps)
  }

  // ---------------------------------------------------------------------------------------------
  // Raw rows, selected by bucket key
  // ---------------------------------------------------------------------------------------------

  type RowSelection = SettledRow -> bool

  /** The transactions of the selected rows with a positive gross, in row order. */
  function ChargesOf(rows: seq<SettledRow>, sel: RowSelection): seq<Charge> {
    if rows == [] then []
    else
      var row := rows[|rows| - 1];
      ChargesOf(rows[..|rows| - 1], sel)
        + (if row.gross.Some? && row.gross.value > 0.0 && sel(row) then [Txn(row.gross.value, row.totalFee)] else [])
  }

  /** The row carries the key's values, each in the field of the same name. */
  predicate InBucket(rules: Rules, row: SettledRow, k: BucketKey) {
    && k.cluster.cardNetwork == row.cardNetwork
    && k.cluster.variant == row.variant
    && k.cluster.funding == row.funding
    && k.cluster.issuerCountry == row.issuerCountry
    && k.cluster.currency == row.currency
    && k.cluster.icCategory == row.icCategory
    && HasProduct(rules, row, k.cluster.cardProduct)
    && OnDay(rules, row, k.day)
    && row.gross.Some? && k.band == rules.bandOf(row.gross.value)
    && k.channel == row.channel
  }

  /** The product is the known one of the row's BIN, otherwise the row's own rate. */
  predicate HasProduct(rules: Rules, row: SettledRow, product: string) {
    var b := BinPrefix(row.bin);
    if row.bin != "" && b in rules.binProduct && |rules.binProduct[b]| > 0 then rules.binProduct[b] == product
    else row.icBps == product
  }

  predicate OnDay(rules: Rules, row: SettledRow, day: int) {
    if row.txnDate.Some? then row.txnDate.value == day else rules.fallbackDate == day
  }

  lemma KeyIsBucket(rules: Rules, row: SettledRow, k: BucketKey)
    ensures Kept(row) ==> (KeyOf(rules, row) == k <==> InBucket(rules, row, k))
  {
  }

  /** The transactions of one bucket. */
  function Charges(rules: Rules, rows: seq<SettledRow>, key: BucketKey): seq<Charge> {
    ChargesOf(rows, (r: SettledRow) => InBucket(rules, r, key))
  }

  type KeySelection = BucketKey -> bool

  /** The transactions of the rows whose bucket key is selected. */
  function ChargesWhere(rules: Rules, rows: seq<SettledRow>, sel: KeySelection): seq<Charge> {
    ChargesOf(rows, (r: SettledRow) => Kept(r) && sel(KeyOf(rules, r)))
  }

  /** The row names a BIN, and carries the key's values, each in the field of the same name. */
  predicate InBin(row: SettledRow, k: BinKey) {
    && row.bin != ""
    && k.bin == BinPrefix(row.bin)
    && k.cardNetwork == row.cardNetwork
    && k.issuerCountry == row.issuerCountry
    && k.funding == row.funding
    && k.cardProduct == row.icBps
  }

  /** How many rows there are of one BIN key. */
  function BinCount(rows: seq<SettledRow>, key: BinKey): nat {
    if rows == [] then 0
    else BinCount(rows[..|rows| - 1], key) + (if InBin(rows[|rows| - 1], key) then 1 else 0)
  }

  function RowsWithBin(rows: seq<SettledRow>): nat {
    if rows == [] then 0
    else RowsWithBin(rows[..|rows| - 1]) + (if rows[|rows| - 1].bin != "" then 1 else 0)
  }

  // ---------------------------------------------------------------------------------------------
  // The accumulator
  // ---------------------------------------------------------------------------------------------

  /** A bucket map holds, for exactly the keys that occur, the sums of the rows with that key. */
  ghost predicate HoldsBuckets(rules: Rules, rows: seq<SettledRow>, buckets: map<BucketKey, SuffStats>) {
    && (forall k :: k in buckets <==> Charges(rules, rows, k) != [])
    && (forall k :: k in buckets ==> buckets[k] == Fold(Charges(rules, rows, k)))
  }

  ghost predicate HoldsBins(rows: seq<SettledRow>, bins: map<BinKey, nat>) {
    && (forall k :: k in bins <==> BinCount(rows, k) > 0)
    && (forall k :: k in bins ==> bins[k] == BinCount(rows, k))
  }

  class RollupAccumulator {
    var buckets: map<BucketKey, SuffStats>
    var bins: map<BinKey, nat>
    const rules: Rules
    /** Every row folded so far. */
    ghost var seen: seq<SettledRow>

    ghost predicate Valid()
      reads this
    {
      HoldsBuckets(rules, seen, buckets) && HoldsBins(seen, bins)
    }

    constructor (rules: Rules)
      ensures Valid() && seen == [] && this.rules == rules
    {
      this.rules := rules;
      buckets, bins, seen := map[], map[], [];
    }

    method AddRow(row: SettledRow)
      requires Valid()
      modifies this
      ensures Valid() && seen == old(seen) + [row]
    {
      ghost var before := seen;
      seen := seen + [row];
      assert seen[..|seen| - 1] == before;
      if row.bin != "" {
        var k := BinKeyOf(row);
        bins := bins[k := (if k in bins then bins[k] else 0) + 1];
      }
      BinStep(before, row, old(bins), bins);
      if row.gross.None? || row.gross.value <= 0.0 {
        BucketStep(rules, before, row, buckets, buckets);
        return;
      }
      var key := KeyOf(rules, row);
      var cell := if key in buckets then buckets[key] else ZERO;
      buckets := buckets[key := cell.Add(row.gross.value, row.totalFee)];
      BucketStep(rules, before, row, old(buckets), buckets);
    }

    /** `into_rows`: one row per bucket, in no particular order. */
    method IntoRows() returns (rows: seq<DailyRow>)
      requires Valid()
      ensures Emits(rows, buckets)
    {
      hide HoldsBuckets, HoldsBins;
      rows := [];
      var left := buckets.Keys;
      while left != {}
        invariant left <= buckets.Keys
        invariant forall k :: k in buckets && k !in left ==> DailyRow(k, buckets[k]) in rows
        invariant forall r :: r in rows ==> r.key in buckets && r.key !in left && r.stats == buckets[r.key]
        invariant forall i, j :: 0 <= i < j < |rows| ==> rows[i].key != rows[j].key
        decreases |left|
      {
        var k :| k in left;
        rows := rows + [DailyRow(k, buckets[k])];
        left := left - {k};
      }
    }

    /** `bin_rows` */
    method BinRows() returns (rows: seq<BinRow>)
      requires Valid()
      ensures TotalSupport(rows) == RowsWithBin(seen)
      ensures forall r :: r in rows ==> r.support == BinCount(seen, r.key)
    {
      rows := [];
      var left := bins.Keys;
      ghost var done: seq<BinKey> := [];
      while left != {}
        invariant left <= bins.Keys
        invariant forall k :: k in bins ==> (k in left <==> k !in done)
        invariant forall k :: k in done ==> k in bins
        invariant Distinct(done)
        invariant TotalSupport(rows) == SupportOver(seen, done)
        invariant forall r :: r in rows ==> r.support == BinCount(seen, r.key)
        decreases |left|
      {
        var k :| k in left;
        assert (rows + [BinRow(k, bins[k])])[..|rows|] == rows;
        assert (done + [k])[..|done|] == done;
        rows := rows + [BinRow(k, bins[k])];
        done := done + [k];
        left := left - {k};
      }
      SupportIsTotal(seen, done);
    }
  }

  lemma ChargesSnoc(rows: seq<SettledRow>, row: SettledRow, sel: RowSelection)
    ensures ChargesOf(rows + [row], sel) ==
            ChargesOf(rows, sel) + (if Kept(row) && sel(row) then [ChargeOf(row)] else [])
  {
    assert (rows + [row])[..|rows|] == rows;
  }

  lemma FoldSnoc(txs: seq<Charge>, t: Charge)
    ensures Fold(txs + [t]) == Fold(txs).Add(t.amount, t.fee)
  {
    hide SuffStats.Add;
    assert (txs + [t])[..|txs|] == txs;
  }

  lemma BucketStep(rules: Rules, rows: seq<SettledRow>, row: SettledRow,
                   before: map<BucketKey, SuffStats>, after: map<BucketKey, SuffStats>)
    requires HoldsBuckets(rules, rows, before)
    requires !Kept(row) ==> after == before
    requires Kept(row) ==>
               var key := KeyOf(rules, row);
               after == before[key := (if key in before then before[key] else ZERO).Add(row.gross.value, row.totalFee)]
    ensures HoldsBuckets(rules, rows + [row], after)
  {
    hide KeyOf, SuffStats.Add, ChargesOf, InBucket;
    NoCharges();
    forall k ensures
      && (k in after <==> Charges(rules, rows + [row], k) != [])
      && (k in after ==> after[k] == Fold(Charges(rules, rows + [row], k)))
    {
      ChargesSnoc(rows, row, (r: SettledRow) => InBucket(rules, r, k));
      KeyIsBucket(rules, row, k);
      var txs := Charges(rules, rows, k);
      if Kept(row) && KeyOf(rules, row) == k {
        FoldSnoc(txs, ChargeOf(row));
        assert k !in before ==> txs == [];
        assert Fold([]) == ZERO;
      } else {
        assert Charges(rules, rows + [row], k) == txs;
      }
    }
  }

  lemma BinStep(rows: seq<SettledRow>, row: SettledRow, before: map<BinKey, nat>, after: map<BinKey, nat>)
    requires HoldsBins(rows, before)
    requires var k := BinKeyOf(row);
             after == if row.bin != "" then before[k := (if k in before then before[k] else 0) + 1] else before
    ensures HoldsBins(rows + [row], after)
  {
    hide BinKeyOf, InBin;
    assert (rows + [row])[..|rows|] == rows;
    forall k ensures row.bin != "" && BinKeyOf(row) == k <==> InBin(row, k) {
      KeyIsBin(row, k);
    }
  }

  lemma KeyIsBin(row: SettledRow, k: BinKey)
    ensures row.bin != "" && BinKeyOf(row) == k <==> InBin(row, k)
  {
  }

  // ---------------------------------------------------------------------------------------------
  // Grouping loses nothing
  // ---------------------------------------------------------------------------------------------

  ghost predicate Distinct<K(!new)>(ks: seq<K>) {
    forall i, j :: 0 <= i < j < |ks| ==> ks[i] != ks[j]
  }

  function KeysOf(rows: seq<DailyRow>): (ks: seq<BucketKey>)
    ensures |ks| == |rows|
    ensures forall i :: 0 <= i < |rows| ==> ks[i] == rows[i].key
  {
    if rows == [] then [] else KeysOf(rows[..|rows| - 1]) + [rows[|rows| - 1].key]
  }

  /** The rows are an enumeration of the bucket map without repetition. */
  ghost predicate Emits(rows: seq<DailyRow>, buckets: map<BucketKey, SuffStats>) {
    && Distinct(KeysOf(rows))
    && (forall k :: k in buckets ==> DailyRow(k, buckets[k]) in rows)
    && (forall r :: r in rows ==> r.key in buckets && r.stats == buckets[r.key])
  }

  /** The sum of the table rows whose key is selected. */
  function SumWhere(rows: seq<DailyRow>, sel: KeySelection): SuffStats {
    if rows == [] then ZERO
    else
      var r := rows[|rows| - 1];
      var before := SumWhere(rows[..|rows| - 1], sel);
      if sel(r.key) then before.Plus(r.stats) else before
  }

  /** The same sum, with each bucket recomputed from the raw rows. */
  ghost function SumOver(rules: Rules, rows: seq<SettledRow>, ks: seq<BucketKey>, sel: KeySelection): SuffStats {
    if ks == [] then ZERO
    else
      var k := ks[|ks| - 1];
      var before := SumOver(rules, rows, ks[..|ks| - 1], sel);
      if sel(k) then before.Plus(Fold(Charges(rules, rows, k))) else before
  }

  /** One more row changes the total by its own contribution, whichever bucket it lands in. */
  lemma {:induction false} SumOverStep(
    rules: Rules, rows: seq<SettledRow>, row: SettledRow, ks: seq<BucketKey>, sel: KeySelection)
    requires Distinct(ks)
    ensures SumOver(rules, rows + [row], ks, sel) ==
              if Kept(row) && KeyOf(rules, row) in ks && sel(KeyOf(rules, row))
              then SumOver(rules, rows, ks, sel).Add(row.gross.value, row.totalFee)
              else SumOver(rules, rows, ks, sel)
  {
    hide KeyOf, SuffStats.Add, SuffStats.Plus, ChargesOf, InBucket, Fold;
    if ks != [] {
      var n := |ks| - 1;
      var k := ks[n];
      SumOverStep(rules, rows, row, ks[..n], sel);
      ChargesSnoc(rows, row, (r: SettledRow) => InBucket(rules, r, k));
      KeyIsBucket(rules, row, k);
      var txs := Charges(rules, rows, k);
      if Kept(row) {
        FoldSnoc(txs, ChargeOf(row));
        var before := SumOver(rules, rows, ks[..n], sel);
        AddBeforePlus(before, Fold(txs), ChargeOf(row));
        AddAfterPlus(before, Fold(txs), ChargeOf(row));
        assert KeyOf(rules, row) == k ==> k !in ks[..n];
      }
      assert !(Kept(row) && KeyOf(rules, row) == k) ==> Charges(rules, rows + [row], k) == txs;
    }
  }

  lemma NoCharges()
    ensures forall sel :: ChargesOf([], sel) == []
  {
  }

  lemma {:induction false} SumOverNothing(rules: Rules, ks: seq<BucketKey>, sel: KeySelection)
    ensures SumOver(rules, [], ks, sel) == ZERO
  {
    if ks != [] {
      SumOverNothing(rules, ks[..|ks| - 1], sel);
    }
  }

  /** Summing per bucket over keys that cover the rows gives the fold of the selected raw rows. */
  lemma {:induction false} GroupingLosesNothing(
    rules: Rules, rows: seq<SettledRow>, ks: seq<BucketKey>, sel: KeySelection)
    requires Distinct(ks)
    requires forall r :: r in rows && Kept(r) ==> KeyOf(rules, r) in ks
    ensures SumOver(rules, rows, ks, sel) == Fold(ChargesWhere(rules, rows, sel))
  {
    hide KeyOf, SuffStats.Add, SuffStats.Plus, ChargesOf;
    if rows == [] {
      SumOverNothing(rules, ks, sel);
      NoCharges();
      FoldNothing();
    } else {
      var init, row := rows[..|rows| - 1], rows[|rows| - 1];
      assert rows == init + [row];
      GroupingLosesNothing(rules, init, ks, sel);
      SumOverStep(rules, init, row, ks, sel);
      ChargesSnoc(init, row, (r: SettledRow) => Kept(r) && sel(KeyOf(rules, r)));
      var txs := ChargesWhere(rules, init, sel);
      if Kept(row) && sel(KeyOf(rules, row)) {
        FoldSnoc(txs, ChargeOf(row));
      } else {
        assert txs + [] == txs;
      }
    }
  }

  lemma {:induction false} EmittedSum(
    rules: Rules, seen: seq<SettledRow>, rows: seq<DailyRow>, sel: KeySelection)
    requires forall r :: r in rows ==> r.stats == Fold(Charges(rules, seen, r.key))
    ensures SumWhere(rows, sel) == SumOver(rules, seen, KeysOf(rows), sel)
  {
    hide ChargesOf, Fold, SuffStats.Plus;
    if rows != [] {
      EmittedSum(rules, seen, rows[..|rows| - 1], sel);
      assert KeysOf(rows)[..|rows| - 1] == KeysOf(rows[..|rows| - 1]);
    }
  }

  lemma {:induction false} KeptRowHasBucket(rules: Rules, rows: seq<SettledRow>, row: SettledRow)
    requires row in rows && Kept(row)
    ensures Charges(rules, rows, KeyOf(rules, row)) != []
  {
    hide KeyOf, InBucket;
    KeyIsBucket(rules, row, KeyOf(rules, row));
    if row in rows[..|rows| - 1] {
      KeptRowHasBucket(rules, rows[..|rows| - 1], row);
    }
  }

  /** The emitted rows are the buckets of a report: one per key that occurs, with the sums of its rows. */
  ghost predicate BucketsOf(rules: Rules, raw: seq<SettledRow>, rows: seq<DailyRow>) {
    && Distinct(KeysOf(rows))
    && (forall k :: k in KeysOf(rows) <==> Charges(rules, raw, k) != [])
    && (forall r :: r in rows ==> r.stats == Fold(Charges(rules, raw, r.key)))
  }

  lemma EmitsBuckets(rules: Rules, raw: seq<SettledRow>, buckets: map<BucketKey, SuffStats>, rows: seq<DailyRow>)
    requires HoldsBuckets(rules, raw, buckets) && Emits(rows, buckets)
    ensures BucketsOf(rules, raw, rows)
  {
    hide ChargesOf, Fold;
    forall k ensures k in KeysOf(rows) <==> Charges(rules, raw, k) != [] {
      if k in KeysOf(rows) {
        var i :| 0 <= i < |rows| && KeysOf(rows)[i] == k;
        assert rows[i] in rows;
      }
      if k in buckets {
        var i :| 0 <= i < |rows| && rows[i] == DailyRow(k, buckets[k]);
        assert KeysOf(rows)[i] == k;
      }
    }
  }

  /** The emitted buckets, summed over any selection of keys, are the sums of the raw rows with those
      keys: nothing is lost, counted twice, or moved between clusters, days, bands or channels. */
  lemma EmittedBucketsAreRawSums(rules: Rules, raw: seq<SettledRow>, rows: seq<DailyRow>, sel: KeySelection)
    requires BucketsOf(rules, raw, rows)
    ensures SumWhere(rows, sel) == Fold(ChargesWhere(rules, raw, sel))
  {
    hide ChargesOf, Fold, KeyOf, SumWhere, SumOver;
    EmittedSum(rules, raw, rows, sel);
    forall r | r in raw && Kept(r) ensures KeyOf(rules, r) in KeysOf(rows) {
      KeptRowHasBucket(rules, raw, r);
    }
    GroupingLosesNothing(rules, raw, KeysOf(rows), sel);
  }

  /** Whenever a selection of buckets is one of rows, the emitted rows it selects sum to the raw rows it
      selects. */
  lemma EmittedByRows(
    rules: Rules, raw: seq<SettledRow>, rows: seq<DailyRow>, keys: KeySelection, sel: RowSelection)
    requires BucketsOf(rules, raw, rows)
    requires forall r, k :: InBucket(rules, r, k) ==> keys(k) == sel(r)
    ensures SumWhere(rows, keys) == Fold(ChargesOf(raw, sel))
  {
    hide InBucket, Fold, SumWhere, BucketsOf, KeyOf;
    EmittedBucketsAreRawSums(rules, raw, rows, keys);
    forall r | r in raw && Kept(r) ensures keys(KeyOf(rules, r)) == sel(r) {
      KeyIsBucket(rules, r, KeyOf(rules, r));
    }
    SameCharges(raw, (r: SettledRow) => Kept(r) && keys(KeyOf(rules, r)), sel);
  }

  lemma {:induction false} SameCharges(rows: seq<SettledRow>, one: RowSelection, two: RowSelection)
    requires forall r :: r in rows && Kept(r) ==> one(r) == two(r)
    ensures ChargesOf(rows, one) == ChargesOf(rows, two)
  {
    if rows != [] {
      assert rows[|rows| - 1] in rows;
      SameCharges(rows[..|rows| - 1], one, two);
    }
  }

  /** Per field and value: the emitted buckets that carry the value sum to the raw rows that carry it in the
      same field. */
  lemma EmittedByField(rules: Rules, raw: seq<SettledRow>, rows: seq<DailyRow>, v: string, n: int)
    requires BucketsOf(rules, raw, rows)
    ensures SumWhere(rows, (k: BucketKey) => k.cluster.cardNetwork == v)
         == Fold(ChargesOf(raw, (r: SettledRow) => r.cardNetwork == v))
    ensures SumWhere(rows, (k: BucketKey) => k.cluster.variant == v)
         == Fold(ChargesOf(raw, (r: SettledRow) => r.variant == v))
    ensures SumWhere(rows, (k: BucketKey) => k.cluster.funding == v)
         == Fold(ChargesOf(raw, (r: SettledRow) => r.funding == v))
    ensures SumWhere(rows, (k: BucketKey) => k.cluster.issuerCountry == v)
         == Fold(ChargesOf(raw, (r: SettledRow) => r.issuerCountry == v))
    ensures SumWhere(rows, (k: BucketKey) => k.cluster.currency == v)
         == Fold(ChargesOf(raw, (r: SettledRow) => r.currency == v))
    ensures SumWhere(rows, (k: BucketKey) => k.cluster.icCategory == v)
         == Fold(ChargesOf(raw, (r: SettledRow) => r.icCategory == v))
    ensures SumWhere(rows, (k: BucketKey) => k.cluster.cardProduct == v)
         == Fold(ChargesOf(raw, (r: SettledRow) => HasProduct(rules, r, v)))
    ensures SumWhere(rows, (k: BucketKey) => k.channel == v)
         == Fold(ChargesOf(raw, (r: SettledRow) => r.channel == v))
    ensures SumWhere(rows, (k: BucketKey) => k.day == n) == Fold(ChargesOf(raw, (r: SettledRow) => OnDay(rules, r, n)))
    ensures SumWhere(rows, (k: BucketKey) => k.band == n)
         == Fold(ChargesOf(raw, (r: SettledRow) => r.gross.Some? && rules.bandOf(r.gross.value) == n))
  {
    hide Fold, SumWhere, BucketsOf, ChargesOf;
    EmittedByRows(rules, raw, rows, (k: BucketKey) => k.cluster.cardNetwork == v,
                  (r: SettledRow) => r.cardNetwork == v);
    EmittedByRows(rules, raw, rows, (k: BucketKey) => k.cluster.variant == v, (r: SettledRow) => r.variant == v);
    EmittedByRows(rules, raw, rows, (k: BucketKey) => k.cluster.funding == v, (r: SettledRow) => r.funding == v);
    EmittedByRows(rules, raw, rows, (k: BucketKey) => k.cluster.issuerCountry == v,
                  (r: SettledRow) => r.issuerCountry == v);
    EmittedByRows(rules, raw, rows, (k: BucketKey) => k.cluster.currency == v, (r: SettledRow) => r.currency == v);
    EmittedByRows(rules, raw, rows, (k: BucketKey) => k.cluster.icCategory == v, (r: SettledRow) => r.icCategory == v);
    EmittedByRows(rules, raw, rows, (k: BucketKey) => k.cluster.cardProduct == v,
                  (r: SettledRow) => HasProduct(rules, r, v));
    EmittedByRows(rules, raw, rows, (k: BucketKey) => k.channel == v, (r: SettledRow) => r.channel == v);
    EmittedByRows(rules, raw, rows, (k: BucketKey) => k.day == n, (r: SettledRow) => OnDay(rules, r, n));
    EmittedByRows(rules, raw, rows, (k: BucketKey) => k.band == n,
                  (r: SettledRow) => r.gross.Some? && rules.bandOf(r.gross.value) == n);
  }

  function TotalSupport(rows: seq<BinRow>): nat {
    if rows == [] then 0 else TotalSupport(rows[..|rows| - 1]) + rows[|rows| - 1].support
  }

  ghost function SupportOver(rows: seq<SettledRow>, ks: seq<BinKey>): nat {
    if ks == [] then 0 else SupportOver(rows, ks[..|ks| - 1]) + BinCount(rows, ks[|ks| - 1])
  }

  lemma {:induction false} SupportStep(rows: seq<SettledRow>, row: SettledRow, ks: seq<BinKey>)
    requires Distinct(ks)
    ensures SupportOver(rows + [row], ks) ==
            SupportOver(rows, ks) + (if row.bin != "" && BinKeyOf(row) in ks then 1 else 0)
  {
    hide BinKeyOf, InBin;
    if ks != [] {
      var n := |ks| - 1;
      SupportStep(rows, row, ks[..n]);
      assert (rows + [row])[..|rows|] == rows;
      assert ks == ks[..n] + [ks[n]];
      assert ks[n] !in ks[..n];
      KeyIsBin(row, ks[n]);
    }
  }

  lemma {:induction false} SupportOfNothing(ks: seq<BinKey>)
    ensures SupportOver([], ks) == 0
  {
    if ks != [] {
      SupportOfNothing(ks[..|ks| - 1]);
    }
  }

  /** BIN support over keys that cover the rows is the number of rows with a BIN. */
  lemma {:induction false} SupportIsTotal(rows: seq<SettledRow>, ks: seq<BinKey>)
    requires Distinct(ks) && forall k :: BinCount(rows, k) > 0 ==> k in ks
    ensures SupportOver(rows, ks) == RowsWithBin(rows)
  {
    hide BinKeyOf, InBin;
    if rows == [] {
      SupportOfNothing(ks);
    } else {
      var init, row := rows[..|rows| - 1], rows[|rows| - 1];
      assert rows == init + [row];
      assert forall k :: BinCount(init, k) <= BinCount(rows, k);
      SupportIsTotal(init, ks);
      SupportStep(init, row, ks);
      KeyIsBin(row, BinKeyOf(row));
      assert row.bin != "" ==> BinCount(rows, BinKeyOf(row)) > 0;
    }
  }
}
