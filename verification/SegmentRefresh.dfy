/**
 `segment_clusters_from_tsv` of `src/cost_ingestion/fit.rs`: group the band rows of the segmenter's
 query by cluster, sort each cluster's bands, gate, segment, and surface the clean recoveries.
 */
module SegmentRefresh {
  import opened Options
  import opened SufficientStats
  import opened CostTypes
  import opened Grading
  import opened LeastSquares
  import opened MinimumSplit
  import opened Partition
  import opened Segmentation
  import opened Sequences
  import opened SplitOptimality
  import opened FitSql
  import opened FitModel
  import opened Rollup

  /** One tab-separated field, with what parsing it as `i64` and as `f64` gives. */
  datatype Field = Field(text: string, asInt: Option<int>, asReal: Option<real>)

  datatype Parsed = Parsed(key: ClusterKey, band: Band)

  function RealAt(f: seq<Field>, i: nat): real
    requires i < |f|
  {
    match f[i].asReal case Some(v) => v case None => 0.0
  }

  /** A line with fewer than 19 fields or a non-integer band is skipped; unparsable sums read as 0. */
  function ParseLine(f: seq<Field>): Option<Parsed> {
    if |f| < 19 then None
    else
      match f[7].asInt
      case None => None
      case Some(band) =>
        Some(Parsed(
          ClusterKey(f[0].text, f[1].text, f[2].text, f[3].text, f[4].text, f[5].text, f[6].text),
          Band(band, SuffStats(
            RealAt(f, 8), RealAt(f, 9), RealAt(f, 10), RealAt(f, 11), RealAt(f, 12), RealAt(f, 13),
            RealAt(f, 14), RealAt(f, 15), RealAt(f, 16), RealAt(f, 17), RealAt(f, 18)))))
  }

  /** The line shows these columns in the order of the segmenter's query. */
  ghost predicate Prints(f: seq<Field>, key: ClusterKey, band: Band) {
    && |f| == 19
    && f[0].text == key.cardNetwork && f[1].text == key.variant && f[2].text == key.funding
    && f[3].text == key.issuerCountry && f[4].text == key.currency && f[5].text == key.icCategory
    && f[6].text == key.cardProduct && f[7].asInt == Some(band.index)
    && f[8].asReal == Some(band.stats.n) && f[9].asReal == Some(band.stats.sx)
    && f[10].asReal == Some(band.stats.sy) && f[11].asReal == Some(band.stats.sxx)
    && f[12].asReal == Some(band.stats.sxy) && f[13].asReal == Some(band.stats.syy)
    && f[14].asReal == Some(band.stats.su) && f[15].asReal == Some(band.stats.suu)
    && f[16].asReal == Some(band.stats.suy) && f[17].asReal == Some(band.stats.suuy)
    && f[18].asReal == Some(band.stats.syyuu)
  }

  /** What is printed is parsed back; a line is skipped exactly when it is too short or has no integer band;
      a number that does not parse reads as 0 and leaves the others. */
  lemma ParseLineMeaning(f: seq<Field>, key: ClusterKey, band: Band, i: nat)
    ensures Prints(f, key, band) ==> ParseLine(f) == Some(Parsed(key, band))
    ensures ParseLine(f).None? <==> |f| < 19 || f[7].asInt.None?
    ensures 8 <= i < 19 <= |f| && f[i].asReal == None ==>
              ParseLine(f) == ParseLine(f[i := Field(f[i].text, f[i].asInt, Some(0.0))])
  {
  }

  /** The bands of one cluster, in line order. */
  function BandsFor(lines: seq<seq<Field>>, key: ClusterKey): seq<Band> {
    if lines == [] then []
    else
      var p := ParseLine(lines[|lines| - 1]);
      BandsFor(lines[..|lines| - 1], key)
        + (if p.Some? && p.value.key == key then [p.value.band] else [])
  }

  // ---------------------------------------------------------------------------------------------
  // The stable sort by band index
  // ---------------------------------------------------------------------------------------------

  function InsertSorted(sorted: seq<Band>, b: Band): seq<Band> {
    if sorted == [] || sorted[|sorted| - 1].index <= b.index then sorted + [b]
    else InsertSorted(sorted[..|sorted| - 1], b) + [sorted[|sorted| - 1]]
  }

  function SortBands(bands: seq<Band>): seq<Band> {
    if bands == [] then [] else InsertSorted(SortBands(bands[..|bands| - 1]), bands[|bands| - 1])
  }

  ghost predicate NonDecreasing(bands: seq<Band>) {
    forall i, j :: 0 <= i < j < |bands| ==> bands[i].index <= bands[j].index
  }

  lemma SnocMultiset<T>(init: seq<T>, last: T)
    ensures multiset(init + [last]) == multiset(init) + multiset{last}
  {
  }

  lemma {:induction false} InsertSortedPermutes(sorted: seq<Band>, b: Band)
    ensures multiset(InsertSorted(sorted, b)) == multiset(sorted) + multiset{b}
  {
    if sorted == [] || sorted[|sorted| - 1].index <= b.index {
      SnocMultiset(sorted, b);
    } else {
      var init, last := sorted[..|sorted| - 1], sorted[|sorted| - 1];
      InsertSortedPermutes(init, b);
      SnocMultiset(InsertSorted(init, b), last);
      SnocMultiset(init, last);
      assert sorted == init + [last];
    }
  }

  lemma {:induction false} InsertSortedOrders(sorted: seq<Band>, b: Band)
    requires NonDecreasing(sorted)
    ensures NonDecreasing(InsertSorted(sorted, b))
    ensures forall x :: x in InsertSorted(sorted, b) <==> x in sorted || x == b
  {
    if sorted != [] && sorted[|sorted| - 1].index > b.index {
      var init, last := sorted[..|sorted| - 1], sorted[|sorted| - 1];
      InsertSortedOrders(init, b);
      assert sorted == init + [last];
      forall x | x in init ensures x.index <= last.index {
      }
    }
  }

  lemma {:induction false} SortBandsSpec(bands: seq<Band>)
    ensures NonDecreasing(SortBands(bands)) && multiset(SortBands(bands)) == multiset(bands)
  {
    hide InsertSorted;
    if bands != [] {
      var init, last := bands[..|bands| - 1], bands[|bands| - 1];
      SortBandsSpec(init);
      InsertSortedPermutes(SortBands(init), last);
      InsertSortedOrders(SortBands(init), last);
      SnocMultiset(init, last);
      assert bands == init + [last];
    }
  }

  lemma SameLast(xs: seq<Band>, ys: seq<Band>)
    requires NonDecreasing(xs) && Ascending(ys) && multiset(xs) == multiset(ys) && |xs| == |ys| > 0
    ensures xs[|xs| - 1] == ys[|ys| - 1]
  {
    var n := |xs| - 1;
    assert xs[n] in multiset(ys) && ys[n] in multiset(xs);
    var i :| 0 <= i <= n && ys[i] == xs[n];
    var j :| 0 <= j <= n && xs[j] == ys[n];
  }

  lemma {:induction false} SortedIsUnique(xs: seq<Band>, ys: seq<Band>)
    requires NonDecreasing(xs) && Ascending(ys) && multiset(xs) == multiset(ys)
    ensures xs == ys
  {
    assert |xs| == |multiset(xs)| == |multiset(ys)| == |ys|;
    if xs != [] {
      var n := |xs| - 1;
      SameLast(xs, ys);
      assert xs == xs[..n] + [xs[n]] && ys == ys[..n] + [ys[n]];
      SnocMultiset(xs[..n], xs[n]);
      SnocMultiset(ys[..n], ys[n]);
      MultisetCancel(multiset(xs[..n]), multiset(ys[..n]), xs[n]);
      SortedIsUnique(xs[..n], ys[..n]);
    }
  }

  lemma MultisetCancel<T>(a: multiset<T>, b: multiset<T>, x: T)
    requires a + multiset{x} == b + multiset{x}
    ensures a == b
  {
    assert a == a + multiset{x} - multiset{x};
    assert b == b + multiset{x} - multiset{x};
  }

  /** In whatever order the database returns a cluster's bands, sorting restores the ascending table. */
  lemma SortRestoresOrder(received: seq<Band>, table: seq<Band>)
    requires Ascending(table) && multiset(received) == multiset(table)
    ensures SortBands(received) == table
  {
    SortBandsSpec(received);
    SortedIsUnique(SortBands(received), table);
  }

  /** The bands with this index, in order. */
  function WithIndex(bands: seq<Band>, index: int): seq<Band> {
    if bands == [] then []
    else
      var last := bands[|bands| - 1];
      WithIndex(bands[..|bands| - 1], index) + (if last.index == index then [last] else [])
  }

  lemma WithIndexSnoc(init: seq<Band>, last: Band, index: int)
    ensures WithIndex(init + [last], index) == WithIndex(init, index) + (if last.index == index then [last] else [])
  {
    assert (init + [last])[..|init|] == init;
  }

  lemma {:induction false} InsertKeepsOrder(sorted: seq<Band>, b: Band, index: int)
    requires NonDecreasing(sorted)
    ensures WithIndex(InsertSorted(sorted, b), index) ==
            WithIndex(sorted, index) + (if b.index == index then [b] else [])
  {
    hide WithIndex;
    WithIndexSnoc(sorted, b, index);
    if sorted != [] && sorted[|sorted| - 1].index > b.index {
      var init, last := sorted[..|sorted| - 1], sorted[|sorted| - 1];
      assert sorted == init + [last];
      InsertKeepsOrder(init, b, index);
      WithIndexSnoc(init, last, index);
      WithIndexSnoc(InsertSorted(init, b), last, index);
      var before := WithIndex(init, index);
      assert before + [] == before;
      if last.index == index {
        assert WithIndex(InsertSorted(init, b), index) == before;
      } else {
        assert WithIndex(InsertSorted(init, b), index) + [] == WithIndex(InsertSorted(init, b), index);
      }
    }
  }

  /** The sort is stable. */
  lemma {:induction false} SortIsStable(bands: seq<Band>, index: int)
    ensures WithIndex(SortBands(bands), index) == WithIndex(bands, index)
  {
    hide InsertSorted;
    if bands != [] {
      var init, last := bands[..|bands| - 1], bands[|bands| - 1];
      SortIsStable(init, index);
      SortBandsSpec(init);
      InsertKeepsOrder(SortBands(init), last, index);
    }
  }

  // ---------------------------------------------------------------------------------------------
  // From the table and back
  // ---------------------------------------------------------------------------------------------

  /** `printed` lists every band of every cluster's segment table once, in any order. */
  ghost predicate Lists(printed: seq<Parsed>, rows: seq<DailyRow>) {
    && (forall i, j :: 0 <= i < j < |printed| ==> printed[i] != printed[j])
    && (forall c, b :: Parsed(c, b) in printed <==> b in SegmentBands(rows, c))
  }

  lemma {:induction false} BandsForPrinted(lines: seq<seq<Field>>, printed: seq<Parsed>, c: ClusterKey)
    requires |lines| == |printed|
    requires forall i :: 0 <= i < |lines| ==> Prints(lines[i], printed[i].key, printed[i].band)
    requires forall i, j :: 0 <= i < j < |printed| ==> printed[i] != printed[j]
    ensures forall b :: b in BandsFor(lines, c) <==> Parsed(c, b) in printed
    ensures forall i, j :: 0 <= i < j < |BandsFor(lines, c)| ==> BandsFor(lines, c)[i] != BandsFor(lines, c)[j]
  {
    hide ParseLine, Prints;
    if lines != [] {
      var n := |lines| - 1;
      BandsForPrinted(lines[..n], printed[..n], c);
      ParseLineMeaning(lines[n], printed[n].key, printed[n].band, 0);
      assert printed == printed[..n] + [printed[n]];
      assert printed[n] !in printed[..n];
      assert printed[n] == Parsed(printed[n].key, printed[n].band);
    }
  }

  lemma SameMembersSameMultiset<T>(xs: seq<T>, ys: seq<T>)
    requires forall i, j :: 0 <= i < j < |xs| ==> xs[i] != xs[j]
    requires forall i, j :: 0 <= i < j < |ys| ==> ys[i] != ys[j]
    requires forall x :: x in xs <==> x in ys
    ensures multiset(xs) == multiset(ys)
  {
    forall x ensures multiset(xs)[x] == multiset(ys)[x] {
      OnceInMultiset(xs, x);
      OnceInMultiset(ys, x);
    }
  }

  lemma {:induction false} OnceInMultiset<T>(xs: seq<T>, x: T)
    requires forall i, j :: 0 <= i < j < |xs| ==> xs[i] != xs[j]
    ensures multiset(xs)[x] == if x in xs then 1 else 0
  {
    if xs != [] {
      var init, last := xs[..|xs| - 1], xs[|xs| - 1];
      assert xs == init + [last];
      OnceInMultiset(init, x);
      assert last !in init;
    }
  }

  /** Whatever order the database prints the rows in, each cluster's bands come back as its segment table. */
  lemma PrintedBandsComeBack(
    rows: seq<DailyRow>, lines: seq<seq<Field>>, printed: seq<Parsed>, c: ClusterKey)
    requires |lines| == |printed| && Lists(printed, rows)
    requires forall i :: 0 <= i < |lines| ==> Prints(lines[i], printed[i].key, printed[i].band)
    ensures SortBands(BandsFor(lines, c)) == SegmentBands(rows, c)
  {
    hide SortBands, BandsFor, Prints, SegmentBands;
    BandsForPrinted(lines, printed, c);
    BandsMeaning(rows, c, 0);
    SameMembersSameMultiset(BandsFor(lines, c), SegmentBands(rows, c));
    SortRestoresOrder(BandsFor(lines, c), SegmentBands(rows, c));
  }

  // ---------------------------------------------------------------------------------------------
  // The driver
  // ---------------------------------------------------------------------------------------------

  /** What the driver emits for a cluster with these bands. */
  function Surfaced(scale: AmountScale, bands: seq<Band>): Option<seq<Segment>> {
    if WholeVerdict(scale, bands).Good? then None
    else
      var segs := SegmentCluster(scale, bands);
      if IsCleanRecovery(segs) then Some(segs) else None
  }

  /** What it would emit without the early `continue` on a Good cluster. */
  function Ungated(scale: AmountScale, bands: seq<Band>): Option<seq<Segment>> {
    var segs := SegmentCluster(scale, bands);
    if IsCleanRecovery(segs) then Some(segs) else None
  }

  /** The early `continue` only saves work, except exactly where a cut gains on a Good cluster of positive
      volume, which takes a band of negative volume (`NegativeVolumeIsCut` has one). */
  lemma GateIsRedundant(scale: AmountScale, bands: seq<Band>)
    ensures Surfaced(scale, bands) == Ungated(scale, bands) <==>
            !(WholeVerdict(scale, bands).Good? && CutGains(scale, bands) && SumBands(bands).sx > 0.0)
    ensures VolumesNonNegative(bands) ==> Surfaced(scale, bands) == Ungated(scale, bands)
  {
    hide WholeVerdict, SegmentCluster, IsCleanRecovery, CutGains, SumBands;
    GoodClusterStaysWhole(scale, bands);
  }

  /** On stored data a cluster is surfaced, with the segments of its split, exactly when it was cut and its GOOD
      pieces carry at least nine tenths of its gross amount. */
  lemma SurfacedMeaning(scale: AmountScale, bands: seq<Band>, groups: seq<seq<Charge>>, segs: seq<Segment>)
    requires FoldedFrom(bands, groups)
    ensures var parts := Partitions(scale, bands);
            var total := SumOf(Flatten(groups), (t: Charge) => t.amount);
            && InRange(parts, |bands|)
            && (Surfaced(scale, bands) == Some(segs) <==>
                  && segs == SegmentCluster(scale, bands)
                  && |parts| >= 2 && total > 0.0 && 10.0 * GoodAmount(scale, bands, groups, parts) >= 9.0 * total)
  {
    hide WholeVerdict, SegmentCluster, IsCleanRecovery, Partitions, GoodAmount, SumOf, Flatten, InRange;
    CleanRecoveryMeaning(scale, bands, groups);
    FoldedVolumesNonNegative(bands, groups);
    GateIsRedundant(scale, bands);
  }

  ghost predicate Groups(lines: seq<seq<Field>>, byCluster: map<ClusterKey, seq<Band>>) {
    && (forall k :: k in byCluster <==> BandsFor(lines, k) != [])
    && (forall k :: k in byCluster ==> byCluster[k] == BandsFor(lines, k))
  }

  lemma GroupsAfterLine(
    lines: seq<seq<Field>>, line: seq<Field>, before: map<ClusterKey, seq<Band>>, now: map<ClusterKey, seq<Band>>)
    requires Groups(lines, before)
    requires match ParseLine(line)
             case None => now == before
             case Some(Parsed(key, band)) =>
               now == before[key := (if key in before then before[key] else []) + [band]]
    ensures Groups(lines + [line], now)
  {
    hide ParseLine;
    assert (lines + [line])[..|lines|] == lines;
  }

  method GroupLines(lines: seq<seq<Field>>) returns (byCluster: map<ClusterKey, seq<Band>>)
    ensures Groups(lines, byCluster)
  {
    hide ParseLine, Groups;
    byCluster := map[];
    assert Groups([], map[]) by { NothingGrouped(); }
    for i := 0 to |lines|
      invariant Groups(lines[..i], byCluster)
    {
      assert lines[..i + 1] == lines[..i] + [lines[i]];
      ghost var before := byCluster;
      match ParseLine(lines[i]) {
        case None =>
        case Some(Parsed(key, band)) =>
          var bands := if key in byCluster then byCluster[key] else [];
          byCluster := byCluster[key := bands + [band]];
      }
      GroupsAfterLine(lines[..i], lines[i], before, byCluster);
    }
    assert lines[..|lines|] == lines;
  }

  lemma NothingGrouped()
    ensures Groups([], map[])
  {
  }

  /** Each cluster occurs at most once in the output, exactly when it is surfaced, with its segments. */
  method SegmentClustersFromTsv(scale: AmountScale, lines: seq<seq<Field>>)
    returns (out: seq<(ClusterKey, seq<Segment>)>)
    ensures forall i, j :: 0 <= i < j < |out| ==> out[i].0 != out[j].0
    ensures forall key, segs :: (key, segs) in out <==>
              BandsFor(lines, key) != [] && Surfaced(scale, SortBands(BandsFor(lines, key))) == Some(segs)
  {
    hide BandsFor, SortBands, WholeVerdict, SegmentCluster, IsCleanRecovery;
    var byCluster := GroupLines(lines);
    out := [];
    var left := byCluster.Keys;
    while left != {}
      invariant left <= byCluster.Keys
      invariant forall i :: 0 <= i < |out| ==> out[i].0 !in left
      invariant forall i, j :: 0 <= i < j < |out| ==> out[i].0 != out[j].0
      invariant forall key, segs :: (key, segs) in out <==>
                  key in byCluster && key !in left && Surfaced(scale, SortBands(byCluster[key])) == Some(segs)
      decreases |left|
    {
      var key :| key in left;
      left := left - {key};
      var bands := SortBands(byCluster[key]);
      if !WholeVerdict(scale, bands).Good? {
        var segs := ComputeSegments(scale, bands);
        if IsCleanRecovery(segs) {
          out := out + [(key, segs)];
        }
      }
    }
  }
}
