/**
 `segment_partitions` of `src/cost_ingestion/segment.rs`: the table over the bands of a cluster, the
 selection of the split with the most GOOD volume and the fewest cuts, and the loops that compute them.
 */
module Partition {
  import opened Options
  import opened Rounding
  import opened SufficientStats
  import opened LeastSquares
  import opened Grading
  import opened MinimumSplit

  const MAX_SEGMENTS := 5

  /** The cost of fitting one line: `None` is infinite (too few transactions, or no line). */
  function StatsCost(s: SuffStats): Option<real> {
    if s.n < SEG_FLOOR then None
    else
      match Fit(s)
      case NoLine => None
      case Line(slope, intercept) => Some(Max0(ProportionalQ(intercept, slope, s)))
  }

  /** The cost of every range of bands. */
  function CostOf(bands: seq<Band>): CostFn {
    (i: nat, j: nat) => if i <= j <= |bands| then StatsCost(SumBands(bands[i..j])) else None
  }

  // ---------------------------------------------------------------------------------------------
  // The selection: most GOOD volume, fewest cuts
  // ---------------------------------------------------------------------------------------------

  function GoodVolume(scale: AmountScale, bands: seq<Band>, parts: seq<Piece>): real
    requires InRange(parts, |bands|)
  {
    if parts == [] then 0.0
    else
      var p := parts[|parts| - 1];
      var piece := bands[p.start..p.end];
      var s := SumBands(piece);
      GoodVolume(scale, bands, parts[..|parts| - 1]) + (if Grade(scale, s, piece).Good? then s.sx else 0.0)
  }

  predicate Reachable(bands: seq<Band>, k: nat) {
    Least(CostOf(bands), k, |bands|).Some?
  }

  /** The rounded GOOD volume of the best `k`-piece split: the first component of the selection key. */
  function KeyVolume(scale: AmountScale, bands: seq<Band>, k: nat): real
    requires Reachable(bands, k)
  {
    RebuildAttains(CostOf(bands), k, |bands|);
    TilesInRange(Rebuild(CostOf(bands), k, |bands|), |bands|);
    RoundCents(GoodVolume(scale, bands, Rebuild(CostOf(bands), k, |bands|)))
  }

  /** The best segment count among `1..upTo`, 0 when none is reachable. */
  function Choose(scale: AmountScale, bands: seq<Band>, upTo: nat): (c: nat)
    ensures c <= upTo
    ensures c != 0 ==> Reachable(bands, c)
  {
    if upTo == 0 then 0
    else
      var c := Choose(scale, bands, upTo - 1);
      if Reachable(bands, upTo) && (c == 0 || KeyVolume(scale, bands, upTo) > KeyVolume(scale, bands, c))
      then upTo else c
  }

  /** The chosen count is the smallest one that maximises the rounded GOOD volume. */
  lemma {:induction false} ChooseIsBest(scale: AmountScale, bands: seq<Band>, upTo: nat, k: nat)
    requires 1 <= k <= upTo
    ensures var c := Choose(scale, bands, upTo);
            Reachable(bands, k) ==>
              && c != 0
              && KeyVolume(scale, bands, k) <= KeyVolume(scale, bands, c)
              && (k < c ==> KeyVolume(scale, bands, k) < KeyVolume(scale, bands, c))
  {
    hide KeyVolume, Reachable;
    if k < upTo {
      ChooseIsBest(scale, bands, upTo - 1, k);
    }
  }

  /** `segment_partitions` */
  function Partitions(scale: AmountScale, bands: seq<Band>): seq<Piece> {
    if bands == [] then []
    else
      var c := Choose(scale, bands, MAX_SEGMENTS);
      if c == 0 then [Piece(0, |bands|)] else Rebuild(CostOf(bands), c, |bands|)
  }

  /** The returned ranges tile the bands, at most five of them and none for no bands. */
  lemma PartitionsTile(scale: AmountScale, bands: seq<Band>)
    ensures var parts := Partitions(scale, bands);
            Tiles(parts, |bands|) && |parts| <= MAX_SEGMENTS && (parts == [] <==> bands == [])
  {
    if bands != [] {
      var c := Choose(scale, bands, MAX_SEGMENTS);
      if c == 0 {
        assert Tiles([], 0);
      } else {
        RebuildAttains(CostOf(bands), c, |bands|);
      }
    }
  }

  // ---------------------------------------------------------------------------------------------
  // The loops
  // ---------------------------------------------------------------------------------------------

  /** Any range sum is the difference of two prefix sums. */
  lemma RangeFromPrefixes(bands: seq<Band>, i: nat, j: nat)
    requires i <= j <= |bands|
    ensures SumBands(bands[..j]).Minus(SumBands(bands[..i])) == SumBands(bands[i..j])
  {
    SumBandsConcat(bands[..i], bands[i..j]);
    assert bands[..j] == bands[..i] + bands[i..j];
    hide SumBands;
  }

  lemma PrefixStep(bands: seq<Band>, i: nat)
    requires i < |bands|
    ensures SumBands(bands[..i + 1]) == SumBands(bands[..i]).Plus(bands[i].stats)
  {
    hide SuffStats.Plus;
    assert bands[..i + 1][..i] == bands[..i];
  }

  method FillPrefixes(bands: seq<Band>) returns (pref: array<SuffStats>)
    ensures fresh(pref) && pref.Length == |bands| + 1
    ensures forall i :: 0 <= i <= |bands| ==> pref[i] == SumBands(bands[..i])
  {
    hide SuffStats.Plus;
    var m := |bands|;
    pref := new SuffStats[m + 1](_ => ZERO);
    assert bands[..0] == [];
    assert SumBands([]) == ZERO;
    for i := 0 to m
      invariant forall x :: 0 <= x <= i ==> pref[x] == SumBands(bands[..x])
    {
      PrefixStep(bands, i);
      pref[i + 1] := pref[i].Plus(bands[i].stats);
    }
  }

  /** The two tables have the source's shape: six rows, one column per prefix of the bands. */
  ghost predicate Shaped(bands: seq<Band>, dp: array2<Option<real>>, back: array2<int>) {
    dp.Length0 == back.Length0 == MAX_SEGMENTS + 1 && dp.Length1 == back.Length1 == |bands| + 1
  }

  ghost predicate CellDone(bands: seq<Band>, dp: array2<Option<real>>, back: array2<int>, k: nat, j: nat)
    requires Shaped(bands, dp, back) && k <= MAX_SEGMENTS && j <= |bands|
    reads dp, back
  {
    && dp[k, j] == Least(CostOf(bands), k, j)
    && (k > 0 ==> back[k, j] == Scan(CostOf(bands), k, j, j).back)
  }

  ghost predicate CellBlank(bands: seq<Band>, dp: array2<Option<real>>, back: array2<int>, k: nat, j: nat)
    requires Shaped(bands, dp, back) && k <= MAX_SEGMENTS && j <= |bands|
    reads dp, back
  {
    dp[k, j] == None && back[k, j] == -1
  }

  twostate predicate OnlyCellChanged(
    bands: seq<Band>, dp: array2<Option<real>>, back: array2<int>, k: nat, j: nat)
    requires Shaped(bands, dp, back)
    reads dp, back
  {
    forall x, y :: 0 <= x <= MAX_SEGMENTS && 0 <= y <= |bands| && (x != k || y != j) ==>
      dp[x, y] == old(dp[x, y]) && back[x, y] == old(back[x, y])
  }

  /** The innermost loop: tries every start of the last piece for one cell. */
  method FillCell(bands: seq<Band>, pref: array<SuffStats>, dp: array2<Option<real>>, back: array2<int>,
                  k: nat, j: nat)
    requires pref.Length == |bands| + 1
    requires forall i :: 0 <= i <= |bands| ==> pref[i] == SumBands(bands[..i])
    requires Shaped(bands, dp, back) && 1 <= k <= MAX_SEGMENTS && j <= |bands|
    requires forall x, i :: x == k - 1 && 0 <= i < j ==> CellDone(bands, dp, back, x, i)
    requires CellBlank(bands, dp, back, k, j)
    modifies dp, back
    ensures CellDone(bands, dp, back, k, j)
    ensures forall x, y :: 0 <= x <= MAX_SEGMENTS && 0 <= y <= |bands| && (x != k || y != j) ==>
              && (old(CellDone(bands, dp, back, x, y)) ==> CellDone(bands, dp, back, x, y))
              && (old(CellBlank(bands, dp, back, x, y)) ==> CellBlank(bands, dp, back, x, y))
  {
    hide StatsCost, SumBands, Scan, Least;
    ScanNothing(CostOf(bands), k, j);
    for i := 0 to j
      invariant OnlyCellChanged(bands, dp, back, k, j)
      invariant Cell(dp[k, j], back[k, j]) == Scan(CostOf(bands), k, j, i)
    {
      ScanStep(CostOf(bands), k, j, i);
      assert old(CellDone(bands, dp, back, k - 1, i));
      if dp[k - 1, i].Some? {
        RangeFromPrefixes(bands, i, j);
        var c := StatsCost(pref[j].Minus(pref[i]));
        if c.Some? && (dp[k, j].None? || dp[k - 1, i].value + c.value < dp[k, j].value) {
          dp[k, j] := Some(dp[k - 1, i].value + c.value);
          back[k, j] := i;
        }
      }
    }
    assert Least(CostOf(bands), k, j) == Scan(CostOf(bands), k, j, j).cost by { LeastIsScan(CostOf(bands), k, j); }
  }

  method FillTable(bands: seq<Band>, pref: array<SuffStats>)
    returns (dp: array2<Option<real>>, back: array2<int>)
    requires pref.Length == |bands| + 1
    requires forall i :: 0 <= i <= |bands| ==> pref[i] == SumBands(bands[..i])
    ensures fresh(dp) && fresh(back) && Shaped(bands, dp, back)
    ensures forall k, j :: 0 <= k <= MAX_SEGMENTS && 0 <= j <= |bands| ==> CellDone(bands, dp, back, k, j)
  {
    hide Least, Scan;
    var m := |bands|;
    dp := new Option<real>[MAX_SEGMENTS + 1, m + 1]((_, _) => None);
    back := new int[MAX_SEGMENTS + 1, m + 1]((_, _) => -1);
    dp[0, 0] := Some(0.0);
    FirstRow(CostOf(bands));
    for k := 1 to MAX_SEGMENTS + 1
      invariant forall x, y :: 0 <= x < k && 0 <= y <= m ==> CellDone(bands, dp, back, x, y)
      invariant forall x, y :: k <= x <= MAX_SEGMENTS && 0 <= y <= m ==> CellBlank(bands, dp, back, x, y)
    {
      assert CellBlank(bands, dp, back, k, 0);
      FirstColumn(CostOf(bands), k);
      for j := 1 to m + 1
        invariant forall x, y :: 0 <= x < k && 0 <= y <= m ==> CellDone(bands, dp, back, x, y)
        invariant forall y :: 0 <= y < j ==> CellDone(bands, dp, back, k, y)
        invariant forall y :: j <= y <= m ==> CellBlank(bands, dp, back, k, y)
        invariant forall x, y :: k < x <= MAX_SEGMENTS && 0 <= y <= m ==> CellBlank(bands, dp, back, x, y)
      {
        FillCell(bands, pref, dp, back, k, j);
      }
    }
  }

  function Reverse<T>(s: seq<T>): seq<T> {
    if s == [] then [] else Reverse(s[1..]) + [s[0]]
  }

  lemma {:induction false} ReverseAppend<T>(s: seq<T>, x: T)
    ensures Reverse(s + [x]) == [x] + Reverse(s)
  {
    if s != [] {
      ReverseAppend(s[1..], x);
      assert (s + [x])[1..] == s[1..] + [x];
    }
  }

  /** Follows the back pointers; fails exactly when the table has no `count`-piece split. */
  method RebuildParts(bands: seq<Band>, dp: array2<Option<real>>, back: array2<int>, count: nat)
    returns (r: Option<seq<Piece>>)
    requires Shaped(bands, dp, back) && 1 <= count <= MAX_SEGMENTS
    requires forall k, j :: 0 <= k <= MAX_SEGMENTS && 0 <= j <= |bands| ==> CellDone(bands, dp, back, k, j)
    ensures r.Some? <==> Reachable(bands, count)
    ensures r.Some? ==> r.value == Rebuild(CostOf(bands), count, |bands|)
  {
    hide StatsCost, SumBands, Rebuild, Least, Scan;
    var parts: seq<Piece> := [];
    var j, k := |bands|, count;
    while k > 0
      invariant 0 <= k <= count && 0 <= j <= |bands|
      invariant k == count ==> j == |bands| && parts == []
      invariant k < count ==>
                  && Least(CostOf(bands), k, j).Some? && Reachable(bands, count)
                  && Rebuild(CostOf(bands), count, |bands|) == Rebuild(CostOf(bands), k, j) + Reverse(parts)
    {
      assert CellDone(bands, dp, back, k, j);
      var i := back[k, j];
      LeastIsScan(CostOf(bands), k, j);
      if i == -1 {
        return None;
      }
      RebuildStep(CostOf(bands), k, j);
      ReverseAppend(parts, Piece(i, j));
      assert Rebuild(CostOf(bands), k, j) + Reverse(parts)
          == Rebuild(CostOf(bands), k - 1, i) + Reverse(parts + [Piece(i, j)]);
      parts := parts + [Piece(i, j)];
      j := i;
      k := k - 1;
    }
    RebuildNothing(CostOf(bands), j);
    assert [] + Reverse(parts) == Reverse(parts);
    return Some(Reverse(parts));
  }

  /** The GOOD volume of a split, from prefix sums. */
  method MeasureGoodVolume(scale: AmountScale, bands: seq<Band>, pref: array<SuffStats>, parts: seq<Piece>)
    returns (volume: real)
    requires pref.Length == |bands| + 1
    requires forall i :: 0 <= i <= |bands| ==> pref[i] == SumBands(bands[..i])
    requires InRange(parts, |bands|)
    ensures volume == GoodVolume(scale, bands, parts)
  {
    hide SumBands, Grade;
    volume := 0.0;
    for i := 0 to |parts|
      invariant volume == GoodVolume(scale, bands, parts[..i])
    {
      var Piece(p, q) := parts[i];
      assert parts[i] in parts;
      RangeFromPrefixes(bands, p, q);
      assert parts[..i + 1][..i] == parts[..i];
      if Grade(scale, pref[q].Minus(pref[p]), bands[p..q]).Good? {
        volume := volume + (pref[q].sx - pref[p].sx);
      }
    }
    assert parts[..|parts|] == parts;
  }

  /** The selection loop: more GOOD volume wins, ties break toward fewer pieces. */
  method SelectSplit(scale: AmountScale, bands: seq<Band>, pref: array<SuffStats>,
                     dp: array2<Option<real>>, back: array2<int>) returns (best: Option<seq<Piece>>)
    requires pref.Length == |bands| + 1
    requires forall i :: 0 <= i <= |bands| ==> pref[i] == SumBands(bands[..i])
    requires Shaped(bands, dp, back)
    requires forall k, j :: 0 <= k <= MAX_SEGMENTS && 0 <= j <= |bands| ==> CellDone(bands, dp, back, k, j)
    ensures var c := Choose(scale, bands, MAX_SEGMENTS);
            best == if c == 0 then None else Some(Rebuild(CostOf(bands), c, |bands|))
  {
    hide Least, Rebuild, GoodVolume, SumBands, Tiles;
    var m := |bands|;
    best := None;
    var bestKey: (real, int) := (0.0, 0);
    for k := 1 to MAX_SEGMENTS + 1
      invariant var c := Choose(scale, bands, k - 1);
                if c == 0 then best == None
                else best == Some(Rebuild(CostOf(bands), c, m)) && bestKey == (KeyVolume(scale, bands, c), -(c as int))
    {
      assert CellDone(bands, dp, back, k, m);
      if dp[k, m].Some? {
        var rebuilt := RebuildParts(bands, dp, back, k);
        if rebuilt.Some? {
          RebuildAttains(CostOf(bands), k, m);
          TilesInRange(rebuilt.value, m);
          var goodVolume := MeasureGoodVolume(scale, bands, pref, rebuilt.value);
          var key: (real, int) := (Round(goodVolume * 100.0) as real / 100.0, -k);
          if best == None || key.0 > bestKey.0 || (key.0 == bestKey.0 && key.1 > bestKey.1) {
            best := rebuilt;
            bestKey := key;
          }
        }
      }
    }
  }

  /** `segment_partitions` */
  method SegmentPartitions(scale: AmountScale, bands: seq<Band>) returns (parts: seq<Piece>)
    ensures parts == Partitions(scale, bands)
  {
    hide Choose, Rebuild;
    if |bands| == 0 {
      return [];
    }
    var pref := FillPrefixes(bands);
    var dp, back := FillTable(bands, pref);
    var best := SelectSplit(scale, bands, pref, dp, back);
    return match best case Some(b) => b case None => [Piece(0, |bands|)];
  }
}
