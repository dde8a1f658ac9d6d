/**
 The dynamic programme of `segment_partitions` in `src/cost_ingestion/segment.rs`, over any piece cost.

 `Scan` and `Least` say what one cell of the `back` and `dp` tables holds; `LeastIsLowerBound` and
 `RebuildAttains` say that this is the least total cost over all splits, and that following the back
 pointers gives a split that attains it.
 */
module MinimumSplit {
  import opened Options

  /** Bands `[start, end)`. */
  datatype Piece = Piece(start: nat, end: nat)

  /** The cost of making `[i, j)` one piece; `None` is infinite. */
  type CostFn = (nat, nat) -> Option<real>

  /** The pieces are non-empty and tile `[0, j)` in order. */
  ghost predicate Tiles(parts: seq<Piece>, j: nat) {
    if parts == [] then j == 0
    else
      var last := parts[|parts| - 1];
      last.end == j && last.start < last.end && Tiles(parts[..|parts| - 1], last.start)
  }

  /** Pieces that are ranges of `[0, m)`. */
  predicate InRange(parts: seq<Piece>, m: nat) {
    forall p :: p in parts ==> p.start < p.end <= m
  }

  lemma {:induction false} TilesInRange(parts: seq<Piece>, j: nat)
    requires Tiles(parts, j)
    ensures InRange(parts, j)
  {
    if parts != [] {
      var last := parts[|parts| - 1];
      TilesInRange(parts[..|parts| - 1], last.start);
      assert parts == parts[..|parts| - 1] + [last];
    }
  }

  /** The sum of the pieces' costs, infinite as soon as one of them is. */
  ghost function SplitCost(cost: CostFn, parts: seq<Piece>): Option<real> {
    if parts == [] then Some(0.0)
    else
      var last := parts[|parts| - 1];
      var before, c := SplitCost(cost, parts[..|parts| - 1]), cost(last.start, last.end);
      if before.Some? && c.Some? then Some(before.value + c.value) else None
  }

  // ---------------------------------------------------------------------------------------------
  // The table
  // ---------------------------------------------------------------------------------------------

  /** `back` is -1 for `usize::MAX`. */
  datatype Cell = Cell(cost: Option<real>, back: int)

  /** Cell `(k, j)` after the candidate starts `0..i` have been tried. */
  function Scan(cost: CostFn, k: nat, j: nat, i: nat): (r: Cell)
    requires 1 <= k && i <= j
    ensures r.cost.None? <==> r.back == -1
    ensures r.cost.Some? ==>
              && 0 <= r.back < i
              && Least(cost, k - 1, r.back).Some?
              && cost(r.back, j).Some?
              && r.cost.value == Least(cost, k - 1, r.back).value + cost(r.back, j).value
    decreases k, 0, i
  {
    if i == 0 then Cell(None, -1)
    else
      var cell := Scan(cost, k, j, i - 1);
      var before := Least(cost, k - 1, i - 1);
      if before.None? then cell
      else
        var c := cost(i - 1, j);
        if c.Some? && (cell.cost.None? || before.value + c.value < cell.cost.value) then
          Cell(Some(before.value + c.value), i - 1)
        else cell
  }

  /** `dp[k][j]` */
  function Least(cost: CostFn, k: nat, j: nat): Option<real>
    decreases k, 1
  {
    if k == 0 then (if j == 0 then Some(0.0) else None)
    else Scan(cost, k, j, j).cost
  }

  /** No candidate start tried so far is cheaper than the cell. */
  lemma {:induction false} ScanLowerBound(cost: CostFn, k: nat, j: nat, upTo: nat, i: nat)
    requires 1 <= k && i < upTo <= j
    requires Least(cost, k - 1, i).Some? && cost(i, j).Some?
    ensures Scan(cost, k, j, upTo).cost.Some?
    ensures Scan(cost, k, j, upTo).cost.value <= Least(cost, k - 1, i).value + cost(i, j).value
  {
    hide Scan, Least;
    ScanStep(cost, k, j, upTo - 1);
    if i < upTo - 1 {
      ScanLowerBound(cost, k, j, upTo - 1, i);
    }
  }

  /** Of equally cheap starts the cell keeps the first. */
  lemma {:induction false} ScanKeepsFirst(cost: CostFn, k: nat, j: nat, upTo: nat, i: nat)
    requires 1 <= k && upTo <= j && Scan(cost, k, j, upTo).cost.Some? && i < Scan(cost, k, j, upTo).back
    requires Least(cost, k - 1, i).Some? && cost(i, j).Some?
    ensures Least(cost, k - 1, i).value + cost(i, j).value > Scan(cost, k, j, upTo).cost.value
  {
    hide Scan, Least;
    ScanStep(cost, k, j, upTo - 1);
    var before := Scan(cost, k, j, upTo - 1);
    if Scan(cost, k, j, upTo) == before {
      ScanKeepsFirst(cost, k, j, upTo - 1, i);
    } else {
      ScanLowerBound(cost, k, j, upTo - 1, i);
    }
  }

  /** No split of the first `j` bands into `k` feasible pieces is cheaper than the table entry. */
  lemma {:induction false} LeastIsLowerBound(cost: CostFn, k: nat, j: nat, parts: seq<Piece>)
    requires |parts| == k && Tiles(parts, j) && SplitCost(cost, parts).Some?
    ensures Least(cost, k, j).Some?
    ensures Least(cost, k, j).value <= SplitCost(cost, parts).value
  {
    if k > 0 {
      var last := parts[k - 1];
      LeastIsLowerBound(cost, k - 1, last.start, parts[..k - 1]);
      ScanLowerBound(cost, k, j, j, last.start);
    }
  }

  /** `rebuild`: follow the back pointers from `(k, j)`. */
  function Rebuild(cost: CostFn, k: nat, j: nat): seq<Piece>
    requires Least(cost, k, j).Some?
  {
    if k == 0 then []
    else
      var i := Scan(cost, k, j, j).back;
      Rebuild(cost, k - 1, i) + [Piece(i, j)]
  }

  lemma SplitCostSnoc(cost: CostFn, init: seq<Piece>, i: nat, j: nat)
    requires i < j && Tiles(init, i)
    ensures Tiles(init + [Piece(i, j)], j)
    ensures var before, c := SplitCost(cost, init), cost(i, j);
            SplitCost(cost, init + [Piece(i, j)])
              == if before.Some? && c.Some? then Some(before.value + c.value) else None
  {
    assert (init + [Piece(i, j)])[..|init|] == init;
  }

  /** The rebuilt split has exactly `k` pieces, tiles the bands, and attains the table entry. */
  lemma {:induction false} RebuildAttains(cost: CostFn, k: nat, j: nat)
    requires Least(cost, k, j).Some?
    ensures var parts := Rebuild(cost, k, j);
            && |parts| == k
            && Tiles(parts, j)
            && SplitCost(cost, parts) == Least(cost, k, j)
  {
    hide Scan, Least, Rebuild, Tiles, SplitCost;
    if k == 0 {
      RebuildNothing(cost, j);
    } else {
      LeastIsScan(cost, k, j);
      RebuildStep(cost, k, j);
      var i := Scan(cost, k, j, j).back;
      RebuildAttains(cost, k - 1, i);
      SplitCostSnoc(cost, Rebuild(cost, k - 1, i), i, j);
    }
  }

  // ---------------------------------------------------------------------------------------------
  // The same facts one step at a time, for the loops that fill and read the table
  // ---------------------------------------------------------------------------------------------

  lemma ScanNothing(cost: CostFn, k: nat, j: nat)
    requires 1 <= k
    ensures Scan(cost, k, j, 0) == Cell(None, -1)
  {
  }

  /** One candidate start: it replaces the cell's content only if it is strictly cheaper. */
  lemma ScanStep(cost: CostFn, k: nat, j: nat, i: nat)
    requires 1 <= k && i < j
    ensures var cell, before, c := Scan(cost, k, j, i), Least(cost, k - 1, i), cost(i, j);
            Scan(cost, k, j, i + 1) ==
              if before.Some? && c.Some? && (cell.cost.None? || before.value + c.value < cell.cost.value)
              then Cell(Some(before.value + c.value), i) else cell
  {
  }

  lemma LeastIsScan(cost: CostFn, k: nat, j: nat)
    requires 1 <= k
    ensures Least(cost, k, j) == Scan(cost, k, j, j).cost
  {
  }

  /** Row 0 holds only the empty split; no other row has a split of no bands. */
  lemma FirstRow(cost: CostFn)
    ensures Least(cost, 0, 0) == Some(0.0)
    ensures forall j :: 0 < j ==> Least(cost, 0, j) == None
  {
  }

  lemma FirstColumn(cost: CostFn, k: nat)
    requires 1 <= k
    ensures Scan(cost, k, 0, 0) == Cell(None, -1) && Least(cost, k, 0) == None
  {
  }

  /** The back pointer of a reachable cell leads to a reachable cell of the previous row. */
  lemma RebuildStep(cost: CostFn, k: nat, j: nat)
    requires 1 <= k && Least(cost, k, j).Some?
    ensures var i := Scan(cost, k, j, j).back;
            && 0 <= i < j && Least(cost, k - 1, i).Some?
            && Rebuild(cost, k, j) == Rebuild(cost, k - 1, i) + [Piece(i, j)]
  {
  }

  lemma RebuildNothing(cost: CostFn, j: nat)
    requires Least(cost, 0, j).Some?
    ensures Rebuild(cost, 0, j) == [] && j == 0
    ensures Tiles([], 0) && SplitCost(cost, []) == Some(0.0) == Least(cost, 0, 0)
  {
  }
}
