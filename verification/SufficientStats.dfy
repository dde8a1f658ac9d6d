/**
 The additive sums of `src/cost_ingestion/segment.rs` (`SuffStats`) and `src/cost_ingestion/rollup.rs`
 (`Stats`): everything the fit needs to know about a set of transactions.

 f64 is modelled by `real`; rounding error is not part of the model.
 */
module SufficientStats {

  /** One transaction: gross amount and total fee. */
  datatype Txn = Txn(amount: real, fee: real)

  /** A transaction the rollup folds: non-positive amounts are skipped before they reach the sums. */
  type Charge = t: Txn | 0.0 < t.amount witness Txn(1.0, 0.0)

  datatype SuffStats = SuffStats(
    n: real, sx: real, sy: real, sxx: real, sxy: real, syy: real,
    su: real, suu: real, suy: real, suuy: real, syyuu: real)
  {
    /** Fold one `(amount, fee)` transaction in. */
    function Add(x: real, y: real): SuffStats
      requires x != 0.0
    {
      var u := 1.0 / x;
      SuffStats(n + 1.0, sx + x, sy + y, sxx + x * x, sxy + x * y, syy + y * y,
                su + u, suu + u * u, suy + u * y, suuy + u * u * y, syyuu + y * y * u * u)
    }

    function Plus(o: SuffStats): SuffStats {
      SuffStats(n + o.n, sx + o.sx, sy + o.sy, sxx + o.sxx, sxy + o.sxy, syy + o.syy,
                su + o.su, suu + o.suu, suy + o.suy, suuy + o.suuy, syyuu + o.syyuu)
    }

    function Minus(o: SuffStats): SuffStats {
      SuffStats(n - o.n, sx - o.sx, sy - o.sy, sxx - o.sxx, sxy - o.sxy, syy - o.syy,
                su - o.su, suu - o.suu, suy - o.suy, suuy - o.suuy, syyuu - o.syyuu)
    }
  }

  const ZERO := SuffStats(0.0, 0.0, 0.0, 0.0, 0.0, 0.0, 0.0, 0.0, 0.0, 0.0, 0.0)

  /** The sums of a transaction list, folded left to right as the rollup does. */
  function Fold(txs: seq<Charge>): SuffStats {
    if txs == [] then ZERO
    else
      var last := txs[|txs| - 1];
      Fold(txs[..|txs| - 1]).Add(last.amount, last.fee)
  }

  lemma AddBeforePlus(s: SuffStats, o: SuffStats, t: Charge)
    ensures s.Add(t.amount, t.fee).Plus(o) == s.Plus(o).Add(t.amount, t.fee)
  {
  }

  lemma AddAfterPlus(s: SuffStats, o: SuffStats, t: Charge)
    ensures s.Plus(o).Add(t.amount, t.fee) == s.Plus(o.Add(t.amount, t.fee))
  {
  }

  /** Folding is a homomorphism from concatenation to field-wise addition. */
  lemma {:induction false} FoldConcat(xs: seq<Charge>, ys: seq<Charge>)
    ensures Fold(xs + ys) == Fold(xs).Plus(Fold(ys))
    decreases |ys|
  {
    hide SuffStats.Add;
    if ys == [] {
      assert xs + ys == xs;
    } else {
      var init := ys[..|ys| - 1];
      FoldConcat(xs, init);
      AddAfterPlus(Fold(xs), Fold(init), ys[|ys| - 1]);
      assert (xs + ys)[..|xs + ys| - 1] == xs + init;
      assert (xs + ys)[|xs + ys| - 1] == ys[|ys| - 1];
    }
  }

  lemma {:induction false} FoldCount(txs: seq<Charge>)
    ensures Fold(txs).n == |txs| as real
    ensures Fold(txs).sx >= 0.0
    ensures txs != [] ==> Fold(txs).sx > 0.0
  {
    if txs != [] {
      FoldCount(txs[..|txs| - 1]);
    }
  }

  lemma FoldNothing()
    ensures Fold([]) == ZERO
  {
  }

  /** The sum of a quantity over the transactions. */
  ghost function SumOf(txs: seq<Charge>, f: Charge -> real): real {
    if txs == [] then 0.0 else SumOf(txs[..|txs| - 1], f) + f(txs[|txs| - 1])
  }

  /** What each of the eleven sums is over the transactions. */
  lemma {:induction false} FoldSums(txs: seq<Charge>)
    ensures var s := Fold(txs);
            && s.n == |txs| as real
            && s.sx == SumOf(txs, (t: Charge) => t.amount)
            && s.sy == SumOf(txs, (t: Charge) => t.fee)
            && s.sxx == SumOf(txs, (t: Charge) => t.amount * t.amount)
            && s.sxy == SumOf(txs, (t: Charge) => t.amount * t.fee)
            && s.syy == SumOf(txs, (t: Charge) => t.fee * t.fee)
            && s.su == SumOf(txs, (t: Charge) => 1.0 / t.amount)
            && s.suu == SumOf(txs, (t: Charge) => 1.0 / t.amount * (1.0 / t.amount))
            && s.suy == SumOf(txs, (t: Charge) => 1.0 / t.amount * t.fee)
            && s.suuy == SumOf(txs, (t: Charge) => 1.0 / t.amount * (1.0 / t.amount) * t.fee)
            && s.syyuu == SumOf(txs, (t: Charge) => t.fee * t.fee * (1.0 / t.amount) * (1.0 / t.amount))
  {
    if txs != [] {
      FoldSums(txs[..|txs| - 1]);
    }
  }
}
