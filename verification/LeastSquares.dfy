/**
 The OLS algebra of `src/cost_ingestion/segment.rs`: a straight line fitted from sums alone, and what
 that line means for the transactions behind the sums.

 `sqrt` never appears: the residual measures are kept as sums of squares, so `bps_rmse` is
 the square root of `BpsSquared` and a gate `bps <= 15` reads `BpsSquared <= 225`.
 */
module LeastSquares {
  import opened SufficientStats

  /** A fitted line `fee = intercept + slope * amount`; `NoLine` stands for the NaN result. */
  datatype Fitted = NoLine | Line(slope: real, intercept: real)

  function Max0(x: real): real {
    if x < 0.0 then 0.0 else x
  }

  function Denom(s: SuffStats): real {
    s.n * s.sxx - s.sx * s.sx
  }

  /** `fit`: the slope and intercept, or `NoLine` when unfittable. */
  function Fit(s: SuffStats): Fitted {
    if s.n < 2.0 then NoLine
    else
      var denom := Denom(s);
      if denom <= 0.0 then NoLine
      else
        var slope := (s.n * s.sxy - s.sx * s.sy) / denom;
        Line(slope, (s.sy - slope * s.sx) / s.n)
  }

  /** The quadratic `q` of `eval_bps`, before clamping. */
  function ProportionalQ(a: real, b: real, s: SuffStats): real {
    s.syyuu + a * a * s.suu + s.n * b * b - 2.0 * a * s.suuy - 2.0 * b * s.suy + 2.0 * a * b * s.su
  }

  /** The square of `eval_bps`; `eval_bps` is NaN when `n <= 0`. */
  function BpsSquared(a: real, b: real, s: SuffStats): real
    requires s.n > 0.0
  {
    Max0(ProportionalQ(a, b, s)) / s.n * 100000000.0
  }

  /** The `sse` of `abs_rms`, before clamping. */
  function AbsoluteQ(a: real, b: real, s: SuffStats): real {
    s.syy - 2.0 * a * s.sy - 2.0 * b * s.sxy + s.n * a * a + 2.0 * a * b * s.sx + b * b * s.sxx
  }

  /** The `sse` that `fit` uses for the slope's standard error. */
  function SlopeSse(a: real, b: real, s: SuffStats): real {
    s.syy - a * s.sy - b * s.sxy
  }

  // ---------------------------------------------------------------------------------------------
  // What the sums mean for the transactions
  // ---------------------------------------------------------------------------------------------

  function Residual(t: Txn, a: real, b: real): real {
    t.fee - a - b * t.amount
  }

  function Square(x: real): real {
    x * x
  }

  /** The sum of squared residuals of a line. */
  function SquaredError(txs: seq<Charge>, a: real, b: real): real {
    if txs == [] then 0.0
    else SquaredError(txs[..|txs| - 1], a, b) + Square(Residual(txs[|txs| - 1], a, b))
  }

  /** The sum of squared residuals, each relative to its amount. */
  function RelativeError(txs: seq<Charge>, a: real, b: real): real {
    if txs == [] then 0.0
    else
      var t := txs[|txs| - 1];
      RelativeError(txs[..|txs| - 1], a, b) + Square(Residual(t, a, b) / t.amount)
  }

  ghost predicate OnLine(txs: seq<Charge>, a: real, b: real) {
    forall t :: t in txs ==> Residual(t, a, b) == 0.0
  }

  ghost predicate AmountsVary(txs: seq<Charge>) {
    exists t, o :: t in txs && o in txs && t.amount != o.amount
  }

  lemma ProductPositive(p: real, q: real, r: real)
    requires p > 0.0 && q > 0.0 && r == p * q
    ensures r > 0.0
  {
  }

  lemma SquareSign(x: real)
    ensures Square(x) >= 0.0
    ensures x != 0.0 ==> Square(x) > 0.0
  {
    if x > 0.0 {
      ProductPositive(x, x, Square(x));
    } else if x < 0.0 {
      ProductPositive(-x, -x, Square(x));
    }
  }

  lemma SquareExpansion(x: real, y: real, a: real, b: real)
    ensures Square(y - a - b * x)
         == y * y - 2.0 * a * y - 2.0 * b * (x * y) + a * a + 2.0 * a * b * x + b * b * (x * x)
  {
  }

  lemma AbsoluteQOfOne(a: real, b: real, t: Charge)
    ensures AbsoluteQ(a, b, ZERO.Add(t.amount, t.fee)) == Square(Residual(t, a, b))
  {
    var x, y := t.amount, t.fee;
    SquareExpansion(x, y, a, b);
    assert AbsoluteQ(a, b, ZERO.Add(x, y))
        == y * y - 2.0 * a * y - 2.0 * b * (x * y) + 1.0 * a * a + 2.0 * a * b * x + b * b * (x * x);
    assert Residual(t, a, b) == y - a - b * x;
    hide Square;
  }

  lemma AbsoluteQAdd(a: real, b: real, s: SuffStats, t: Charge)
    ensures AbsoluteQ(a, b, s.Add(t.amount, t.fee)) == AbsoluteQ(a, b, s) + Square(Residual(t, a, b))
  {
    hide AbsoluteQ, Square, Residual, SuffStats.Add;
    AddAfterPlus(s, ZERO, t);
    assert s.Plus(ZERO) == s;
    AbsoluteQAdditive(a, b, s, ZERO.Add(t.amount, t.fee));
    AbsoluteQOfOne(a, b, t);
  }

  lemma {:induction false} AbsoluteQIsSquaredError(txs: seq<Charge>, a: real, b: real)
    ensures AbsoluteQ(a, b, Fold(txs)) == SquaredError(txs, a, b)
  {
    if txs != [] {
      AbsoluteQIsSquaredError(txs[..|txs| - 1], a, b);
      AbsoluteQAdd(a, b, Fold(txs[..|txs| - 1]), txs[|txs| - 1]);
      hide AbsoluteQ, SuffStats.Add, Square, Residual;
    }
  }

  lemma RelativeExpansion(x: real, u: real, y: real, a: real, b: real)
    requires u * x == 1.0
    ensures Square((y - a - b * x) * u)
         == y * y * u * u + a * a * (u * u) + b * b - 2.0 * a * (u * u * y) - 2.0 * b * (u * y)
            + 2.0 * a * b * u
  {
    var p, q := y * u, a * u;
    assert (y - a - b * x) * u == p - q - b * (u * x);
    assert Square(p - q - b) == p * p + q * q + b * b - 2.0 * p * q - 2.0 * p * b + 2.0 * q * b;
  }

  lemma ProportionalQOfOne(a: real, b: real, t: Charge)
    ensures ProportionalQ(a, b, ZERO.Add(t.amount, t.fee)) == Square(Residual(t, a, b) / t.amount)
  {
    var x, y, u := t.amount, t.fee, 1.0 / t.amount;
    RelativeExpansion(x, u, y, a, b);
    assert Residual(t, a, b) / x == (y - a - b * x) * u;
    hide Square, Residual;
  }

  lemma ProportionalQAdd(a: real, b: real, s: SuffStats, t: Charge)
    ensures ProportionalQ(a, b, s.Add(t.amount, t.fee))
         == ProportionalQ(a, b, s) + Square(Residual(t, a, b) / t.amount)
  {
    hide ProportionalQ, Square, Residual, SuffStats.Add;
    AddAfterPlus(s, ZERO, t);
    assert s.Plus(ZERO) == s;
    ProportionalQAdditive(a, b, s, ZERO.Add(t.amount, t.fee));
    ProportionalQOfOne(a, b, t);
  }

  lemma {:induction false} ProportionalQIsRelativeError(txs: seq<Charge>, a: real, b: real)
    ensures ProportionalQ(a, b, Fold(txs)) == RelativeError(txs, a, b)
  {
    if txs != [] {
      ProportionalQIsRelativeError(txs[..|txs| - 1], a, b);
      ProportionalQAdd(a, b, Fold(txs[..|txs| - 1]), txs[|txs| - 1]);
      hide ProportionalQ, SuffStats.Add, Square, Residual;
    }
  }

  /** Both residual measures are additive in the statistics. */
  lemma ProportionalQAdditive(a: real, b: real, s: SuffStats, o: SuffStats)
    ensures ProportionalQ(a, b, s.Plus(o)) == ProportionalQ(a, b, s) + ProportionalQ(a, b, o)
  {
    assert a * a * (s.suu + o.suu) == a * a * s.suu + a * a * o.suu;
    assert (s.n + o.n) * b * b == s.n * b * b + o.n * b * b;
    assert 2.0 * a * (s.suuy + o.suuy) == 2.0 * a * s.suuy + 2.0 * a * o.suuy;
    assert 2.0 * b * (s.suy + o.suy) == 2.0 * b * s.suy + 2.0 * b * o.suy;
    assert 2.0 * a * b * (s.su + o.su) == 2.0 * a * b * s.su + 2.0 * a * b * o.su;
  }

  lemma AbsoluteQAdditive(a: real, b: real, s: SuffStats, o: SuffStats)
    ensures AbsoluteQ(a, b, s.Plus(o)) == AbsoluteQ(a, b, s) + AbsoluteQ(a, b, o)
  {
    assert 2.0 * a * (s.sy + o.sy) == 2.0 * a * s.sy + 2.0 * a * o.sy;
    assert 2.0 * b * (s.sxy + o.sxy) == 2.0 * b * s.sxy + 2.0 * b * o.sxy;
    assert (s.n + o.n) * a * a == s.n * a * a + o.n * a * a;
    assert 2.0 * a * b * (s.sx + o.sx) == 2.0 * a * b * s.sx + 2.0 * a * b * o.sx;
    assert b * b * (s.sxx + o.sxx) == b * b * s.sxx + b * b * o.sxx;
  }

  lemma {:induction false} ErrorsNonNegative(txs: seq<Charge>, a: real, b: real)
    ensures SquaredError(txs, a, b) >= 0.0 && RelativeError(txs, a, b) >= 0.0
    ensures SquaredError(txs, a, b) == 0.0 <==> OnLine(txs, a, b)
    ensures RelativeError(txs, a, b) == 0.0 <==> OnLine(txs, a, b)
  {
    if txs != [] {
      var init, t := txs[..|txs| - 1], txs[|txs| - 1];
      ErrorsNonNegative(init, a, b);
      var r := Residual(t, a, b);
      SquareSign(r);
      SquareSign(r / t.amount);
      assert r / t.amount == 0.0 <==> r == 0.0 by {
        DivisionCancels(r, t.amount);
      }
      assert Square(0.0) == 0.0;
      hide Square, Residual;
      assert txs == init + [t];
      assert OnLine(txs, a, b) <==> OnLine(init, a, b) && r == 0.0;
    }
  }

  lemma DivisionCancels(p: real, q: real)
    requires q != 0.0
    ensures p / q * q == p
  {
  }

  // ---------------------------------------------------------------------------------------------
  // When a line exists (the Cauchy-Schwarz inequality with its equality case)
  // ---------------------------------------------------------------------------------------------

  /** The sum of squared distances of the amounts from `x`. */
  function Spread(txs: seq<Charge>, x: real): real {
    if txs == [] then 0.0
    else Spread(txs[..|txs| - 1], x) + Square(txs[|txs| - 1].amount - x)
  }

  lemma {:induction false} SpreadSign(txs: seq<Charge>, x: real)
    ensures Spread(txs, x) >= 0.0
    ensures Spread(txs, x) == 0.0 <==> forall t :: t in txs ==> t.amount == x
  {
    if txs != [] {
      var init, t := txs[..|txs| - 1], txs[|txs| - 1];
      SpreadSign(init, x);
      SquareSign(t.amount - x);
      assert Square(0.0) == 0.0;
      hide Square;
      assert txs == init + [t];
    }
  }

  function SpreadOfSums(s: SuffStats, x: real): real {
    s.sxx - 2.0 * x * s.sx + s.n * (x * x)
  }

  lemma SpreadStep(s: SuffStats, t: Charge, x: real)
    ensures SpreadOfSums(s.Add(t.amount, t.fee), x) == SpreadOfSums(s, x) + Square(t.amount - x)
  {
  }

  lemma {:induction false} SpreadFromSums(txs: seq<Charge>, x: real)
    ensures Spread(txs, x) == SpreadOfSums(Fold(txs), x)
  {
    if txs != [] {
      SpreadFromSums(txs[..|txs| - 1], x);
      SpreadStep(Fold(txs[..|txs| - 1]), txs[|txs| - 1], x);
      hide Square, SpreadOfSums, SuffStats.Add;
    }
  }

  lemma DenomStep(s: SuffStats, t: Charge)
    ensures Denom(s.Add(t.amount, t.fee)) == Denom(s) + SpreadOfSums(s, t.amount)
  {
  }

  /** `n * sxx >= sx^2`, with equality exactly when all amounts are equal. */
  lemma {:induction false} CauchySchwarz(txs: seq<Charge>)
    ensures Denom(Fold(txs)) >= 0.0
    ensures Denom(Fold(txs)) > 0.0 <==> AmountsVary(txs)
  {
    if txs != [] {
      var init, t := txs[..|txs| - 1], txs[|txs| - 1];
      CauchySchwarz(init);
      SpreadFromSums(init, t.amount);
      SpreadSign(init, t.amount);
      DenomStep(Fold(init), t);
      hide Denom, SpreadOfSums, SuffStats.Add;
      assert txs == init + [t];
    }
  }

  /** `fit` is undefined exactly when there are fewer than two transactions or no amount spread. */
  lemma FitDefinedExactly(txs: seq<Charge>)
    ensures Fit(Fold(txs)).NoLine? <==> |txs| < 2 || !AmountsVary(txs)
  {
    CauchySchwarz(txs);
    FoldCount(txs);
  }

  // ---------------------------------------------------------------------------------------------
  // The fitted line is the unique least-squares line
  // ---------------------------------------------------------------------------------------------

  /** The fitted line solves the normal equations. */
  lemma NormalEquations(s: SuffStats)
    requires Fit(s).Line?
    ensures var f := Fit(s);
            && s.n * f.intercept + f.slope * s.sx == s.sy
            && f.intercept * s.sx + f.slope * s.sxx == s.sxy
  {
    var f := Fit(s);
    var denom := Denom(s);
    var b, a := f.slope, f.intercept;
    DivisionCancels(s.n * s.sxy - s.sx * s.sy, denom);
    DivisionCancels(s.sy - b * s.sx, s.n);
    assert a * s.n == s.sy - b * s.sx;
    // n * (a * sx + b * sxx) == n * sxy
    assert s.n * (a * s.sx + b * s.sxx) == (a * s.n) * s.sx + b * (s.n * s.sxx);
    assert (a * s.n) * s.sx == s.sy * s.sx - b * (s.sx * s.sx);
    assert b * (s.n * s.sxx) - b * (s.sx * s.sx) == b * denom;
    assert s.n * (a * s.sx + b * s.sxx) == s.n * s.sxy;
    Cancel(s.n, a * s.sx + b * s.sxx, s.sxy);
  }

  lemma Cancel(k: real, p: real, q: real)
    requires k > 0.0 && k * p == k * q
    ensures p == q
  {
    assert k * (p - q) == 0.0;
  }

  lemma ErrorAroundFit(s: SuffStats, a: real, b: real, da: real, db: real)
    requires s.n * a + b * s.sx == s.sy && a * s.sx + b * s.sxx == s.sxy
    ensures AbsoluteQ(a + da, b + db, s)
         == AbsoluteQ(a, b, s) + (s.n * (da * da) + 2.0 * (da * db) * s.sx + (db * db) * s.sxx)
  {
    var e := s.n * (da * da) + 2.0 * (da * db) * s.sx + (db * db) * s.sxx;
    var cross := 2.0 * da * (s.n * a + b * s.sx - s.sy) + 2.0 * db * (a * s.sx + b * s.sxx - s.sxy);
    assert cross == 0.0;
    assert AbsoluteQ(a + da, b + db, s) == AbsoluteQ(a, b, s) + e + cross;
  }

  /** The quadratic form of the normal matrix is positive definite when the amounts vary. */
  lemma PositiveDefinite(s: SuffStats, da: real, db: real)
    requires s.n > 0.0 && Denom(s) > 0.0
    ensures s.n * (da * da) + 2.0 * (da * db) * s.sx + (db * db) * s.sxx >= 0.0
    ensures s.n * (da * da) + 2.0 * (da * db) * s.sx + (db * db) * s.sxx == 0.0 ==> da == 0.0 && db == 0.0
  {
    var e := s.n * (da * da) + 2.0 * (da * db) * s.sx + (db * db) * s.sxx;
    var w := s.n * da + db * s.sx;
    var v := Square(db);
    assert s.n * e == Square(w) + Denom(s) * v;
    SquareSign(w);
    SquareSign(db);
    assert Denom(s) * v >= 0.0;
    assert s.n * e >= 0.0;
    if e == 0.0 {
      assert Square(w) == 0.0 && Denom(s) * v == 0.0;
      assert v == 0.0;
      assert s.n * da == 0.0;
    }
  }

  /** The fitted line is the unique minimiser of the sum of squared residuals. */
  lemma FitIsUniqueMinimiser(txs: seq<Charge>, a: real, b: real)
    requires Fit(Fold(txs)).Line?
    ensures var f := Fit(Fold(txs));
            && SquaredError(txs, f.intercept, f.slope) <= SquaredError(txs, a, b)
            && (SquaredError(txs, f.intercept, f.slope) == SquaredError(txs, a, b)
                ==> a == f.intercept && b == f.slope)
  {
    var s := Fold(txs);
    var f := Fit(s);
    NormalEquations(s);
    AbsoluteQIsSquaredError(txs, a, b);
    AbsoluteQIsSquaredError(txs, f.intercept, f.slope);
    var da, db := a - f.intercept, b - f.slope;
    ErrorAroundFit(s, f.intercept, f.slope, da, db);
    PositiveDefinite(s, da, db);
    assert f.intercept + da == a && f.slope + db == b;
    hide AbsoluteQ, Fit;
  }

  /** The short form of the SSE used by the slope error equals the sum of squared residuals. */
  lemma SlopeSseIsSquaredError(txs: seq<Charge>)
    requires Fit(Fold(txs)).Line?
    ensures var f := Fit(Fold(txs));
            SlopeSse(f.intercept, f.slope, Fold(txs)) == SquaredError(txs, f.intercept, f.slope)
  {
    var s := Fold(txs);
    var f := Fit(s);
    var a, b := f.intercept, f.slope;
    NormalEquations(s);
    AbsoluteQIsSquaredError(txs, a, b);
    ShortSse(s, a, b);
    hide AbsoluteQ, SlopeSse, Fit;
  }

  lemma ShortSse(s: SuffStats, a: real, b: real)
    requires s.n * a + b * s.sx == s.sy && a * s.sx + b * s.sxx == s.sxy
    ensures SlopeSse(a, b, s) == AbsoluteQ(a, b, s)
  {
    var e1, e2 := s.n * a + b * s.sx - s.sy, a * s.sx + b * s.sxx - s.sxy;
    assert a * e1 == 0.0 && b * e2 == 0.0;
    assert a * e1 == s.n * a * a + a * b * s.sx - a * s.sy;
    assert b * e2 == a * b * s.sx + b * b * s.sxx - b * s.sxy;
  }

  /** `eval_bps` squared, times `n`, is 10^8 times the sum of squared relative residuals. */
  lemma BpsSquaredMeaning(txs: seq<Charge>, a: real, b: real)
    requires txs != []
    ensures Fold(txs).n > 0.0
    ensures BpsSquared(a, b, Fold(txs)) * Fold(txs).n == 100000000.0 * RelativeError(txs, a, b)
  {
    FoldCount(txs);
    ProportionalQIsRelativeError(txs, a, b);
    ErrorsNonNegative(txs, a, b);
    var e, n := RelativeError(txs, a, b), Fold(txs).n;
    DivisionCancels(e, n);
    assert e / n * 100000000.0 * n == e / n * n * 100000000.0;
  }

  /** Transactions that lie on one line are fitted by exactly that line. */
  lemma ExactLineRecovered(txs: seq<Charge>, a: real, b: real)
    requires |txs| >= 2 && AmountsVary(txs) && OnLine(txs, a, b)
    ensures Fit(Fold(txs)) == Line(b, a)
  {
    FitDefinedExactly(txs);
    FitIsUniqueMinimiser(txs, a, b);
    var f := Fit(Fold(txs));
    ErrorsNonNegative(txs, a, b);
    ErrorsNonNegative(txs, f.intercept, f.slope);
  }

  /** The line is the only one with the least sum of squared residuals. */
  ghost predicate IsLeastSquares(txs: seq<Charge>, a: real, b: real) {
    forall p, q :: SquaredError(txs, a, b) <= SquaredError(txs, p, q)
                   && (SquaredError(txs, p, q) == SquaredError(txs, a, b) ==> p == a && q == b)
  }

  /** `fit` finds that line. */
  lemma FitIsLeastSquares(txs: seq<Charge>)
    requires Fit(Fold(txs)).Line?
    ensures var f := Fit(Fold(txs));
            && IsLeastSquares(txs, f.intercept, f.slope)
            && forall a, b :: IsLeastSquares(txs, a, b) ==> a == f.intercept && b == f.slope
  {
    hide Fit, SquaredError, Fold;
    var f := Fit(Fold(txs));
    forall p, q ensures
      && SquaredError(txs, f.intercept, f.slope) <= SquaredError(txs, p, q)
      && (SquaredError(txs, p, q) == SquaredError(txs, f.intercept, f.slope) ==> p == f.intercept && q == f.slope)
    {
      FitIsUniqueMinimiser(txs, p, q);
    }
  }
}
