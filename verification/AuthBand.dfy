/**
 The auth band of `AuthBandSpec::band_floor` in `src/analytics/models.rs`.

 The source takes a square root; here a root is any non-negative `r` with `r * r == x`, so each lemma
 holds for the root the source computes.
 */
module AuthBand {

  datatype BandSpec =
    | Off
    | NoiseFloor(bucketSize: int, z: real)
    | Fixed(halfWidth: real)

  predicate IsRoot(r: real, x: real) {
    r >= 0.0 && r * r == x
  }

  function Samples(bucketSize: int): real {
    if bucketSize < 1 then 1.0 else bucketSize as real
  }

  /** The square of `std_err`. */
  function Variance(p: real, bucketSize: int): real {
    var v := p * (1.0 - p) / Samples(bucketSize);
    if v < 0.0 then 0.0 else v
  }

  function NoiseVariance(leader: real, candidate: real, bucketSize: int): real {
    Variance(leader, bucketSize) + Variance(candidate, bucketSize)
  }

  /** The candidate is at or above its own floor; `root` is the root of the noise variance. `Off` has
      floor minus infinity. */
  predicate InBand(spec: BandSpec, leader: real, candidate: real, root: real) {
    match spec
    case Off => true
    case Fixed(halfWidth) => candidate >= leader - halfWidth
    case NoiseFloor(_, z) => candidate >= leader - z * root
  }

  /** `root` is what the floor of this spec needs. */
  predicate RootFor(spec: BandSpec, leader: real, candidate: real, root: real) {
    spec.NoiseFloor? ==> IsRoot(root, NoiseVariance(leader, candidate, spec.bucketSize))
  }

  predicate IsScore(p: real) {
    0.0 <= p <= 1.0
  }

  lemma ProductNonNegative(x: real, y: real)
    requires x >= 0.0 && y >= 0.0
    ensures x * y >= 0.0
  {
  }

  /** For non-negative reals, comparing squares is comparing values. */
  lemma CompareSquares(x: real, y: real)
    requires x >= 0.0 && y >= 0.0
    ensures x <= y <==> x * x <= y * y
  {
    if x <= y {
      ProductNonNegative(y - x, y + x);
      assert (y - x) * (y + x) == y * y - x * x;
    } else {
      assert (x - y) * (x + y) > 0.0 by {
        assert x - y > 0.0 && x + y > 0.0;
      }
      assert (x - y) * (x + y) == x * x - y * y;
    }
  }

  /** The variance of a score needs no clamping. */
  lemma VarianceScaled(p: real, bucketSize: int)
    requires IsScore(p)
    ensures Variance(p, bucketSize) * Samples(bucketSize) == p * (1.0 - p) && Variance(p, bucketSize) >= 0.0
  {
    ProductNonNegative(p, 1.0 - p);
    var x, b := p * (1.0 - p), Samples(bucketSize);
    QuotientSign(x, b);
  }

  lemma QuotientSign(x: real, b: real)
    requires x >= 0.0 && b > 0.0
    ensures x / b >= 0.0 && x / b * b == x
  {
    var q := x / b;
    assert q * b == x;
  }

  /** A downward parabola in `x`. */
  function Quadratic(l: real, x: real, zz: real, b: real): real {
    zz * (l * (1.0 - l) + x * (1.0 - x)) - b * ((l - x) * (l - x))
  }

  /** The gap the squared test leaves: non-negative exactly inside the band. */
  function Slack(leader: real, c: real, bucketSize: int, z: real): real {
    Quadratic(leader, c, z * z, Samples(bucketSize))
  }

  lemma SquaredGap(d: real, z: real, root: real, v: real)
    requires d >= 0.0 && z >= 0.0 && IsRoot(root, v)
    ensures d <= z * root <==> d * d <= z * z * v
  {
    ProductNonNegative(z, root);
    CompareSquares(d, z * root);
    assert (z * root) * (z * root) == z * z * (root * root);
  }

  lemma ScaledGap(dd: real, zz: real, v: real, b: real, p: real)
    requires b > 0.0 && v * b == p
    ensures dd <= zz * v <==> zz * p - b * dd >= 0.0
  {
    assert zz * (v * b) - b * dd == b * (zz * v - dd);
    if dd <= zz * v {
      ProductNonNegative(b, zz * v - dd);
    } else if zz * p - b * dd >= 0.0 {
      FirstFactorNonNegative(b, zz * v - dd);
    }
  }

  lemma FirstFactorNonNegative(x: real, y: real)
    requires x > 0.0 && x * y >= 0.0
    ensures y >= 0.0
  {
  }

  /** Below the leader, the noise-floor band is a quadratic inequality without roots. */
  lemma InBandIffSlack(spec: BandSpec, leader: real, c: real, root: real)
    requires spec.NoiseFloor? && spec.z >= 0.0 && IsScore(leader) && IsScore(c) && c <= leader
    requires RootFor(spec, leader, c, root)
    ensures InBand(spec, leader, c, root) <==> Slack(leader, c, spec.bucketSize, spec.z) >= 0.0
  {
    hide Variance, Samples, IsRoot;
    var z, b, bs := spec.z, Samples(spec.bucketSize), spec.bucketSize;
    var v := NoiseVariance(leader, c, bs);
    NoiseScaled(leader, c, bs);
    SquaredGap(leader - c, z, root, v);
    ScaledGap((leader - c) * (leader - c), z * z, v, b, leader * (1.0 - leader) + c * (1.0 - c));
  }

  lemma NoiseScaled(leader: real, c: real, bucketSize: int)
    requires IsScore(leader) && IsScore(c)
    ensures NoiseVariance(leader, c, bucketSize) * Samples(bucketSize)
         == leader * (1.0 - leader) + c * (1.0 - c)
    ensures Samples(bucketSize) >= 1.0
  {
    VarianceScaled(leader, bucketSize);
    VarianceScaled(c, bucketSize);
    hide Variance;
    Distribute(Variance(leader, bucketSize), Variance(c, bucketSize), Samples(bucketSize));
  }

  lemma Distribute(x: real, y: real, b: real)
    ensures (x + y) * b == x * b + y * b
  {
  }

  /** The variance of one sample of a score; zero outside the range of scores. */
  function Spread(p: real): real {
    if 0.0 <= p <= 1.0 then p * (1.0 - p) else 0.0
  }

  /** The candidate is within `z` standard errors below the leader, `n` samples each. */
  predicate WithinNoise(leader: real, c: real, z: real, n: real) {
    n * ((leader - c) * (leader - c)) <= z * z * (Spread(leader) + Spread(c))
  }

  /** `z` standard errors, or more, above the leader. */
  predicate BeyondNoise(leader: real, c: real, z: real, n: real) {
    n * ((leader - c) * (leader - c)) >= z * z * (Spread(leader) + Spread(c))
  }

  /** The band of every spec without roots, for all scores, sizes and widths: everything when it is off, a
      half-width below the leader when it is fixed, and otherwise at or above the leader or, squared, at
      most `z` standard errors of `max(1, bucketSize)` samples below it. A negative `z` asks for as much
      above the leader. */
  lemma BandMeaning(spec: BandSpec, leader: real, c: real, root: real)
    requires RootFor(spec, leader, c, root)
    ensures spec.Off? ==> InBand(spec, leader, c, root)
    ensures spec.Fixed? ==> (InBand(spec, leader, c, root) <==> leader - c <= spec.halfWidth)
    ensures spec.NoiseFloor? ==>
              var n := if spec.bucketSize <= 1 then 1.0 else spec.bucketSize as real;
              InBand(spec, leader, c, root) <==>
              if spec.z >= 0.0 then c >= leader || WithinNoise(leader, c, spec.z, n)
              else c >= leader && BeyondNoise(leader, c, spec.z, n)
  {
    hide Variance, Spread, IsRoot, NoiseVariance, WithinNoise, BeyondNoise;
    if spec.NoiseFloor? {
      var z, n := spec.z, Samples(spec.bucketSize);
      var v := NoiseVariance(leader, c, spec.bucketSize);
      NoiseSpread(leader, c, spec.bucketSize);
      if z >= 0.0 {
        FloorBelow(leader, c, z, root, v, n);
      } else {
        FloorAbove(leader, c, z, root, v, n);
      }
    }
  }

  lemma NoiseSpread(leader: real, c: real, bucketSize: int)
    ensures NoiseVariance(leader, c, bucketSize) * Samples(bucketSize) == Spread(leader) + Spread(c)
    ensures Samples(bucketSize) > 0.0
  {
    hide Variance, Spread;
    SpreadScaled(leader, bucketSize);
    SpreadScaled(c, bucketSize);
    SamplesPositive(bucketSize);
    Distribute(Variance(leader, bucketSize), Variance(c, bucketSize), Samples(bucketSize));
  }

  lemma FloorBelow(l: real, c: real, z: real, root: real, v: real, n: real)
    requires z >= 0.0 && IsRoot(root, v) && n > 0.0 && v * n == Spread(l) + Spread(c)
    ensures c >= l - z * root <==> c >= l || WithinNoise(l, c, z, n)
  {
    hide Spread, IsRoot;
    if c >= l {
      RootNonNegative(root, v);
      ProductNonNegative(z, root);
    } else {
      SquaredGap(l - c, z, root, v);
      ScaledGap((l - c) * (l - c), z * z, v, n, Spread(l) + Spread(c));
    }
  }

  lemma FloorAbove(l: real, c: real, z: real, root: real, v: real, n: real)
    requires z < 0.0 && IsRoot(root, v) && n > 0.0 && v * n == Spread(l) + Spread(c)
    ensures c >= l - z * root <==> c >= l && BeyondNoise(l, c, z, n)
  {
    hide Spread, IsRoot;
    AboveGap(c - l, -z, root, v);
    ScaledGapAbove((l - c) * (l - c), z * z, v, n, Spread(l) + Spread(c));
    Opposites(c - l, z, root, v);
  }

  lemma Opposites(d: real, z: real, root: real, v: real)
    ensures d * d == (-d) * (-d) && (-z) * (-z) * v == z * z * v && (-z) * root == -(z * root)
  {
  }

  lemma RootNonNegative(r: real, x: real)
    requires IsRoot(r, x)
    ensures r >= 0.0
  {
  }

  lemma AboveGap(d: real, z: real, root: real, v: real)
    requires z >= 0.0 && IsRoot(root, v)
    ensures d >= z * root <==> d >= 0.0 && d * d >= z * z * v
  {
    ProductNonNegative(z, root);
    if d >= 0.0 {
      CompareSquares(z * root, d);
    }
    assert (z * root) * (z * root) == z * z * (root * root);
  }

  lemma ScaledGapAbove(dd: real, zz: real, v: real, b: real, p: real)
    requires b > 0.0 && v * b == p
    ensures dd >= zz * v <==> b * dd >= zz * p
  {
    assert zz * (v * b) - b * dd == b * (zz * v - dd);
    if dd >= zz * v {
      ProductNonNegative(b, dd - zz * v);
    } else if b * dd >= zz * p {
      FirstFactorNonNegative(b, dd - zz * v);
    }
  }

  lemma SpreadScaled(p: real, bucketSize: int)
    ensures Variance(p, bucketSize) * Samples(bucketSize) == Spread(p)
  {
    if IsScore(p) {
      VarianceScaled(p, bucketSize);
    } else {
      NoSpread(p);
      assert p * (1.0 - p) / Samples(bucketSize) < 0.0 by {
        QuotientNegative(p * (1.0 - p), Samples(bucketSize));
      }
    }
  }

  lemma NoSpread(p: real)
    requires p < 0.0 || p > 1.0
    ensures p * (1.0 - p) < 0.0
  {
  }

  lemma QuotientNegative(x: real, b: real)
    requires x < 0.0 && b > 0.0
    ensures x / b < 0.0
  {
  }

  lemma ConcaveSpread(l: real, c: real, m: real)
    ensures (l - c) * (l * (1.0 - l) + m * (1.0 - m))
         == (l - m) * (l * (1.0 - l) + c * (1.0 - c)) + (m - c) * (l * (1.0 - l) + l * (1.0 - l))
            + (l - m) * (m - c) * (l - c)
  {
  }

  lemma ConcaveDistance(l: real, c: real, m: real)
    ensures (l - c) * ((l - m) * (l - m)) == (l - m) * ((l - c) * (l - c)) - (l - m) * (m - c) * (l - c)
  {
  }

  lemma Combine(x: real, y: real, z: real, p: real, q: real, r: real, t: real, d: real, e: real, zz: real, b: real)
    requires x * p == y * q + z * r + t && x * d == y * e - t
    ensures x * (zz * p - b * d) == y * (zz * q - b * e) + z * (zz * r) + (zz + b) * t
  {
    assert x * (zz * p - b * d) == zz * (x * p) - b * (x * d);
    assert zz * (y * q + z * r + t) == zz * (y * q) + zz * (z * r) + zz * t;
    assert b * (y * e - t) == b * (y * e) - b * t;
  }

  lemma Concave(l: real, c: real, m: real, zz: real, b: real)
    ensures (l - c) * Quadratic(l, m, zz, b) == (l - m) * Quadratic(l, c, zz, b)
            + (m - c) * Quadratic(l, l, zz, b) + (zz + b) * ((l - m) * (m - c) * (l - c))
  {
    ConcaveSpread(l, c, m);
    ConcaveDistance(l, c, m);
    Combine(l - c, l - m, m - c, l * (1.0 - l) + m * (1.0 - m), l * (1.0 - l) + c * (1.0 - c),
            l * (1.0 - l) + l * (1.0 - l), (l - m) * (m - c) * (l - c), (l - m) * (l - m), (l - c) * (l - c), zz, b);
  }

  lemma ConcaveSign(l: real, c: real, m: real, gc: real, gl: real, gm: real, k: real)
    requires c < l && c <= m <= l && gc >= 0.0 && gl >= 0.0 && k >= 0.0
    requires (l - c) * gm == (l - m) * gc + (m - c) * gl + k * ((l - m) * (m - c) * (l - c))
    ensures gm >= 0.0
  {
    ProductNonNegative(l - m, gc);
    ProductNonNegative(m - c, gl);
    ProductNonNegative(l - m, m - c);
    ProductNonNegative((l - m) * (m - c), l - c);
    ProductNonNegative(k, (l - m) * (m - c) * (l - c));
    FirstFactorNonNegative(l - c, gm);
  }

  /** Between a candidate with slack and the leader there is slack. */
  lemma SlackBetween(leader: real, c: real, between: real, bucketSize: int, z: real)
    requires IsScore(leader) && c <= between <= leader && Slack(leader, c, bucketSize, z) >= 0.0
    ensures Slack(leader, between, bucketSize, z) >= 0.0
  {
    hide Quadratic, Samples;
    if c < leader {
      LeaderSlack(leader, bucketSize, z);
      SamplesPositive(bucketSize);
      SquareNonNegative(z);
      var zz, b := z * z, Samples(bucketSize);
      Concave(leader, c, between, zz, b);
      ConcaveSign(leader, c, between, Quadratic(leader, c, zz, b), Quadratic(leader, leader, zz, b),
                  Quadratic(leader, between, zz, b), zz + b);
    }
  }

  /** The band is an interval ending at the leader: if a candidate is inside its own band, so is every
      candidate scoring between it and the leader. */
  lemma BandIsInterval(spec: BandSpec, leader: real, c: real, between: real, root: real, rootBetween: real)
    requires spec.NoiseFloor? ==> spec.z >= 0.0
    requires IsScore(leader) && IsScore(c) && c <= between <= leader
    requires RootFor(spec, leader, c, root) && RootFor(spec, leader, between, rootBetween)
    requires InBand(spec, leader, c, root)
    ensures InBand(spec, leader, between, rootBetween)
  {
    if spec.NoiseFloor? {
      hide Slack, RootFor, InBand;
      InBandIffSlack(spec, leader, c, root);
      InBandIffSlack(spec, leader, between, rootBetween);
      SlackBetween(leader, c, between, spec.bucketSize, spec.z);
    }
  }

  lemma SamplesPositive(bucketSize: int)
    ensures Samples(bucketSize) >= 1.0
  {
  }

  lemma LeaderSlack(leader: real, bucketSize: int, z: real)
    requires IsScore(leader)
    ensures Slack(leader, leader, bucketSize, z) >= 0.0
  {
    var v := leader * (1.0 - leader);
    ProductNonNegative(leader, 1.0 - leader);
    SquareNonNegative(z);
    ProductNonNegative(z * z, v + v);
  }

  lemma SquareNonNegative(z: real)
    ensures z * z >= 0.0
  {
  }

  /** Enlarging the bucket size never admits a new candidate below the leader. */
  lemma LargerBucketNarrows(leader: real, c: real, z: real, small: int, large: int, rootS: real, rootL: real)
    requires z >= 0.0 && IsScore(leader) && IsScore(c) && c <= leader && small <= large
    requires RootFor(NoiseFloor(small, z), leader, c, rootS) && RootFor(NoiseFloor(large, z), leader, c, rootL)
    requires InBand(NoiseFloor(large, z), leader, c, rootL)
    ensures InBand(NoiseFloor(small, z), leader, c, rootS)
  {
    hide Slack, RootFor, InBand;
    InBandIffSlack(NoiseFloor(large, z), leader, c, rootL);
    InBandIffSlack(NoiseFloor(small, z), leader, c, rootS);
    SlackShrinks(leader, c, small, large, z);
  }

  lemma SlackShrinks(leader: real, c: real, small: int, large: int, z: real)
    requires small <= large && Slack(leader, c, large, z) >= 0.0
    ensures Slack(leader, c, small, z) >= 0.0
  {
    QuadraticShrinks(leader, c, z * z, Samples(small), Samples(large));
    hide Quadratic;
  }

  lemma QuadraticShrinks(l: real, x: real, zz: real, b: real, more: real)
    requires b <= more && Quadratic(l, x, zz, more) >= 0.0
    ensures Quadratic(l, x, zz, b) >= 0.0
  {
    var dd := (l - x) * (l - x);
    SquareNonNegative(l - x);
    ProductNonNegative(more - b, dd);
    assert (more - b) * dd == more * dd - b * dd;
  }
}
