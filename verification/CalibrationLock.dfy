/**
 The per-merchant, per-interval lock of `run_once` in `src/sr_auto_calibration.rs`: a Redis SET-NX key
 named by merchant and interval bucket that lives for twice the interval and is never released.

 Replicas share one clock here and Redis answers every command. `maxDelay` bounds how long after
 computing its bucket a replica still attempts a lock with it (earlier merchants of the same pass may
 take arbitrarily long). A key counts as expired from its expiry instant on; on a server that still keeps
 it at that very millisecond the bound is one millisecond more. The result is exact: the lock is exclusive
 over all runs if and only if that delay is at most one interval.
 */
module CalibrationLock {

  type Merchant = string

  datatype LockKey = LockKey(merchant: Merchant, bucket: int)

  /** One pass of a replica: when it read the clock and the bucket it computed. */
  datatype Pass = Pass(computedAt: nat, bucket: int)

  datatype Win = Win(pass: nat, key: LockKey)

  /** `expiry` holds the last expiry time set for each key, in milliseconds. */
  datatype State = State(now: nat, expiry: map<LockKey, nat>, passes: seq<Pass>, wins: seq<Win>)

  datatype Step =
    | Wait(ms: nat)
    | StartPass
    | TryLock(pass: nat, merchant: Merchant)

  const INITIAL := State(0, map[], [], [])

  /** `now_ms() / 1000 / interval_secs.max(1)` */
  function Bucket(now: nat, intervalSecs: nat): int {
    now / 1000 / (if intervalSecs == 0 then 1 else intervalSecs)
  }

  predicate Enabled(s: State, step: Step, maxDelay: nat) {
    step.TryLock? ==> step.pass < |s.passes| && s.now <= s.passes[step.pass].computedAt + maxDelay
  }

  /** SET key NX EX `2 * interval`: fails while an unexpired key exists. */
  function Next(s: State, step: Step, intervalSecs: nat): State
    requires step.TryLock? ==> step.pass < |s.passes|
  {
    match step
    case Wait(ms) => s.(now := s.now + ms)
    case StartPass => s.(passes := s.passes + [Pass(s.now, Bucket(s.now, intervalSecs))])
    case TryLock(pass, merchant) =>
      var key := LockKey(merchant, s.passes[pass].bucket);
      if key in s.expiry && s.now < s.expiry[key] then s
      else s.(expiry := s.expiry[key := s.now + 2 * intervalSecs * 1000], wins := s.wins + [Win(pass, key)])
  }

  ghost predicate IsRun(trace: seq<State>, steps: seq<Step>, intervalSecs: nat, maxDelay: nat) {
    && |trace| == |steps| + 1
    && trace[0] == INITIAL
    && forall i :: 0 <= i < |steps| ==>
         Enabled(trace[i], steps[i], maxDelay) && trace[i + 1] == Next(trace[i], steps[i], intervalSecs)
  }

  /** No two wins share a merchant and a bucket. */
  ghost predicate Exclusive(s: State) {
    forall i, j :: 0 <= i < j < |s.wins| ==> s.wins[i].key != s.wins[j].key
  }

  // ---------------------------------------------------------------------------------------------
  // Safety
  // ---------------------------------------------------------------------------------------------

  /** The instants of bucket `b` are `[BucketStart(b), BucketStart(b + 1))`. */
  function BucketStart(b: int, intervalSecs: nat): int {
    b * intervalSecs * 1000
  }

  lemma BucketBounds(now: nat, intervalSecs: nat)
    requires intervalSecs >= 1
    ensures var b := Bucket(now, intervalSecs);
            BucketStart(b, intervalSecs) <= now < BucketStart(b + 1, intervalSecs)
    ensures Bucket(now, intervalSecs) >= 0
  {
    var secs := now / 1000;
    var b := secs / intervalSecs;
    assert b * intervalSecs <= secs < (b + 1) * intervalSecs by {
      assert secs == b * intervalSecs + secs % intervalSecs;
      assert (b + 1) * intervalSecs == b * intervalSecs + intervalSecs;
    }
  }

  lemma BucketSpan(b: int, intervalSecs: nat)
    ensures BucketStart(b + 1, intervalSecs) == BucketStart(b, intervalSecs) + intervalSecs * 1000
  {
  }

  ghost predicate Inv(s: State, intervalSecs: nat) {
    && (forall p :: p in s.passes ==> p.computedAt <= s.now && p.bucket == Bucket(p.computedAt, intervalSecs))
    && (forall w :: w in s.wins ==> w.key in s.expiry)
    && (forall k :: k in s.expiry ==> s.expiry[k] >= BucketStart(k.bucket, intervalSecs) + 2 * intervalSecs * 1000)
    && Exclusive(s)
  }

  lemma StepKeepsInv(s: State, step: Step, intervalSecs: nat, maxDelay: nat)
    requires intervalSecs >= 1 && maxDelay <= intervalSecs * 1000
    requires Inv(s, intervalSecs) && Enabled(s, step, maxDelay)
    ensures Inv(Next(s, step, intervalSecs), intervalSecs)
  {
    if step.TryLock? {
      var pass := s.passes[step.pass];
      assert pass in s.passes;
      BucketBounds(pass.computedAt, intervalSecs);
      BucketSpan(pass.bucket, intervalSecs);
      hide Bucket, BucketStart;
      var key := LockKey(step.merchant, pass.bucket);
      var t := Next(s, step, intervalSecs);
      if t != s {
        assert forall w :: w in s.wins ==> w.key != key;
        assert forall w :: w in t.wins ==> w in s.wins || w.key == key;
      }
    }
  }

  lemma {:induction false} RunInvariant(
    trace: seq<State>, steps: seq<Step>, intervalSecs: nat, maxDelay: nat, i: nat)
    requires intervalSecs >= 1 && maxDelay <= intervalSecs * 1000
    requires IsRun(trace, steps, intervalSecs, maxDelay) && i < |trace|
    ensures Inv(trace[i], intervalSecs)
  {
    hide Next, Enabled, Bucket, BucketStart;
    if i > 0 {
      RunInvariant(trace, steps, intervalSecs, maxDelay, i - 1);
      StepKeepsInv(trace[i - 1], steps[i - 1], intervalSecs, maxDelay);
    }
  }

  // ---------------------------------------------------------------------------------------------
  // The bound is tight
  // ---------------------------------------------------------------------------------------------

  /** Two replicas: one locks at once, the other reads the clock at the end of the same interval and
      attempts the lock one interval and one millisecond later, when the key has just expired. */
  function LateSteps(intervalSecs: nat): seq<Step>
    requires intervalSecs >= 1
  {
    [StartPass, TryLock(0, "m"), Wait(intervalSecs * 1000 - 1),
     StartPass, Wait(intervalSecs * 1000 + 1), TryLock(1, "m")]
  }

  lemma LateRun(intervalSecs: nat, maxDelay: nat) returns (trace: seq<State>)
    requires intervalSecs >= 1 && maxDelay > intervalSecs * 1000
    ensures IsRun(trace, LateSteps(intervalSecs), intervalSecs, maxDelay)
    ensures |trace| == 7 && !Exclusive(trace[6])
  {
    var ms := intervalSecs * 1000;
    BucketZero(0, intervalSecs);
    BucketZero(ms - 1, intervalSecs);
    hide Bucket;
    var steps := LateSteps(intervalSecs);
    var key := LockKey("m", 0);
    var s1 := INITIAL.(passes := [Pass(0, 0)]);
    var s2 := s1.(expiry := map[key := 2 * ms], wins := [Win(0, key)]);
    var s3 := s2.(now := ms - 1);
    var s4 := s3.(passes := [Pass(0, 0), Pass(ms - 1, 0)]);
    var s5 := s4.(now := 2 * ms);
    var s6 := s5.(expiry := map[key := 4 * ms], wins := [Win(0, key), Win(1, key)]);
    assert Next(s5, steps[5], intervalSecs).expiry == s6.expiry;
    trace := [INITIAL, s1, s2, s3, s4, s5, s6];
    assert s6.wins[0].key == s6.wins[1].key;
  }

  lemma BucketZero(now: nat, intervalSecs: nat)
    requires intervalSecs >= 1 && now < intervalSecs * 1000
    ensures Bucket(now, intervalSecs) == 0
  {
    assert now / 1000 < intervalSecs;
  }

  /** At most one replica ever acquires the lock of a (merchant, bucket), in every run, if and only if
      no replica attempts it later than one interval after computing the bucket. */
  lemma LockExclusiveExactly(intervalSecs: nat, maxDelay: nat)
    requires intervalSecs >= 1
    ensures maxDelay <= intervalSecs * 1000 <==>
            forall trace, steps, i ::
              IsRun(trace, steps, intervalSecs, maxDelay) && 0 <= i < |trace| ==> Exclusive(trace[i])
  {
    hide Next, Enabled, Bucket, Exclusive;
    if maxDelay <= intervalSecs * 1000 {
      forall trace, steps, i | IsRun(trace, steps, intervalSecs, maxDelay) && 0 <= i < |trace|
        ensures Exclusive(trace[i])
      {
        RunInvariant(trace, steps, intervalSecs, maxDelay, i);
      }
    } else {
      var trace := LateRun(intervalSecs, maxDelay);
      var steps := LateSteps(intervalSecs);
      assert IsRun(trace, steps, intervalSecs, maxDelay);
      assert !Exclusive(trace[6]);
    }
  }

  // ---------------------------------------------------------------------------------------------
  // Which attempts win
  // ---------------------------------------------------------------------------------------------

  /** The attempt of step `j` wins the key. */
  ghost predicate WinsAt(trace: seq<State>, steps: seq<Step>, j: nat, key: LockKey)
    requires |trace| == |steps| + 1
  {
    j < |steps| && steps[j].TryLock? && trace[j + 1].wins == trace[j].wins + [Win(steps[j].pass, key)]
  }

  /** Less than two intervals before step `i`, the key has been won. */
  ghost predicate Held(trace: seq<State>, steps: seq<Step>, i: nat, key: LockKey, intervalSecs: nat)
    requires |trace| == |steps| + 1 && i < |trace|
  {
    exists j :: 0 <= j < i && WinsAt(trace, steps, j, key)
             && trace[i].now < trace[j].now + 2 * (intervalSecs * 1000)
  }

  /** A key's expiry is two intervals after its last win. */
  ghost predicate ExpiryIsLastWin(trace: seq<State>, steps: seq<Step>, i: nat, key: LockKey, intervalSecs: nat)
    requires |trace| == |steps| + 1 && i < |trace|
  {
    var ttl := 2 * (intervalSecs * 1000);
    && (forall j :: 0 <= j < i && WinsAt(trace, steps, j, key) ==>
          key in trace[i].expiry && trace[j].now + ttl <= trace[i].expiry[key])
    && (key in trace[i].expiry ==>
          exists j :: 0 <= j < i && WinsAt(trace, steps, j, key) && trace[i].expiry[key] == trace[j].now + ttl)
  }

  lemma {:induction false} ExpiryIsLast(
    trace: seq<State>, steps: seq<Step>, intervalSecs: nat, maxDelay: nat, i: nat, key: LockKey)
    requires IsRun(trace, steps, intervalSecs, maxDelay) && i < |trace|
    ensures ExpiryIsLastWin(trace, steps, i, key, intervalSecs)
  {
    hide Bucket;
    if i > 0 {
      ExpiryIsLast(trace, steps, intervalSecs, maxDelay, i - 1, key);
      var s, step, t := trace[i - 1], steps[i - 1], trace[i];
      assert t == Next(s, step, intervalSecs);
      if WinsAt(trace, steps, i - 1, key) {
        assert t.wins[|s.wins|].key == key;
      } else if key in t.expiry {
        assert step.TryLock? && t != s ==> LockKey(step.merchant, s.passes[step.pass].bucket) != key;
        var j :| 0 <= j < i - 1 && WinsAt(trace, steps, j, key)
              && s.expiry[key] == trace[j].now + 2 * (intervalSecs * 1000);
        assert t.expiry[key] == trace[j].now + 2 * (intervalSecs * 1000);
      }
    }
  }

  /** In every run, whatever the delays, an attempt wins the key of its merchant and of the interval in
      which its pass read the clock exactly when nobody has won that key in the last two intervals. An
      interval of zero seconds is numbered as one of one second. */
  lemma TryWinsExactly(trace: seq<State>, steps: seq<Step>, intervalSecs: nat, maxDelay: nat, i: nat)
    requires IsRun(trace, steps, intervalSecs, maxDelay) && i < |steps| && steps[i].TryLock?
    ensures steps[i].pass < |trace[i].passes|
    ensures var secs := if intervalSecs <= 1 then 1 else intervalSecs;
            var key := LockKey(steps[i].merchant, trace[i].passes[steps[i].pass].computedAt / 1000 / secs);
            trace[i + 1].wins == trace[i].wins
              + (if Held(trace, steps, i, key, intervalSecs) then [] else [Win(steps[i].pass, key)])
  {
    hide ExpiryIsLastWin, Held;
    PassesKeepTheirBucket(trace, steps, intervalSecs, maxDelay, i);
    var key := LockKey(steps[i].merchant, trace[i].passes[steps[i].pass].bucket);
    HeldIsUnexpired(trace, steps, intervalSecs, maxDelay, i, key);
    assert trace[i + 1] == Next(trace[i], steps[i], intervalSecs);
  }

  lemma HeldIsUnexpired(
    trace: seq<State>, steps: seq<Step>, intervalSecs: nat, maxDelay: nat, i: nat, key: LockKey)
    requires IsRun(trace, steps, intervalSecs, maxDelay) && i < |trace|
    ensures Held(trace, steps, i, key, intervalSecs) <==>
            key in trace[i].expiry && trace[i].now < trace[i].expiry[key]
  {
    hide IsRun, WinsAt;
    ExpiryIsLast(trace, steps, intervalSecs, maxDelay, i, key);
  }

  lemma {:induction false} PassesKeepTheirBucket(
    trace: seq<State>, steps: seq<Step>, intervalSecs: nat, maxDelay: nat, i: nat)
    requires IsRun(trace, steps, intervalSecs, maxDelay) && i < |trace|
    ensures forall p :: p in trace[i].passes ==> p.bucket == Bucket(p.computedAt, intervalSecs)
  {
    hide Bucket;
    if i > 0 {
      PassesKeepTheirBucket(trace, steps, intervalSecs, maxDelay, i - 1);
      assert trace[i] == Next(trace[i - 1], steps[i - 1], intervalSecs);
    }
  }
}
