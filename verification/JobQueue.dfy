/**
 The `cost_ingestion` work queue of `src/cost_ingestion/store.rs`, as a state machine over its
 database statements: any number of workers claim by reading a snapshot of pending rows and then
 compare-and-swapping them one by one, interleaved with enqueues, progress ticks, outcomes and deletes.

 Main results: over every run each job id is won by at most one claim, a finished claim leaves none of
 its snapshot pending, no job returns to pending, at most one live row exists per (connector,
 notification id), and a live row holds in each column what was last written there.
 */
module JobQueue {
  import opened Options

  type Id = string

  datatype Status = Pending | Processing | Completed | Failed

  datatype Job = Job(
    merchant: string, connector: string, notification: Option<string>, status: Status,
    createdAt: int, stagedRows: int, lastError: Option<string>)

  /** One call of `claim_pending`: the snapshot rows still to be tried, and the ids won so far. */
  datatype Claim = Claim(todo: seq<Id>, claimed: seq<Id>)

  /** `used` holds every id ever generated; `claims` every call ever made. */
  datatype State = State(jobs: map<Id, Job>, used: set<Id>, claims: seq<Claim>)

  const INITIAL := State(map[], {}, [])

  datatype Step =
    | EnqueuePending(id: Id, job: Job)
    | CreateManual(id: Id, job: Job)
    | BeginClaim(snapshot: seq<Id>, limit: nat)
    | TrySwap(claim: nat)
    | UpdateProgress(id: Id, staged: int)
    | MarkCompleted(id: Id, staged: int)
    | MarkFailed(id: Id, error: string)
    | Delete(merchant: string, id: Id)

  /** The UNIQUE (connector, notification_id) constraint admits the row; NULLs never clash. */
  ghost predicate Admits(jobs: map<Id, Job>, job: Job) {
    job.notification.Some? ==>
      forall i :: i in jobs ==> !(jobs[i].connector == job.connector && jobs[i].notification == job.notification)
  }

  /** The first `limit` pending rows, oldest first. */
  ghost predicate IsSnapshot(jobs: map<Id, Job>, snapshot: seq<Id>, limit: nat) {
    && |snapshot| <= limit
    && (forall i :: 0 <= i < |snapshot| ==> snapshot[i] in jobs && jobs[snapshot[i]].status.Pending?)
    && (forall i, j :: 0 <= i < j < |snapshot| ==>
          snapshot[i] != snapshot[j] && jobs[snapshot[i]].createdAt <= jobs[snapshot[j]].createdAt)
    && (forall id, i :: id in jobs && jobs[id].status.Pending? && id !in snapshot && 0 <= i < |snapshot| ==>
          jobs[snapshot[i]].createdAt <= jobs[id].createdAt)
    && ((exists id :: id in jobs && jobs[id].status.Pending? && id !in snapshot) ==> |snapshot| == limit)
  }

  /** When a step can be taken. `enqueue_pending` first looks for an existing row and then inserts;
      the insert is what the constraint guards, so the look-up only decides whether it is tried. */
  ghost predicate Enabled(s: State, step: Step) {
    match step
    case EnqueuePending(id, job) =>
      id !in s.used && job.status.Pending? && job.notification.Some? && Admits(s.jobs, job)
    case CreateManual(id, job) => id !in s.used && job.status.Processing? && job.notification.None?
    case BeginClaim(snapshot, limit) => IsSnapshot(s.jobs, snapshot, limit)
    case TrySwap(claim) => claim < |s.claims| && s.claims[claim].todo != []
    case _ => true
  }

  function SetJob(s: State, id: Id, job: Job): State {
    s.(jobs := s.jobs[id := job])
  }

  function Next(s: State, step: Step): State
    requires step.TrySwap? ==> step.claim < |s.claims| && s.claims[step.claim].todo != []
  {
    match step
    case EnqueuePending(id, job) => SetJob(s, id, job).(used := s.used + {id})
    case CreateManual(id, job) => SetJob(s, id, job).(used := s.used + {id})
    case BeginClaim(snapshot, _) => s.(claims := s.claims + [Claim(snapshot, [])])
    case TrySwap(n) =>
      var claim := s.claims[n];
      var id := claim.todo[0];
      if id in s.jobs && s.jobs[id].status.Pending? then
        SetJob(s, id, s.jobs[id].(status := Processing))
          .(claims := s.claims[n := Claim(claim.todo[1..], claim.claimed + [id])])
      else s.(claims := s.claims[n := claim.(todo := claim.todo[1..])])
    case UpdateProgress(id, staged) =>
      if id in s.jobs then SetJob(s, id, s.jobs[id].(stagedRows := staged)) else s
    case MarkCompleted(id, staged) =>
      if id in s.jobs then SetJob(s, id, s.jobs[id].(status := Completed, stagedRows := staged)) else s
    case MarkFailed(id, error) =>
      if id in s.jobs then SetJob(s, id, s.jobs[id].(status := Failed, lastError := Some(error))) else s
    case Delete(merchant, id) =>
      if id in s.jobs && s.jobs[id].merchant == merchant then s.(jobs := s.jobs - {id}) else s
  }

  ghost predicate IsRun(trace: seq<State>, steps: seq<Step>) {
    && |trace| == |steps| + 1
    && trace[0] == INITIAL
    && forall i :: 0 <= i < |steps| ==> Enabled(trace[i], steps[i]) && trace[i + 1] == Next(trace[i], steps[i])
  }

  // ---------------------------------------------------------------------------------------------
  // The inductive invariant
  // ---------------------------------------------------------------------------------------------

  /** Ids won by claims so far: never pending again, and won once. */
  ghost predicate ClaimedOnce(s: State) {
    && (forall c, i :: 0 <= c < |s.claims| && 0 <= i < |s.claims[c].claimed| ==>
          var id := s.claims[c].claimed[i];
          id in s.used && (id in s.jobs ==> !s.jobs[id].status.Pending?))
    && (forall c, i, d, j ::
          (0 <= c < |s.claims| && 0 <= i < |s.claims[c].claimed| && 0 <= d < |s.claims|
           && 0 <= j < |s.claims[d].claimed| && (c != d || i != j))
          ==> s.claims[c].claimed[i] != s.claims[d].claimed[j])
  }

  ghost predicate UniqueNotifications(s: State) {
    forall i, j :: i in s.jobs && j in s.jobs && i != j && s.jobs[i].notification.Some? ==>
      !(s.jobs[i].connector == s.jobs[j].connector && s.jobs[i].notification == s.jobs[j].notification)
  }

  ghost predicate Inv(s: State) {
    && s.jobs.Keys <= s.used
    && (forall c, i :: 0 <= c < |s.claims| && 0 <= i < |s.claims[c].todo| ==> s.claims[c].todo[i] in s.used)
    && ClaimedOnce(s)
    && UniqueNotifications(s)
  }

  lemma StepKeepsClaims(s: State, step: Step)
    requires Inv(s) && Enabled(s, step)
    ensures ClaimedOnce(Next(s, step))
    ensures var t := Next(s, step);
            forall c, i :: 0 <= c < |t.claims| && 0 <= i < |t.claims[c].todo| ==> t.claims[c].todo[i] in t.used
  {
    hide UniqueNotifications, Admits;
  }

  lemma StepKeepsUnique(s: State, step: Step)
    requires Inv(s) && Enabled(s, step)
    ensures UniqueNotifications(Next(s, step)) && Next(s, step).jobs.Keys <= Next(s, step).used
  {
    hide ClaimedOnce, IsSnapshot;
  }

  lemma {:induction false} RunInvariant(trace: seq<State>, steps: seq<Step>, i: nat)
    requires IsRun(trace, steps) && i < |trace|
    ensures Inv(trace[i])
  {
    hide ClaimedOnce, UniqueNotifications, Enabled, Next;
    if i == 0 {
      assert Inv(INITIAL) by { InitialInvariant(); }
    } else {
      RunInvariant(trace, steps, i - 1);
      StepKeepsClaims(trace[i - 1], steps[i - 1]);
      StepKeepsUnique(trace[i - 1], steps[i - 1]);
    }
  }

  lemma InitialInvariant()
    ensures Inv(INITIAL)
  {
  }

  // ---------------------------------------------------------------------------------------------
  // Safety over whole runs
  // ---------------------------------------------------------------------------------------------

  /** In every interleaving, each job id is won by at most one claim, and only once by it. */
  lemma ExactlyOnceClaiming(trace: seq<State>, steps: seq<Step>, c: nat, i: nat, d: nat, j: nat)
    requires IsRun(trace, steps)
    requires var claims := trace[|steps|].claims;
             && c < |claims| && i < |claims[c].claimed| && d < |claims| && j < |claims[d].claimed|
             && claims[c].claimed[i] == claims[d].claimed[j]
    ensures c == d && i == j
  {
    RunInvariant(trace, steps, |steps|);
  }

  /** At every moment, two live rows never share a connector and a notification id. */
  lemma NotificationsUnique(trace: seq<State>, steps: seq<Step>, n: nat, i: Id, j: Id)
    requires IsRun(trace, steps) && n < |trace| && i in trace[n].jobs && j in trace[n].jobs
    requires trace[n].jobs[i].notification.Some?
    requires trace[n].jobs[i].notification == trace[n].jobs[j].notification
    requires trace[n].jobs[i].connector == trace[n].jobs[j].connector
    ensures i == j
  {
    RunInvariant(trace, steps, n);
  }

  /** A job that once existed and was not pending, or was deleted, is never pending later. */
  ghost predicate PastPending(s: State, id: Id) {
    id in s.used && (id in s.jobs ==> !s.jobs[id].status.Pending?)
  }

  lemma {:induction false} NeverBackToPending(trace: seq<State>, steps: seq<Step>, id: Id, m: nat, n: nat)
    requires IsRun(trace, steps) && m <= n < |trace| && PastPending(trace[m], id)
    ensures PastPending(trace[n], id)
    decreases n - m
  {
    if m < n {
      NeverBackToPending(trace, steps, id, m, n - 1);
    }
  }

  /** A claim keeps its place among the claims of later states. */
  lemma {:induction false} ClaimsOnlyGrow(trace: seq<State>, steps: seq<Step>, m: nat, n: nat)
    requires IsRun(trace, steps) && m <= n < |trace|
    ensures |trace[m].claims| <= |trace[n].claims|
    decreases n - m
  {
    if m < n {
      ClaimsOnlyGrow(trace, steps, m, n - 1);
    }
  }

  /** An id leaves a claim's list only by that claim's swap, which leaves it past pending whoever won. */
  lemma SwapLeavesPastPending(s: State, step: Step, c: nat, id: Id)
    requires Inv(s) && Enabled(s, step) && c < |s.claims| && id in s.claims[c].todo
    ensures |s.claims| <= |Next(s, step).claims|
    ensures id !in Next(s, step).claims[c].todo ==> PastPending(Next(s, step), id)
  {
    hide ClaimedOnce, UniqueNotifications;
    var todo := s.claims[c].todo;
    var i :| 0 <= i < |todo| && todo[i] == id;
    if i > 0 {
      assert todo[1..][i - 1] == id;
    }
  }

  /** In every run, an id that a claim had in its snapshot and has since tried is past pending: a finished
      claim leaves none of its snapshot behind, whatever interfered. */
  lemma {:induction false} TriedIsPastPending(
    trace: seq<State>, steps: seq<Step>, c: nat, id: Id, m: nat, n: nat)
    requires IsRun(trace, steps) && m <= n < |trace|
    requires c < |trace[m].claims| && id in trace[m].claims[c].todo
    ensures c < |trace[n].claims|
    ensures id !in trace[n].claims[c].todo ==> PastPending(trace[n], id)
    decreases n - m
  {
    hide Inv, PastPending, Enabled, Next;
    if m < n {
      TriedIsPastPending(trace, steps, c, id, m, n - 1);
      RunInvariant(trace, steps, n - 1);
      ClaimsOnlyGrow(trace, steps, n - 1, n);
      if id in trace[n - 1].claims[c].todo {
        SwapLeavesPastPending(trace[n - 1], steps[n - 1], c, id);
      } else {
        NeverBackToPending(trace, steps, id, n - 1, n);
      }
    }
  }

  /** The claims that have won the id. */
  ghost predicate Won(s: State, id: Id) {
    exists c :: 0 <= c < |s.claims| && id in s.claims[c].claimed
  }

  lemma WonIsForever(s: State, step: Step, id: Id)
    requires Enabled(s, step) && Won(s, id)
    ensures Won(Next(s, step), id)
  {
    var c :| 0 <= c < |s.claims| && id in s.claims[c].claimed;
    assert id in Next(s, step).claims[c].claimed;
  }

  /** In every state of every run, a queued job that is being processed has been won by a claim: nothing
      else moves it there, so none of a finished claim's snapshot is lost between two workers. */
  lemma {:induction false} ProcessingIsWon(trace: seq<State>, steps: seq<Step>, n: nat, id: Id)
    requires IsRun(trace, steps) && n < |trace| && id in trace[n].jobs
    requires trace[n].jobs[id].status.Processing? && trace[n].jobs[id].notification.Some?
    ensures Won(trace[n], id)
  {
    hide Won;
    if n > 0 {
      var s, step := trace[n - 1], steps[n - 1];
      if id in s.jobs && s.jobs[id].status.Processing? {
        ProcessingIsWon(trace, steps, n - 1, id);
        WonIsForever(s, step, id);
      } else {
        FirstProcessing(s, step, id);
      }
    }
  }

  lemma FirstProcessing(s: State, step: Step, id: Id)
    requires Enabled(s, step) && id in Next(s, step).jobs && !(id in s.jobs && s.jobs[id].status.Processing?)
    requires Next(s, step).jobs[id].status.Processing? && Next(s, step).jobs[id].notification.Some?
    ensures Won(Next(s, step), id)
  {
    hide IsSnapshot, Admits;
    var t := Next(s, step);
    assert step.TrySwap?;
    assert t.claims[step.claim].claimed[|s.claims[step.claim].claimed|] == id;
  }

  /** Without interference a claim returns its whole snapshot, in order. */
  function ClaimAlone(s: State, n: nat): State
    requires n < |s.claims|
    decreases |s.claims[n].todo|
  {
    if s.claims[n].todo == [] then s else ClaimAlone(Next(s, TrySwap(n)), n)
  }

  lemma {:induction false} UndisturbedClaimWinsAll(s: State, n: nat)
    requires n < |s.claims|
    requires var todo := s.claims[n].todo;
             && (forall i :: 0 <= i < |todo| ==> todo[i] in s.jobs && s.jobs[todo[i]].status.Pending?)
             && (forall i, j :: 0 <= i < j < |todo| ==> todo[i] != todo[j])
    ensures |ClaimAlone(s, n).claims| == |s.claims|
    ensures ClaimAlone(s, n).claims[n] == Claim([], s.claims[n].claimed + s.claims[n].todo)
    ensures ClaimAlone(s, n).jobs == Started(s.jobs, s.claims[n].todo)
    decreases |s.claims[n].todo|
  {
    var todo := s.claims[n].todo;
    if todo != [] {
      var t := Next(s, TrySwap(n));
      UndisturbedClaimWinsAll(t, n);
      assert s.claims[n].claimed + [todo[0]] + todo[1..] == s.claims[n].claimed + todo;
      assert forall id :: id in todo <==> id == todo[0] || id in todo[1..];
    }
  }

  /** The same jobs, those listed now processing. */
  ghost function Started(jobs: map<Id, Job>, ids: seq<Id>): map<Id, Job> {
    map id | id in jobs :: if id in ids then jobs[id].(status := Processing) else jobs[id]
  }

  /** An undisturbed claim takes the oldest pending jobs, as many as its limit allows, and nothing else. */
  lemma UndisturbedClaimTakesOldest(s: State, snapshot: seq<Id>, limit: nat)
    requires Enabled(s, BeginClaim(snapshot, limit))
    ensures var t := ClaimAlone(Next(s, BeginClaim(snapshot, limit)), |s.claims|);
            && |t.claims| == |s.claims| + 1
            && var won := t.claims[|s.claims|].claimed;
            && |won| <= limit
            && t.jobs == Started(s.jobs, won)
            && (forall id :: id in won ==> id in s.jobs && s.jobs[id].status.Pending?)
            && (forall i, j :: 0 <= i < j < |won| ==> s.jobs[won[i]].createdAt <= s.jobs[won[j]].createdAt)
            && (forall id :: id in t.jobs && t.jobs[id].status.Pending? ==>
                  && |won| == limit
                  && forall i :: 0 <= i < |won| ==> s.jobs[won[i]].createdAt <= t.jobs[id].createdAt)
  {
    hide Admits;
    var t := Next(s, BeginClaim(snapshot, limit));
    assert t.jobs == s.jobs && t.claims[|s.claims|] == Claim(snapshot, []);
    UndisturbedClaimWinsAll(t, |s.claims|);
    assert [] + snapshot == snapshot;
    hide ClaimAlone, Next;
  }

  /** A claim can begin in every state, whatever its limit; with a limit above the number of rows it takes on
      every pending job. */
  lemma {:induction false} ClaimCanBegin(s: State, limit: nat) returns (snapshot: seq<Id>)
    ensures Enabled(s, BeginClaim(snapshot, limit))
    ensures limit > |s.jobs| ==> forall id :: id in s.jobs && s.jobs[id].status.Pending? ==> id in snapshot
  {
    snapshot := OldestFirst(s.jobs, limit);
    assert forall id :: id in snapshot ==> id in s.jobs.Keys;
    DistinctWithin(snapshot, s.jobs.Keys);
  }

  lemma {:induction false} OldestFirst(jobs: map<Id, Job>, limit: nat) returns (snapshot: seq<Id>)
    ensures IsSnapshot(jobs, snapshot, limit)
  {
    if limit == 0 {
      snapshot := [];
    } else {
      snapshot := OldestFirst(jobs, limit - 1);
      var rest := set id | id in jobs && jobs[id].status.Pending? && id !in snapshot;
      assert forall id :: id in jobs && jobs[id].status.Pending? && id !in snapshot ==> id in rest;
      if rest != {} {
        var oldest := Oldest(jobs, rest);
        snapshot := snapshot + [oldest];
      }
    }
  }

  lemma {:induction false} Oldest(jobs: map<Id, Job>, ids: set<Id>) returns (oldest: Id)
    requires ids != {} && ids <= jobs.Keys
    ensures oldest in ids && forall id :: id in ids ==> jobs[oldest].createdAt <= jobs[id].createdAt
  {
    var id :| id in ids;
    oldest := id;
    if ids != {id} {
      var other := Oldest(jobs, ids - {id});
      if jobs[other].createdAt < jobs[id].createdAt {
        oldest := other;
      }
    }
  }

  lemma {:induction false} DistinctWithin(ids: seq<Id>, keys: set<Id>)
    requires forall i, j :: 0 <= i < j < |ids| ==> ids[i] != ids[j]
    requires forall id :: id in ids ==> id in keys
    ensures |ids| <= |keys|
  {
    if ids != [] {
      var last := ids[|ids| - 1];
      DistinctWithin(ids[..|ids| - 1], keys - {last});
    }
  }

  /** A job being processed can report progress, end either way, and be deleted by its merchant. */
  lemma JobRunsThrough(s: State, id: Id, staged: int, error: string)
    requires id in s.jobs
    ensures Enabled(s, UpdateProgress(id, staged))
    ensures var job, ticked := s.jobs[id], Next(s, UpdateProgress(id, staged));
            && Enabled(ticked, MarkFailed(id, error))
            && Next(ticked, MarkFailed(id, error)).jobs
               == s.jobs[id := job.(status := Failed, stagedRows := staged, lastError := Some(error))]
            && Enabled(ticked, MarkCompleted(id, staged))
            && var done := Next(ticked, MarkCompleted(id, staged));
            && done.jobs == s.jobs[id := job.(status := Completed, stagedRows := staged)]
            && Enabled(done, Delete(job.merchant, id))
            && Next(done, Delete(job.merchant, id)).jobs == s.jobs - {id}
  {
  }

  /** A report that no live row announces can be queued under a fresh id in every state and be won by a claim,
      whatever else is queued; then `JobRunsThrough` applies. */
  lemma ReportIsClaimed(s: State, id: Id, job: Job) returns (snapshot: seq<Id>, limit: nat)
    requires id !in s.used && s.jobs.Keys <= s.used && job.status.Pending? && job.notification.Some?
    requires forall i :: i in s.jobs ==>
               s.jobs[i].connector != job.connector || s.jobs[i].notification != job.notification
    ensures Enabled(s, EnqueuePending(id, job))
    ensures var queued := Next(s, EnqueuePending(id, job));
            && Enabled(queued, BeginClaim(snapshot, limit))
            && var claimed := ClaimAlone(Next(queued, BeginClaim(snapshot, limit)), |s.claims|);
            id in claimed.jobs && claimed.jobs[id] == job.(status := Processing)
  {
    hide IsSnapshot, ClaimAlone;
    var queued := Next(s, EnqueuePending(id, job));
    limit := |queued.jobs| + 1;
    snapshot := ClaimCanBegin(queued, limit);
    var begun := Next(queued, BeginClaim(snapshot, limit));
    assert begun.claims[|s.claims|] == Claim(snapshot, []) && begun.jobs == queued.jobs;
    SnapshotIsPending(queued.jobs, snapshot, limit);
    UndisturbedClaimWinsAll(begun, |s.claims|);
  }

  lemma SnapshotIsPending(jobs: map<Id, Job>, snapshot: seq<Id>, limit: nat)
    requires IsSnapshot(jobs, snapshot, limit)
    ensures forall i :: 0 <= i < |snapshot| ==> snapshot[i] in jobs && jobs[snapshot[i]].status.Pending?
    ensures forall i, j :: 0 <= i < j < |snapshot| ==> snapshot[i] != snapshot[j]
  {
  }

  // ---------------------------------------------------------------------------------------------
  // What a live row says
  // ---------------------------------------------------------------------------------------------

  /** The step inserts the row of the id. */
  ghost predicate Inserts(step: Step, id: Id) {
    (step.EnqueuePending? || step.CreateManual?) && step.id == id
  }

  /** The columns that statements write after the insert. */
  datatype Column = Outcome | Count | LastError

  /** The step is a statement about the id that writes the column. */
  ghost predicate Writes(step: Step, id: Id, column: Column) {
    match column
    case Outcome => (step.MarkCompleted? || step.MarkFailed?) && step.id == id
    case Count => (step.MarkCompleted? || step.UpdateProgress?) && step.id == id
    case LastError => step.MarkFailed? && step.id == id
  }

  /** No step from `from` on and before `n` writes the column. */
  ghost predicate Unwritten(steps: seq<Step>, from: nat, n: nat, id: Id, column: Column)
    requires n <= |steps|
  {
    forall l :: from <= l < n ==> !Writes(steps[l], id, column)
  }

  /** Of the steps before `n`, step `k` is the last to write the column. */
  ghost predicate LastWrite(steps: seq<Step>, k: nat, n: nat, id: Id, column: Column)
    requires n <= |steps|
  {
    k < n && Writes(steps[k], id, column) && Unwritten(steps, k + 1, n, id, column)
  }

  /** The row holds in the column what the steps after its insert `b` and before `n` last wrote there. */
  ghost predicate Tells(job: Job, steps: seq<Step>, b: nat, n: nat, id: Id, column: Column)
    requires b < n <= |steps| && Inserts(steps[b], id)
  {
    && (Unwritten(steps, b + 1, n, id, column) ==> AsInserted(job, steps[b].job, column))
    && (forall k :: b < k < n && LastWrite(steps, k, n, id, column) ==> AsWritten(job, steps[k], id, column))
  }

  ghost predicate AsInserted(job: Job, born: Job, column: Column) {
    match column
    case Outcome => job.status == born.status || (born.status.Pending? && job.status.Processing?)
    case Count => job.stagedRows == born.stagedRows
    case LastError => job.lastError == born.lastError
  }

  ghost predicate AsWritten(job: Job, step: Step, id: Id, column: Column)
    requires Writes(step, id, column)
  {
    match column
    case Outcome => job.status == if step.MarkCompleted? then Completed else Failed
    case Count => job.stagedRows == step.staged
    case LastError => job.lastError == Some(step.error)
  }

  /** The columns that no statement writes are those of the insert. */
  ghost predicate SameIdentity(job: Job, born: Job) {
    && job.merchant == born.merchant && job.connector == born.connector
    && job.notification == born.notification && job.createdAt == born.createdAt
  }

  /** The insert of the id at step `b` has not been undone before `n` by a delete of its own merchant. */
  ghost predicate Kept(steps: seq<Step>, b: nat, n: nat, id: Id)
    requires b < n <= |steps| && Inserts(steps[b], id)
  {
    forall k :: b < k < n ==> steps[k] != Delete(steps[b].job.merchant, id)
  }

  /** In every run, a row exists after `n` steps exactly if one of them inserted it and no later one
      deleted it for its own merchant, and its columns are those last written. */
  lemma {:induction false} RowTellsItsLastWrites(trace: seq<State>, steps: seq<Step>, b: nat, n: nat, id: Id)
    requires IsRun(trace, steps) && b < n <= |steps| && Inserts(steps[b], id)
    ensures id in trace[n].jobs <==> Kept(steps, b, n, id)
    ensures id in trace[n].jobs ==> SameIdentity(trace[n].jobs[id], steps[b].job)
    ensures id in trace[n].jobs ==> forall column: Column :: Tells(trace[n].jobs[id], steps, b, n, id, column)
    ensures id in trace[n].used
  {
    hide IsSnapshot, Admits, Next, Kept, SameIdentity, AsInserted, AsWritten, Writes;
    var s, step := trace[n - 1], steps[n - 1];
    assert trace[n] == Next(s, step);
    if n == b + 1 {
      RowAtInsert(s, steps, b, id);
      forall column: Column ensures Tells(trace[n].jobs[id], steps, b, n, id, column) {
      }
    } else {
      RowTellsItsLastWrites(trace, steps, b, n - 1, id);
      RowAfterStep(s, steps, b, n - 1, id);
      if id in Next(s, step).jobs {
        forall column: Column ensures Tells(Next(s, step).jobs[id], steps, b, n, id, column) {
          TellsAfterStep(s.jobs[id], Next(s, step).jobs[id], steps, b, n - 1, id, column);
        }
      }
    }
  }

  lemma RowAtInsert(s: State, steps: seq<Step>, b: nat, id: Id)
    requires b < |steps| && Inserts(steps[b], id) && Enabled(s, steps[b])
    ensures var t := Next(s, steps[b]);
            && id in t.jobs && id in t.used && Kept(steps, b, b + 1, id) && SameIdentity(t.jobs[id], steps[b].job)
            && forall column: Column :: AsInserted(t.jobs[id], steps[b].job, column)
  {
  }

  /** What one step does to a row: nothing, take it from pending, or write the columns it writes. */
  ghost predicate Moves(was: Job, now: Job, step: Step, id: Id, column: Column) {
    if Writes(step, id, column) then AsWritten(now, step, id, column)
    else AsInserted(now, was, column)
  }

  lemma RowAfterStep(s: State, steps: seq<Step>, b: nat, n: nat, id: Id)
    requires b < n < |steps| && Inserts(steps[b], id) && id in s.used && Enabled(s, steps[n])
    requires id in s.jobs <==> Kept(steps, b, n, id)
    requires id in s.jobs ==> SameIdentity(s.jobs[id], steps[b].job)
    ensures var t := Next(s, steps[n]);
            && (id in t.jobs <==> Kept(steps, b, n + 1, id))
            && (id in t.jobs ==> id in s.jobs && SameIdentity(t.jobs[id], steps[b].job))
            && (id in t.jobs ==> forall column: Column :: Moves(s.jobs[id], t.jobs[id], steps[n], id, column))
            && id in t.used
  {
    hide IsSnapshot, Admits;
  }

  lemma TellsAfterStep(was: Job, now: Job, steps: seq<Step>, b: nat, n: nat, id: Id, column: Column)
    requires b < n < |steps| && Inserts(steps[b], id)
    requires Tells(was, steps, b, n, id, column) && Moves(was, now, steps[n], id, column)
    ensures Tells(now, steps, b, n + 1, id, column)
  {
    hide Writes, Unwritten, LastWrite;
    UnwrittenAfterStep(steps, b + 1, n, id, column);
    forall k | b < k < n + 1 && LastWrite(steps, k, n + 1, id, column)
      ensures Writes(steps[k], id, column) && AsWritten(now, steps[k], id, column)
    {
      LastWriteAfterStep(steps, k, n, id, column);
    }
  }

  lemma UnwrittenAfterStep(steps: seq<Step>, from: nat, n: nat, id: Id, column: Column)
    requires from <= n < |steps|
    ensures Unwritten(steps, from, n + 1, id, column) <==>
            Unwritten(steps, from, n, id, column) && !Writes(steps[n], id, column)
  {
    hide Writes;
  }

  lemma LastWriteAfterStep(steps: seq<Step>, k: nat, n: nat, id: Id, column: Column)
    requires n < |steps| && LastWrite(steps, k, n + 1, id, column)
    ensures Writes(steps[k], id, column)
    ensures if Writes(steps[n], id, column) then k == n else k < n && LastWrite(steps, k, n, id, column)
  {
    hide Writes;
  }

  /** Only an insert brings a row into being. */
  lemma {:induction false} RowWasInserted(trace: seq<State>, steps: seq<Step>, n: nat, id: Id) returns (b: nat)
    requires IsRun(trace, steps) && n <= |steps| && id in trace[n].jobs
    ensures b < n && Inserts(steps[b], id)
  {
    if Inserts(steps[n - 1], id) {
      b := n - 1;
    } else {
      b := RowWasInserted(trace, steps, n - 1, id);
    }
  }
}
