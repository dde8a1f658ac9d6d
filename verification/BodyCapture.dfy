/**
 The body-capture completion handshake of `src/analytics/capture.rs`, as a state machine: one body
 that observes frames, sets `complete` and then notifies; any number of waiters that load the flag,
 register for notification, sleep, and on success take a snapshot.

 `notified()` remembers how many `notify_waiters` calls came before it and completes at the next one.
 The flag and the buffer are read and written one at a time (sequential consistency).
 */
module BodyCapture {
  import opened Options
  import opened Sequences

  type Bytes = seq<bv8>

  /** `Swapped`: `complete` is set and the notification is still to come. */
  datatype Phase = Open | Swapped | Notified

  /** `loadedAt` and `registeredAt` are step numbers. */
  datatype Waiter =
    | Looping
    | SawIncomplete(loadedAt: nat)
    | Asleep(loadedAt: nat, registeredAt: nat, epoch: nat)
    | SawComplete
    | Done(snapshot: Bytes)

  /** `frames` is every data frame observed, `late` whether one came after completion began. */
  datatype State = State(
    clock: nat, buffer: Bytes, complete: bool, guardFinished: bool, phase: Phase, notifications: nat,
    waiters: seq<Waiter>, frames: seq<Bytes>, late: bool, completedAt: Option<nat>, notifiedAt: Option<nat>)

  datatype Step =
    | DataFrame(data: Bytes)
    | OtherFrame
    | Finish
    | Notify
    | NewWaiter
    | Load(w: nat)
    | Register(w: nat)
    | Wake(w: nat)
    | Snapshot(w: nat)

  const INITIAL := State(0, [], false, false, Open, 0, [], [], false, None, None)

  /** The body is one task: between its swap and its notification it does nothing else. `Finish` is
      the end of the body, an error, or its drop. */
  predicate Enabled(s: State, step: Step) {
    match step
    case DataFrame(_) => !s.phase.Swapped?
    case OtherFrame => !s.phase.Swapped?
    case Finish => !s.phase.Swapped?
    case Notify => s.phase.Swapped?
    case NewWaiter => true
    case Load(w) => w < |s.waiters| && s.waiters[w].Looping?
    case Register(w) => w < |s.waiters| && s.waiters[w].SawIncomplete?
    case Wake(w) => w < |s.waiters| && s.waiters[w].Asleep? && s.notifications > s.waiters[w].epoch
    case Snapshot(w) => w < |s.waiters| && s.waiters[w].SawComplete?
  }

  function SetWaiter(s: State, w: nat, to: Waiter): State
    requires w < |s.waiters|
  {
    s.(waiters := s.waiters[w := to])
  }

  function Effect(s: State, step: Step): State
    requires Enabled(s, step)
  {
    match step
    case DataFrame(data) =>
      s.(buffer := s.buffer + data, frames := s.frames + [data], late := s.late || s.complete)
    case OtherFrame => s
    case Finish =>
      if s.guardFinished then s
      else if s.complete then s.(guardFinished := true)
      else s.(guardFinished := true, complete := true, phase := Swapped, completedAt := Some(s.clock))
    case Notify => s.(notifications := s.notifications + 1, phase := Notified, notifiedAt := Some(s.clock))
    case NewWaiter => s.(waiters := s.waiters + [Looping])
    case Load(w) => SetWaiter(s, w, if s.complete then SawComplete else SawIncomplete(s.clock))
    case Register(w) => SetWaiter(s, w, Asleep(s.waiters[w].loadedAt, s.clock, s.notifications))
    case Wake(w) => SetWaiter(s, w, Looping)
    case Snapshot(w) => SetWaiter(s, w, Done(s.buffer))
  }

  function Next(s: State, step: Step): State
    requires Enabled(s, step)
  {
    Effect(s, step).(clock := s.clock + 1)
  }

  ghost predicate IsRun(trace: seq<State>, steps: seq<Step>) {
    && |trace| == |steps| + 1
    && trace[0] == INITIAL
    && forall i :: 0 <= i < |steps| ==> Enabled(trace[i], steps[i]) && trace[i + 1] == Next(trace[i], steps[i])
  }

  // ---------------------------------------------------------------------------------------------
  // The invariant
  // ---------------------------------------------------------------------------------------------

  ghost predicate PhaseInv(s: State) {
    && (s.complete <==> !s.phase.Open?) && (s.guardFinished <==> s.complete)
    && s.notifications == (if s.phase.Notified? then 1 else 0)
    && (s.completedAt.Some? <==> s.complete) && (s.notifiedAt.Some? <==> s.phase.Notified?)
    && (s.completedAt.Some? ==> s.completedAt.value < s.clock)
    && (s.notifiedAt.Some? ==> s.completedAt.value < s.notifiedAt.value < s.clock)
    && (s.late ==> s.complete)
    && s.buffer == Flatten(s.frames)
  }

  ghost predicate WaiterInv(s: State, w: Waiter) {
    match w
    case Looping => true
    case SawIncomplete(loaded) => loaded < s.clock && (s.completedAt.Some? ==> loaded < s.completedAt.value)
    case Asleep(loaded, registered, epoch) =>
      && loaded < registered < s.clock
      && (s.completedAt.Some? ==> loaded < s.completedAt.value)
      && (epoch == 0 || epoch == 1)
      && (epoch == 0 && s.notifiedAt.Some? ==> registered < s.notifiedAt.value)
      && (epoch == 1 ==> s.notifiedAt.Some? && s.notifiedAt.value < registered)
    case SawComplete => s.complete
    case Done(snapshot) => s.complete && (!s.late ==> snapshot == Flatten(s.frames))
  }

  ghost predicate Inv(s: State) {
    PhaseInv(s) && forall i :: 0 <= i < |s.waiters| ==> WaiterInv(s, s.waiters[i])
  }

  lemma StepKeepsPhase(s: State, step: Step)
    requires Inv(s) && Enabled(s, step)
    ensures PhaseInv(Next(s, step))
  {
    hide Flatten, WaiterInv;
    if step.DataFrame? {
      FlattenSnoc(s.frames, step.data);
    }
  }

  lemma StepKeepsWaiters(s: State, step: Step, i: nat)
    requires Inv(s) && Enabled(s, step) && i < |Next(s, step).waiters|
    ensures WaiterInv(Next(s, step), Next(s, step).waiters[i])
  {
    hide Flatten;
    if i < |s.waiters| {
      assert WaiterInv(s, s.waiters[i]);
    }
  }

  lemma {:induction false} RunInvariant(trace: seq<State>, steps: seq<Step>, i: nat)
    requires IsRun(trace, steps) && i < |trace|
    ensures Inv(trace[i])
  {
    if i > 0 {
      RunInvariant(trace, steps, i - 1);
      hide Next, Enabled, WaiterInv, PhaseInv;
      StepKeepsPhase(trace[i - 1], steps[i - 1]);
      forall k | 0 <= k < |trace[i].waiters| ensures WaiterInv(trace[i], trace[i].waiters[k]) {
        StepKeepsWaiters(trace[i - 1], steps[i - 1], k);
      }
    }
  }

  // ---------------------------------------------------------------------------------------------
  // The results
  // ---------------------------------------------------------------------------------------------

  /** However often the body ends, fails or is dropped, it notifies at most once. */
  lemma NotifiesAtMostOnce(trace: seq<State>, steps: seq<Step>, i: nat)
    requires IsRun(trace, steps) && i < |trace|
    ensures trace[i].notifications <= 1
  {
    RunInvariant(trace, steps, i);
  }

  /** A returned snapshot is the in-order concatenation of every data frame, unless the body was
      polled for more data after its end. */
  lemma SnapshotIsWholeBody(trace: seq<State>, steps: seq<Step>, i: nat, w: nat)
    requires IsRun(trace, steps) && i < |trace| && w < |trace[i].waiters| && trace[i].waiters[w].Done?
    ensures trace[i].complete
    ensures !trace[i].late ==> trace[i].waiters[w].snapshot == Flatten(trace[i].frames)
  {
    RunInvariant(trace, steps, i);
    assert WaiterInv(trace[i], trace[i].waiters[w]);
  }

  /** No wake-up can reach the waiter any more: the only notification came before it registered. */
  ghost predicate Stuck(s: State, w: nat)
    requires w < |s.waiters|
  {
    s.phase.Notified? && s.waiters[w].Asleep? && !Enabled(s, Wake(w))
  }

  /** After the notification a sleeping waiter is stuck exactly when it registered after it; and then
      it had loaded the flag before completion. */
  lemma StuckExactly(trace: seq<State>, steps: seq<Step>, i: nat, w: nat)
    requires IsRun(trace, steps) && i < |trace| && w < |trace[i].waiters|
    requires trace[i].phase.Notified? && trace[i].waiters[w].Asleep?
    ensures var s := trace[i]; var x := s.waiters[w];
            && s.completedAt.Some? && s.notifiedAt.Some?
            && (Stuck(s, w) <==> x.registeredAt > s.notifiedAt.value)
            && (Stuck(s, w) ==> x.loadedAt < s.completedAt.value < s.notifiedAt.value < x.registeredAt)
  {
    RunInvariant(trace, steps, i);
    assert WaiterInv(trace[i], trace[i].waiters[w]);
  }

  /** A stuck waiter stays stuck for the rest of the run. */
  lemma {:induction false} StuckForever(trace: seq<State>, steps: seq<Step>, i: nat, j: nat, w: nat)
    requires IsRun(trace, steps) && i <= j < |trace| && w < |trace[i].waiters| && Stuck(trace[i], w)
    ensures w < |trace[j].waiters| && Stuck(trace[j], w)
    decreases j - i
  {
    if i < j {
      StuckForever(trace, steps, i, j - 1, w);
      RunInvariant(trace, steps, j - 1);
      assert WaiterInv(trace[j - 1], trace[j - 1].waiters[w]);
    }
  }

  /** Such a run exists: the flag is loaded, the body ends and notifies, and only then the waiter
      registers. */
  lemma LostWakeUp() returns (trace: seq<State>, steps: seq<Step>)
    ensures IsRun(trace, steps) && |trace| == 6 && |trace[5].waiters| == 1 && Stuck(trace[5], 0)
  {
    steps := [NewWaiter, Load(0), Finish, Notify, Register(0)];
    var s1 := Next(INITIAL, NewWaiter);
    var s2 := Next(s1, Load(0));
    var s3 := Next(s2, Finish);
    var s4 := Next(s3, Notify);
    var s5 := Next(s4, Register(0));
    trace := [INITIAL, s1, s2, s3, s4, s5];
  }

  // ---------------------------------------------------------------------------------------------
  // Every other waiter gets its snapshot
  // ---------------------------------------------------------------------------------------------

  ghost predicate Continues(s: State, trace: seq<State>, steps: seq<Step>) {
    && |trace| == |steps| + 1
    && trace[0] == s
    && forall i :: 0 <= i < |steps| ==> Enabled(trace[i], steps[i]) && trace[i + 1] == Next(trace[i], steps[i])
  }

  /** The waiter's own next step once the body has notified. */
  function WaiterStep(s: State, w: nat): Step
    requires w < |s.waiters|
  {
    match s.waiters[w]
    case Looping => Load(w)
    case SawIncomplete(_) => Register(w)
    case Asleep(_, _, _) => Wake(w)
    case SawComplete => Snapshot(w)
    case Done(_) => OtherFrame
  }

  function WaiterWork(w: Waiter): nat {
    match w
    case Asleep(_, _, _) => 3
    case Looping => 2
    case SawComplete => 1
    case _ => 0
  }

  lemma {:induction false} WaiterWorks(s: State, w: nat) returns (trace: seq<State>, steps: seq<Step>)
    requires Inv(s) && s.phase.Notified? && w < |s.waiters| && !s.waiters[w].SawIncomplete? && !Stuck(s, w)
    ensures Continues(s, trace, steps)
    ensures var end := trace[|steps|];
            w < |end.waiters| && end.waiters[w].Done?
            && (!s.waiters[w].Done? ==> end.waiters[w].snapshot == s.buffer)
    decreases WaiterWork(s.waiters[w])
  {
    hide Flatten;
    if s.waiters[w].Done? {
      trace, steps := [s], [];
    } else {
      var step := WaiterStep(s, w);
      var t := Next(s, step);
      StepKeepsPhase(s, step);
      forall i | 0 <= i < |t.waiters| ensures WaiterInv(t, t.waiters[i]) {
        StepKeepsWaiters(s, step, i);
      }
      assert t.buffer == s.buffer;
      if t.waiters[w].Done? {
        trace, steps := [s, t], [step];
      } else {
        var rest, more := WaiterWorks(t, w);
        trace, steps := [s] + rest, [step] + more;
        PrependStep(s, step, rest, more);
      }
    }
  }

  lemma PrependStep(s: State, step: Step, rest: seq<State>, more: seq<Step>)
    requires Enabled(s, step) && Continues(Next(s, step), rest, more)
    ensures Continues(s, [s] + rest, [step] + more)
    ensures |rest| == |more| + 1 && ([s] + rest)[|more| + 1] == rest[|more|]
  {
    hide Enabled, Next;
    var trace, steps := [s] + rest, [step] + more;
    forall i | 0 <= i < |steps| ensures Enabled(trace[i], steps[i]) && trace[i + 1] == Next(trace[i], steps[i]) {
      if i > 0 {
        assert trace[i] == rest[i - 1] && trace[i + 1] == rest[i] && steps[i] == more[i - 1];
      }
    }
  }

  /** In every state of every run after the notification, a waiter that is not stuck and not about to be (it has
      not seen the flag unset without having registered) can run to its snapshot of the buffer on its own. */
  lemma WaiterFinishes(trace: seq<State>, steps: seq<Step>, i: nat, w: nat)
    returns (more: seq<State>, moreSteps: seq<Step>)
    requires IsRun(trace, steps) && i < |trace| && trace[i].phase.Notified?
    requires w < |trace[i].waiters| && !trace[i].waiters[w].SawIncomplete? && !Stuck(trace[i], w)
    ensures Continues(trace[i], more, moreSteps)
    ensures var end := more[|moreSteps|];
            w < |end.waiters| && end.waiters[w].Done?
            && (!trace[i].waiters[w].Done? ==> end.waiters[w].snapshot == trace[i].buffer)
  {
    hide Enabled, Next, Inv;
    RunInvariant(trace, steps, i);
    more, moreSteps := WaiterWorks(trace[i], w);
  }

  /** A waiter that has seen the flag unset and not registered when the body notifies is stuck as soon as it
      does register. */
  lemma UnregisteredGetsStuck(s: State, w: nat)
    requires s.phase.Notified? && w < |s.waiters| && s.waiters[w].SawIncomplete?
    ensures Enabled(s, Register(w)) && Stuck(Next(s, Register(w)), w)
  {
  }

  // ---------------------------------------------------------------------------------------------
  // Nothing holds the body up
  // ---------------------------------------------------------------------------------------------

  predicate IsBodyStep(step: Step) {
    step.DataFrame? || step.OtherFrame? || step.Finish?
  }

  /** The steps without notifications. */
  ghost function Unnotified(steps: seq<Step>): seq<Step> {
    if steps == [] then []
    else (if steps[0].Notify? then [] else [steps[0]]) + Unnotified(steps[1..])
  }

  ghost function DataOf(steps: seq<Step>): seq<Bytes> {
    if steps == [] then []
    else (if steps[0].DataFrame? then [steps[0].data] else []) + DataOf(steps[1..])
  }

  /** From every state the body can deliver any further frames and ends in order, with nothing between them
      but its notification, and all the data is observed. */
  lemma {:induction false} BodyGoesOn(s: State, wanted: seq<Step>) returns (trace: seq<State>, steps: seq<Step>)
    requires forall step :: step in wanted ==> IsBodyStep(step)
    ensures Continues(s, trace, steps) && Unnotified(steps) == wanted
    ensures var end := trace[|steps|];
            && !end.phase.Swapped? && end.waiters == s.waiters && end.frames == s.frames + DataOf(wanted)
            && (s.guardFinished ==> end.guardFinished) && (Finish in wanted ==> end.guardFinished)
    decreases |wanted|, if s.phase.Swapped? then 1 else 0
  {
    hide Enabled, Next, Unnotified, DataOf, Continues;
    if wanted == [] && !s.phase.Swapped? {
      NoStepsYet(s);
      trace, steps := [s], [];
    } else {
      var step := if s.phase.Swapped? then Notify else wanted[0];
      var after := if s.phase.Swapped? then wanted else wanted[1..];
      assert wanted != [] ==> wanted[0] in wanted;
      BodyStepIs(s, step);
      var t := Next(s, step);
      var rest, more := BodyGoesOn(t, after);
      trace, steps := [s] + rest, [step] + more;
      PrependStep(s, step, rest, more);
      HeadStep(step, more);
      if !s.phase.Swapped? {
        HeadStep(step, after);
        assert [step] + after == wanted;
        assert Finish in wanted ==> step == Finish || Finish in after;
      }
      var data := if step.DataFrame? then [step.data] else [];
      assert s.frames + data + DataOf(after) == s.frames + (data + DataOf(after));
    }
  }

  lemma NoStepsYet(s: State)
    ensures Continues(s, [s], []) && Unnotified([]) == [] && DataOf([]) == []
  {
  }

  lemma HeadStep(step: Step, more: seq<Step>)
    ensures Unnotified([step] + more) == (if step.Notify? then [] else [step]) + Unnotified(more)
    ensures DataOf([step] + more) == (if step.DataFrame? then [step.data] else []) + DataOf(more)
  {
    assert ([step] + more)[1..] == more;
  }

  lemma BodyStepIs(s: State, step: Step)
    requires if s.phase.Swapped? then step.Notify? else IsBodyStep(step)
    ensures Enabled(s, step)
    ensures var t := Next(s, step);
            && t.waiters == s.waiters
            && t.frames == s.frames + (if step.DataFrame? then [step.data] else [])
            && (s.guardFinished || step.Finish? ==> t.guardFinished)
            && (step.Notify? ==> !t.phase.Swapped?)
  {
  }

  lemma JoinRuns(s: State, trace: seq<State>, steps: seq<Step>, rest: seq<State>, more: seq<Step>)
    requires Continues(s, trace, steps) && Continues(trace[|steps|], rest, more)
    ensures |trace| == |steps| + 1 && |rest| == |more| + 1
    ensures Continues(s, trace + rest[1..], steps + more)
    ensures (trace + rest[1..])[|steps + more|] == rest[|more|]
  {
    hide Enabled, Next;
    var whole, all := trace + rest[1..], steps + more;
    forall i | 0 <= i < |all| ensures Enabled(whole[i], all[i]) && whole[i + 1] == Next(whole[i], all[i]) {
      if i >= |steps| {
        assert whole[i] == rest[i - |steps|] && all[i] == more[i - |steps|];
        assert whole[i + 1] == rest[i - |steps| + 1];
      }
    }
  }

  function Frames(datas: seq<Bytes>): seq<Step> {
    seq(|datas|, i requires 0 <= i < |datas| => DataFrame(datas[i]))
  }

  lemma {:induction false} FramesCarry(datas: seq<Bytes>, ends: seq<Step>)
    requires ends == [] || ends == [Finish]
    ensures DataOf(Frames(datas) + ends) == datas
  {
    if datas != [] {
      FramesCarry(datas[1..], ends);
      assert Frames(datas)[1..] == Frames(datas[1..]);
      assert (Frames(datas) + ends)[1..] == Frames(datas)[1..] + ends;
    } else if ends == [Finish] {
      assert [Finish][1..] == [];
    }
  }

  /** For any frames before its end and any polled after it, a body can run so that a waiter that comes after
      the end gets exactly those before: the exception in `SnapshotIsWholeBody` cannot be dropped. */
  lemma LateFramesAreMissed(before: seq<Bytes>, late: seq<Bytes>) returns (trace: seq<State>, steps: seq<Step>)
    ensures IsRun(trace, steps)
    ensures trace[|steps|].frames == before + late
    ensures trace[|steps|].waiters == [Done(Flatten(before))]
  {
    hide Flatten, Continues, Enabled, Next, Frames, DataOf, Inv;
    FramesCarry(before, [Finish]);
    FramesCarry(late, []);
    BodySteps(before);
    BodySteps(late);
    var trace1, steps1 := BodyGoesOn(INITIAL, Frames(before) + [Finish]);
    var s := Ended(trace1, steps1, before);
    var trace2, steps2 := WaiterAfterEnd(s);
    JoinRuns(INITIAL, trace1, steps1, trace2, steps2);
    trace, steps := trace1 + trace2[1..], steps1 + steps2;
    var trace3, steps3 := BodyGoesOn(trace2[|steps2|], Frames(late));
    JoinRuns(INITIAL, trace, steps, trace3, steps3);
    trace, steps := trace + trace3[1..], steps + steps3;
    RunFromStart(trace, steps);
  }

  lemma BodySteps(datas: seq<Bytes>)
    ensures forall step :: step in Frames(datas) ==> IsBodyStep(step)
    ensures Finish in Frames(datas) + [Finish] && Frames(datas) + [] == Frames(datas)
  {
    assert (Frames(datas) + [Finish])[|datas|] == Finish;
  }

  lemma RunFromStart(trace: seq<State>, steps: seq<Step>)
    ensures Continues(INITIAL, trace, steps) <==> IsRun(trace, steps)
  {
  }

  lemma Ended(trace: seq<State>, steps: seq<Step>, before: seq<Bytes>) returns (s: State)
    requires Continues(INITIAL, trace, steps)
    requires var end := trace[|steps|];
             !end.phase.Swapped? && end.guardFinished && end.waiters == INITIAL.waiters
             && end.frames == INITIAL.frames + before
    ensures s == trace[|steps|] && s.complete && s.waiters == [] && s.buffer == Flatten(before) && s.frames == before
  {
    hide Flatten;
    RunFromStart(trace, steps);
    RunInvariant(trace, steps, |steps|);
    s := trace[|steps|];
    assert s.frames == before;
  }

  lemma WaiterAfterEnd(s: State) returns (trace: seq<State>, steps: seq<Step>)
    requires s.complete && s.waiters == []
    ensures Continues(s, trace, steps)
    ensures trace[|steps|].waiters == [Done(s.buffer)] && trace[|steps|].frames == s.frames
  {
    steps := [NewWaiter, Load(0), Snapshot(0)];
    var s1 := Next(s, NewWaiter);
    var s2 := Next(s1, Load(0));
    trace := [s, s1, s2, Next(s2, Snapshot(0))];
  }
}
