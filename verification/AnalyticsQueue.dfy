/**
 The bounded analytics queue of `src/analytics/runtime.rs` and its separate depth counter, as a state
 machine: any number of producers send and then increment, one publisher receives up to 200 events,
 then subtracts, then persists. One instance models either of the two streams.
 */
module AnalyticsQueue {

  const PUBLISH_BATCH_SIZE := 200
  const WRAP := 0x1_0000_0000_0000_0000

  datatype Publisher<E> =
    | Idle
    | Received(batch: seq<E>)
    | Subtracted(batch: seq<E>)

  /** `unincremented` counts producers between `try_send` and `fetch_add`; `accepted`, `dropped` and
      `published` are histories. */
  datatype State<E> = State(
    queue: seq<E>, depth: int, unincremented: nat, publisher: Publisher<E>,
    accepted: seq<E>, dropped: seq<E>, published: seq<E>)
  {
    function InHand(): seq<E> {
      if publisher.Idle? then [] else publisher.batch
    }

    /** Events received whose subtraction is still to come. */
    function Unsubtracted(): nat {
      if publisher.Received? then |publisher.batch| else 0
    }
  }

  datatype Step<E> =
    | TrySend(event: E)
    | Increment
    | Receive(count: nat)
    | Subtract
    | Persist

  /** `queue_capacity.max(1)` */
  function Capacity(configured: nat): nat {
    if configured < 1 then 1 else configured
  }

  function Wrap(x: int): int {
    x % WRAP
  }

  function Initial<E>(): State<E> {
    State([], 0, 0, Idle, [], [], [])
  }

  predicate Enabled<E>(s: State<E>, step: Step<E>) {
    match step
    case TrySend(_) => true
    case Increment => s.unincremented > 0
    case Receive(count) => s.publisher.Idle? && 1 <= count <= |s.queue| && count <= PUBLISH_BATCH_SIZE
    case Subtract => s.publisher.Received?
    case Persist => s.publisher.Subtracted?
  }

  function Next<E>(s: State<E>, step: Step<E>, configured: nat): State<E>
    requires Enabled(s, step)
  {
    match step
    case TrySend(e) =>
      if |s.queue| < Capacity(configured)
      then s.(queue := s.queue + [e], accepted := s.accepted + [e], unincremented := s.unincremented + 1)
      else s.(dropped := s.dropped + [e])
    case Increment => s.(depth := Wrap(s.depth + 1), unincremented := s.unincremented - 1)
    case Receive(count) => s.(queue := s.queue[count..], publisher := Received(s.queue[..count]))
    case Subtract =>
      s.(depth := Wrap(s.depth - |s.publisher.batch|), publisher := Subtracted(s.publisher.batch))
    case Persist => s.(published := s.published + s.publisher.batch, publisher := Idle)
  }

  ghost predicate IsRun<E>(trace: seq<State<E>>, steps: seq<Step<E>>, configured: nat) {
    && |trace| == |steps| + 1
    && trace[0] == Initial()
    && forall i :: 0 <= i < |steps| ==>
         Enabled(trace[i], steps[i]) && trace[i + 1] == Next(trace[i], steps[i], configured)
  }

  // ---------------------------------------------------------------------------------------------
  // Conservation
  // ---------------------------------------------------------------------------------------------

  ghost predicate Conserved<E>(s: State<E>, configured: nat) {
    && (|s.queue| <= configured || |s.queue| == 1)
    && |s.InHand()| <= 200
    && s.accepted == s.published + s.InHand() + s.queue
  }

  /** The counter is the queue length plus unsubtracted receipts minus unincremented sends, mod 2^64. */
  ghost predicate DepthTracks<E>(s: State<E>) {
    s.depth == (|s.queue| + s.Unsubtracted() - s.unincremented) % 0x1_0000_0000_0000_0000
  }

  lemma StepConserves<E>(s: State<E>, step: Step<E>, configured: nat)
    requires Conserved(s, configured) && Enabled(s, step)
    ensures Conserved(Next(s, step, configured), configured)
  {
    hide Wrap;
    match step
    case TrySend(e) =>
      assert s.published + s.InHand() + (s.queue + [e]) == s.published + s.InHand() + s.queue + [e];
    case Receive(count) => assert s.queue == s.queue[..count] + s.queue[count..];
    case _ =>
  }

  lemma WrapAdds(x: int, d: int)
    ensures Wrap(Wrap(x) + d) == Wrap(x + d)
  {
  }

  lemma StepTracksDepth<E>(s: State<E>, step: Step<E>, configured: nat)
    requires DepthTracks(s) && Enabled(s, step)
    ensures DepthTracks(Next(s, step, configured))
  {
    var x := |s.queue| + s.Unsubtracted() - s.unincremented;
    WrapAdds(x, 1);
    if s.publisher.Received? {
      WrapAdds(x, -|s.publisher.batch|);
    }
  }

  /** In every interleaving: the queue never exceeds its capacity, every accepted event is in exactly
      one of published, the batch in hand and the queue, in order, and the counter tracks the queue. */
  lemma {:induction false} QueueConservation<E>(
    trace: seq<State<E>>, steps: seq<Step<E>>, configured: nat, i: nat)
    requires IsRun(trace, steps, configured) && i < |trace|
    ensures Conserved(trace[i], configured) && DepthTracks(trace[i])
  {
    hide Enabled, Next;
    if i > 0 {
      QueueConservation(trace, steps, configured, i - 1);
      StepConserves(trace[i - 1], steps[i - 1], configured);
      StepTracksDepth(trace[i - 1], steps[i - 1], configured);
    }
  }

  /** With no producer and no receipt half-way, the counter is exactly the queue length. */
  lemma DepthExactAtQuiescence<E>(trace: seq<State<E>>, steps: seq<Step<E>>, configured: nat, i: nat)
    requires IsRun(trace, steps, configured) && i < |trace|
    requires trace[i].unincremented == trace[i].Unsubtracted() && configured < 0x1_0000_0000_0000_0000
    ensures trace[i].depth == |trace[i].queue|
  {
    hide Enabled, Next;
    QueueConservation(trace, steps, configured, i);
  }

  // ---------------------------------------------------------------------------------------------
  // Which events are accepted
  // ---------------------------------------------------------------------------------------------

  /** The events sent by the first `n` steps that met a queue with room, or one without. */
  ghost function SentTo<E>(trace: seq<State<E>>, steps: seq<Step<E>>, configured: nat, room: bool, n: nat): seq<E>
    requires |trace| == |steps| + 1 && n <= |steps|
  {
    if n == 0 then []
    else
      var before := SentTo(trace, steps, configured, room, n - 1);
      match steps[n - 1]
      case TrySend(e) =>
        if HasRoom(trace[n - 1], configured) == room then before + [e] else before
      case _ => before
  }

  /** Fewer events than configured, and in any case room for one. */
  ghost predicate HasRoom<E>(s: State<E>, configured: nat) {
    |s.queue| < configured || |s.queue| == 0
  }

  /** An event is accepted exactly when the queue it met had room, and dropped otherwise, each in the order
      sent. */
  lemma {:induction false} AcceptedExactly<E>(
    trace: seq<State<E>>, steps: seq<Step<E>>, configured: nat, n: nat)
    requires IsRun(trace, steps, configured) && n <= |steps|
    ensures trace[n].accepted == SentTo(trace, steps, configured, true, n)
    ensures trace[n].dropped == SentTo(trace, steps, configured, false, n)
  {
    if n > 0 {
      AcceptedExactly(trace, steps, configured, n - 1);
    }
  }

  ghost function Sent<E>(steps: seq<Step<E>>): seq<E> {
    if steps == [] then []
    else
      var before := Sent(steps[..|steps| - 1]);
      match steps[|steps| - 1]
      case TrySend(e) => before + [e]
      case _ => before
  }

  /** While the queue never fills nothing is lost: all events sent are published, in hand or queued, in the
      order sent. */
  lemma NothingLostWithRoom<E>(trace: seq<State<E>>, steps: seq<Step<E>>, configured: nat, n: nat)
    requires IsRun(trace, steps, configured) && n <= |steps|
    requires forall i :: 0 <= i < n && steps[i].TrySend? ==> HasRoom(trace[i], configured)
    ensures trace[n].dropped == []
    ensures trace[n].published + trace[n].InHand() + trace[n].queue == Sent(steps[..n])
  {
    hide HasRoom, Enabled, Next;
    AllMetRoom(trace, steps, configured, n);
    AcceptedExactly(trace, steps, configured, n);
    QueueConservation(trace, steps, configured, n);
  }

  lemma {:induction false} AllMetRoom<E>(trace: seq<State<E>>, steps: seq<Step<E>>, configured: nat, n: nat)
    requires |trace| == |steps| + 1 && n <= |steps|
    requires forall i :: 0 <= i < n && steps[i].TrySend? ==> HasRoom(trace[i], configured)
    ensures SentTo(trace, steps, configured, true, n) == Sent(steps[..n])
    ensures SentTo(trace, steps, configured, false, n) == []
  {
    hide HasRoom;
    if n > 0 {
      AllMetRoom(trace, steps, configured, n - 1);
      assert steps[..n][..n - 1] == steps[..n - 1];
    }
  }

  // ---------------------------------------------------------------------------------------------
  // Everything accepted can be published
  // ---------------------------------------------------------------------------------------------

  /** A continuation of a run, from state `s`. */
  ghost predicate Continues<E>(s: State<E>, trace: seq<State<E>>, steps: seq<Step<E>>, configured: nat) {
    && |trace| == |steps| + 1
    && trace[0] == s
    && forall i :: 0 <= i < |steps| ==>
         Enabled(trace[i], steps[i]) && trace[i + 1] == Next(trace[i], steps[i], configured)
  }

  /** Work left once an event is sent: counting it, finishing the batch in hand, receiving up to 200. */
  function Work<E>(s: State<E>): nat {
    s.unincremented + 3 * |s.queue| + (if s.publisher.Received? then 2 else if s.publisher.Subtracted? then 1 else 0)
  }

  function WorkStep<E>(s: State<E>): Step<E> {
    if s.unincremented > 0 then Increment
    else if s.publisher.Received? then Subtract
    else if s.publisher.Subtracted? then Persist
    else Receive(if |s.queue| < 200 then |s.queue| else 200)
  }

  /** From every state of a run, any further events can all be sent, accepted, counted and published, in
      order: no step needs a condition that the others cannot bring about. With nothing more to send the
      queue drains; then everything accepted is published and the depth counter reads 0. */
  lemma {:induction false} AllCanBePublished<E>(s: State<E>, events: seq<E>, configured: nat)
    returns (trace: seq<State<E>>, steps: seq<Step<E>>)
    requires Conserved(s, configured) && DepthTracks(s)
    ensures Continues(s, trace, steps, configured) && Sent(steps) == events
    ensures var end := trace[|steps|];
            && end.queue == [] && end.publisher.Idle? && end.unincremented == 0 && end.depth == 0
            && end.published == s.accepted + events && end.dropped == s.dropped
    decreases |events|, Work(s)
  {
    hide Conserved, DepthTracks;
    if Work(s) == 0 && events == [] {
      Settled(s, configured);
      trace, steps := [s], [];
    } else {
      var sends := Work(s) == 0;
      var step := if sends then TrySend(events[0]) else WorkStep(s);
      var after := if sends then events[1..] else events;
      var t := Next(s, step, configured);
      StepConserves(s, step, configured);
      StepTracksDepth(s, step, configured);
      WorkShrinks(s, configured);
      var rest, more := AllCanBePublished(t, after, configured);
      trace, steps := [s] + rest, [step] + more;
      PrependStep(s, step, rest, more, configured);
      SentPrepend(step, more);
      assert t.accepted + after == s.accepted + events;
    }
  }

  lemma WorkShrinks<E>(s: State<E>, configured: nat)
    ensures Work(s) > 0 ==> Enabled(s, WorkStep(s))
    ensures Work(s) > 0 ==> var t := Next(s, WorkStep(s), configured);
              Work(t) < Work(s) && t.accepted == s.accepted && t.dropped == s.dropped
  {
  }

  lemma Settled<E>(s: State<E>, configured: nat)
    requires Conserved(s, configured) && DepthTracks(s) && Work(s) == 0
    ensures s.queue == [] && s.publisher.Idle? && s.unincremented == 0 && s.depth == 0
    ensures s.published == s.accepted
  {
  }

  lemma {:induction false} SentPrepend<E>(step: Step<E>, more: seq<Step<E>>)
    ensures Sent([step] + more) == (if step.TrySend? then [step.event] else []) + Sent(more)
  {
    if more == [] {
      assert [step] + more == [step];
      assert [step][..0] == [];
    } else {
      var last := |more| - 1;
      SentPrepend(step, more[..last]);
      assert ([step] + more)[..|more|] == [step] + more[..last];
    }
  }

  lemma PrependStep<E>(s: State<E>, step: Step<E>, rest: seq<State<E>>, more: seq<Step<E>>, configured: nat)
    requires Enabled(s, step) && Continues(Next(s, step, configured), rest, more, configured)
    ensures Continues(s, [s] + rest, [step] + more, configured)
  {
    hide Enabled, Next;
    var trace, steps := [s] + rest, [step] + more;
    forall i | 0 <= i < |steps|
      ensures Enabled(trace[i], steps[i]) && trace[i + 1] == Next(trace[i], steps[i], configured)
    {
      if i > 0 {
        assert trace[i] == rest[i - 1] && trace[i + 1] == rest[i] && steps[i] == more[i - 1];
      }
    }
  }
}
