/** Subscriptions that keep up: a receiver inside the channel's window is not cut off, whatever else happens. */
module KeepingUp {
  import opened Wrappers
  import opened Messages
  import opened Pipelines
  import opened Delivery
  import opened DeliveryInvariants
  import opened DeliveryTheorems
  import opened DeliveryLiveness

  /** In an open pipeline the first stage stops only when its source ends. */
  lemma FirstStageRuns<T(!new)>(p: Pipeline<T>, step: PipeStep<T>)
    requires CanStep(p, step) && Flowing(p) && Open(p) && p.running[0] && !step.SourceEnds?
    ensures StepPipe(p, step).running != [] && StepPipe(p, step).running[0]
  {
    AllRunning(p, 1);
  }

  /**
   * A subscription loses its receiver only because reading a history failed that it had asked for, or
   * because it is further behind than the channel reaches back, or because its connection has closed.
   */
  lemma LosesReceiverOnly(s: State, step: Step, i: nat)
    requires Inv(s) && Enabled(s, step) && i < |s.subs| && Attached(s.subs[i])
    ensures var sub := s.subs[i];
            && i < |Apply(s, step).subs|
            && (!Attached(Apply(s, step).subs[i]) ==>
                  || (sub.progress.Registered? && step == Abandon(i) && sub.start.Some?)
                  || (sub.progress.Streaming? && step == Lag(i) && Behind(s, sub) > s.capacity)
                  || (sub.progress.Streaming? && !Open(sub.pipe)))
  {
    assert SubInv(s, s.subs[i]);
    if s.subs[i].progress.Registered? {
      RegisteredLosesReceiverOnly(s, step, i);
    } else if Open(s.subs[i].pipe) {
      StreamLosesReceiverOnly(s, step, i);
    } else {
      StepKeepsIdentity(s, step, i);
    }
  }

  lemma RegisteredLosesReceiverOnly(s: State, step: Step, i: nat)
    requires Enabled(s, step) && SubIs(s, i, Registered)
    ensures i < |Apply(s, step).subs|
    ensures !Attached(Apply(s, step).subs[i]) ==> step == Abandon(i) && s.subs[i].start.Some?
  {
  }

  lemma StreamLosesReceiverOnly(s: State, step: Step, i: nat)
    requires Inv(s) && Enabled(s, step) && IsStreaming(s, i) && Attached(s.subs[i]) && Open(s.subs[i].pipe)
    ensures i < |Apply(s, step).subs|
    ensures !Attached(Apply(s, step).subs[i]) ==> step == Lag(i) && Behind(s, s.subs[i]) > s.capacity
  {
    assert SubInv(s, s.subs[i]);
    StepIsPipeRun(s, step, i);
    StepKeepsIdentity(s, step, i);
    var part := PipePart(s, step, i);
    if part != [] && !part[0].SourceEnds? {
      FirstStageRuns(s.subs[i].pipe, part[0]);
      assert part[1..] == [];
    }
  }

  /** All along the run the subscription is no further behind than the channel reaches back, and is being read. */
  ghost predicate KeepsUp(s: State, steps: seq<Step>, i: nat)
    requires Legal(s, steps)
    decreases |steps|
  {
    && Shaped(s) && i < |s.subs|
    && Behind(s, s.subs[i]) <= s.capacity && Open(s.subs[i].pipe)
    && (steps != [] ==> steps[0] != Abandon(i) && KeepsUp(Apply(s, steps[0]), steps[1..], i))
  }

  /** A subscription that keeps up keeps its receiver through every run. */
  lemma {:induction false} StaysAttached(s: State, steps: seq<Step>, i: nat)
    requires Inv(s) && Legal(s, steps) && KeepsUp(s, steps, i) && Attached(s.subs[i])
    ensures i < |Run(s, steps).subs| && Attached(Run(s, steps).subs[i])
    decreases |steps|
  {
    if steps != [] {
      LosesReceiverOnly(s, steps[0], i);
      StepInv(s, steps[0]);
      StaysAttached(Apply(s, steps[0]), steps[1..], i);
    }
  }

  /** Nothing of what the subscription has received is still on its way to the client. */
  ghost predicate AllWritten(s: State, i: nat) {
    && IsStreaming(s, i) && Open(s.subs[i].pipe) && Behind(s, s.subs[i]) == 0
    && forall j | 0 <= j < |s.subs[i].pipe.queues| :: s.subs[i].pipe.queues[j] == []
  }

  /**
   * A subscription that keeps up all along a run, and has written everything at its end, has delivered
   * every completed message that it is owed.
   */
  lemma KeepingUpMissesNothing(s: State, steps: seq<Step>, i: nat, q: nat)
    requires Reachable(s) && Legal(s, steps) && KeepsUp(s, steps, i) && Attached(s.subs[i])
    requires AllWritten(Run(s, steps), i)
    requires var t := Run(s, steps); q < |t.log| && Owed(t, t.subs[i], q) && SendIs(t, t.log[q].id, Completed)
    ensures Run(s, steps).log[q] in Run(s, steps).subs[i].pipe.delivered
  {
    ReachableInv(s);
    ReachableRun(s, steps);
    StaysAttached(s, steps, i);
    NoGaps(Run(s, steps), i, q);
  }
}
