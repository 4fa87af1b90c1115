/** What a subscription is bound to reach: an empty backlog while it is read, a released channel once it is closed. */
module DeliveryLiveness {
  import opened Messages
  import opened Pipelines
  import opened Histories
  import opened Delivery
  import opened DeliveryInvariants
  import opened DeliveryTheorems

  lemma ReachableRun(s: State, steps: seq<Step>)
    requires Reachable(s) && Legal(s, steps)
    ensures Reachable(Run(s, steps))
  {
    var backend: Backend, capacity: nat, before: seq<Step> :|
      capacity >= 1 && Legal(Init(backend, capacity), before) && Run(Init(backend, capacity), before) == s;
    RunConcat(Init(backend, capacity), before, steps);
    assert Legal(Init(backend, capacity), before + steps);
  }

  // The run of one pipeline inside a run of the system

  ghost function PipePart(s: State, step: Step, i: nat): seq<PipeStep<Message>>
    requires Enabled(s, step) && IsStreaming(s, i)
  {
    var sub := s.subs[i];
    match step
    case Receive(j) =>
      if j != i then []
      else
        var m := s.channels[sub.channel].sent[sub.next];
        if m.id in Ids(sub.history) then [] else [Accept(m)]
    case Lag(j) => if j == i then [SourceEnds] else []
    case SeeChannelClosed(j) => if j == i then [SourceEnds] else []
    case Pump(j, pipeStep) => if j == i then [pipeStep] else []
    case _ => []
  }

  lemma StepIsPipeRun(s: State, step: Step, i: nat)
    requires Enabled(s, step) && IsStreaming(s, i)
    ensures LegalPipe(s.subs[i].pipe, PipePart(s, step, i))
    ensures |Apply(s, step).subs| > i && Apply(s, step).subs[i].pipe == RunPipe(s.subs[i].pipe, PipePart(s, step, i))
  {
    var part := PipePart(s, step, i);
    if part != [] {
      assert part[1..] == [];
      assert LegalPipe(StepPipe(s.subs[i].pipe, part[0]), []);
    }
  }

  ghost function Projection(s: State, steps: seq<Step>, i: nat): seq<PipeStep<Message>>
    requires Inv(s) && Legal(s, steps) && IsStreaming(s, i)
    decreases |steps|
  {
    if steps == [] then []
    else
      StreamingStays(s, steps[0], i);
      PipePart(s, steps[0], i) + Projection(Apply(s, steps[0]), steps[1..], i)
  }

  lemma StreamingStays(s: State, step: Step, i: nat)
    requires Inv(s) && Enabled(s, step) && IsStreaming(s, i)
    ensures Inv(Apply(s, step)) && IsStreaming(Apply(s, step), i)
  {
    StepInv(s, step);
    StepKeepsIdentity(s, step, i);
    assert SubInv(Apply(s, step), Apply(s, step).subs[i]);
  }

  lemma {:induction false} PipeRunConcat<T(!new)>(p: Pipeline<T>, a: seq<PipeStep<T>>, b: seq<PipeStep<T>>)
    requires LegalPipe(p, a) && LegalPipe(RunPipe(p, a), b)
    ensures LegalPipe(p, a + b) && RunPipe(p, a + b) == RunPipe(RunPipe(p, a), b)
    decreases |a|
  {
    if a == [] {
      assert a + b == b;
    } else {
      assert (a + b)[1..] == a[1..] + b;
      PipeRunConcat(StepPipe(p, a[0]), a[1..], b);
    }
  }

  /** Whatever the system does, each pipeline in it makes a legal run of its own. */
  lemma {:induction false} RunIsPipeRun(s: State, steps: seq<Step>, i: nat)
    requires Inv(s) && Legal(s, steps) && IsStreaming(s, i)
    ensures Inv(Run(s, steps)) && IsStreaming(Run(s, steps), i)
    ensures LegalPipe(s.subs[i].pipe, Projection(s, steps, i))
    ensures Run(s, steps).subs[i].pipe == RunPipe(s.subs[i].pipe, Projection(s, steps, i))
    decreases |steps|
  {
    if steps != [] {
      StreamingStays(s, steps[0], i);
      StepIsPipeRun(s, steps[0], i);
      var t := Apply(s, steps[0]);
      RunIsPipeRun(t, steps[1..], i);
      PipeRunConcat(s.subs[i].pipe, PipePart(s, steps[0], i), Projection(t, steps[1..], i));
    }
  }

  // Shutdown

  /** By the end of the round every stage that could notice its closed receiver at the start has stopped. */
  ghost predicate FairTo(s: State, round: seq<Step>, i: nat)
    requires IsStreaming(s, i)
  {
    && Legal(s, round) && IsStreaming(Run(s, round), i)
    && forall j: nat | CanStep(s.subs[i].pipe, SeeClosed(j)) && j < |Run(s, round).subs[i].pipe.running| ::
         !Run(s, round).subs[i].pipe.running[j]
  }

  ghost predicate AllFairTo(s: State, rounds: seq<seq<Step>>, i: nat)
    requires IsStreaming(s, i)
    decreases |rounds|
  {
    rounds != [] ==> FairTo(s, rounds[0], i) && AllFairTo(Run(s, rounds[0]), rounds[1..], i)
  }

  ghost function RunAll(s: State, rounds: seq<seq<Step>>, i: nat): State
    requires IsStreaming(s, i) && AllFairTo(s, rounds, i)
    decreases |rounds|
  {
    if rounds == [] then s else RunAll(Run(s, rounds[0]), rounds[1..], i)
  }

  lemma {:induction false} ClosedPipelineDetaches(s: State, rounds: seq<seq<Step>>, i: nat)
    requires Reachable(s) && IsStreaming(s, i) && !Open(s.subs[i].pipe)
    requires AllFairTo(s, rounds, i) && |rounds| >= Live(s.subs[i].pipe.running)
    ensures var t := RunAll(s, rounds, i);
            Reachable(t) && IsStreaming(t, i) && forall j | 0 <= j < |t.subs[i].pipe.running| :: !t.subs[i].pipe.running[j]
    decreases |rounds|
  {
    ReachableInv(s);
    if rounds == [] {
      NoneLive(s.subs[i].pipe.running);
    } else {
      RunIsPipeRun(s, rounds[0], i);
      FairRoundStopsOne(s.subs[i].pipe, Projection(s, rounds[0], i));
      ReachableRun(s, rounds[0]);
      ClosedPipelineDetaches(Run(s, rounds[0]), rounds[1..], i);
    }
  }

  ghost predicate OnlyReceiver(s: State, i: nat)
    requires i < |s.subs|
  {
    forall j | 0 <= j < |s.subs| && j != i && Attached(s.subs[j]) :: s.subs[j].user != s.subs[i].user
  }

  /**
   * After the connection of a user's only subscription has closed, as many fair rounds as it has
   * running stages drop its broadcast receiver, and the next cleanup removes the user's channel.
   */
  lemma ClosedSubscriptionIsReleased(s: State, rounds: seq<seq<Step>>, i: nat)
    requires Reachable(s) && IsStreaming(s, i) && !Open(s.subs[i].pipe)
    requires AllFairTo(s, rounds, i) && |rounds| >= Live(s.subs[i].pipe.running)
    ensures var t := RunAll(s, rounds, i);
            && i < |t.subs| && !Attached(t.subs[i])
            && (Enabled(t, Cleanup) && OnlyReceiver(t, i) ==> t.subs[i].user !in Apply(t, Cleanup).routes)
  {
    ClosedPipelineDetaches(s, rounds, i);
    var t := RunAll(s, rounds, i);
    if Enabled(t, Cleanup) {
      CleanupIsExact(t, t.subs[i].user);
    }
  }

  // Draining

  /** How many queues the items from queue k on still have to pass. */
  function Load<T>(queues: seq<seq<T>>, k: nat): nat
    requires k <= |queues|
    decreases |queues| - k
  {
    if k == |queues| then 0 else |queues[k]| * (|queues| - k) + Load(queues, k + 1)
  }

  lemma {:induction false} LoadSame<T>(a: seq<seq<T>>, b: seq<seq<T>>, k: nat)
    requires k <= |a| == |b| && forall i | k <= i < |a| :: a[i] == b[i]
    ensures Load(a, k) == Load(b, k)
    decreases |a| - k
  {
    if k < |a| {
      LoadSame(a, b, k + 1);
    }
  }

  /** Changing two adjacent queues changes the load by their weights. */
  lemma {:induction false} LoadShift<T>(a: seq<seq<T>>, b: seq<seq<T>>, k: nat, j: nat)
    requires k <= j < |a| == |b| && forall i | k <= i < |a| && i != j && i != j + 1 :: a[i] == b[i]
    requires |b[j]| == |a[j]| - 1 && (j + 1 < |a| ==> |b[j + 1]| == |a[j + 1]| + 1)
    ensures Load(b, k) == Load(a, k) - 1
    decreases j - k
  {
    var n := |a|;
    if k < j {
      LoadShift(a, b, k + 1, j);
    } else if j + 1 < n {
      LoadSame(a, b, j + 2);
      Weight(|b[j]|, |a[j]|, n - j);
      Weight(|a[j + 1]|, |b[j + 1]|, n - j - 1);
    } else {
      Weight(|b[j]|, |a[j]|, 1);
    }
  }

  lemma Weight(small: nat, large: nat, w: nat)
    requires large == small + 1
    ensures large * w == small * w + w
  {
  }

  function Work(s: State, i: nat): nat
    requires i < |s.subs| && SubShaped(s, s.subs[i])
  {
    Behind(s, s.subs[i]) * (|s.subs[i].pipe.queues| + 1) + Load(s.subs[i].pipe.queues, 0)
  }

  ghost predicate Lively(s: State, i: nat) {
    && IsStreaming(s, i) && Attached(s.subs[i]) && Open(s.subs[i].pipe)
    && Behind(s, s.subs[i]) <= s.capacity
  }

  lemma {:induction false} AllRunning<T(!new)>(p: Pipeline<T>, k: nat)
    requires Valid(p) && Flowing(p) && Open(p) && p.running[0] && k < |p.running|
    ensures p.running[k]
  {
    if k > 0 {
      AllRunning(p, k - 1);
    }
  }

  /** A non-empty queue can hand its first item on. */
  lemma PumpLightens(s: State, i: nat, j: nat, pipeStep: PipeStep<Message>)
    requires Inv(s) && Lively(s, i)
    requires var p := s.subs[i].pipe;
             && j < |p.queues| && p.queues[j] != []
             && pipeStep == (if j == |p.queues| - 1 then Take else Forward(j + 1))
             && forall k | 0 <= k < |p.running| :: p.running[k]
    ensures Enabled(s, Pump(i, pipeStep))
    ensures var t := Apply(s, Pump(i, pipeStep));
            && IsStreaming(t, i) && Lively(t, i) && Work(t, i) < Work(s, i)
  {
    var t := Apply(s, Pump(i, pipeStep));
    assert t.subs[i] == s.subs[i].(pipe := StepPipe(s.subs[i].pipe, pipeStep));
    var a, b := s.subs[i].pipe.queues, t.subs[i].pipe.queues;
    assert t.subs[i].pipe.running == s.subs[i].pipe.running;
    assert Valid(t.subs[i].pipe);
    LoadShift(a, b, 0, j);
  }

  /** A step of the subscription's own tasks. */
  predicate OwnStep(step: Step, i: nat) {
    step == Receive(i) || (step.Pump? && step.sub == i)
  }

  ghost predicate OwnSteps(steps: seq<Step>, i: nat) {
    forall k | 0 <= k < |steps| :: OwnStep(steps[k], i)
  }

  /** The step that brings one item one queue further. */
  lemma NextStep(s: State, i: nat) returns (step: Step)
    requires Inv(s) && Lively(s, i) && !Drained(s, i)
    ensures Enabled(s, step) && Lively(Apply(s, step), i) && Work(Apply(s, step), i) < Work(s, i)
    ensures OwnStep(step, i)
    ensures Apply(s, step).log == s.log && Apply(s, step).sends == s.sends && Apply(s, step).channels == s.channels
  {
    var sub := s.subs[i];
    var q := sub.pipe.queues;
    assert SubInv(s, sub);
    forall k: nat | k < |sub.pipe.running|
      ensures sub.pipe.running[k]
    {
      AllRunning(sub.pipe, k);
    }
    if j: nat :| j < |q| && q[j] != [] {
      step := Pump(i, if j == |q| - 1 then Take else Forward(j + 1));
      PumpLightens(s, i, j, step.pipeStep);
    } else {
      step := Receive(i);
      ReceiveLightens(s, i);
    }
  }

  lemma ReceiveLightens(s: State, i: nat)
    requires Inv(s) && Lively(s, i) && Behind(s, s.subs[i]) > 0
    requires s.subs[i].pipe.running[1] && forall j | 0 <= j < |s.subs[i].pipe.queues| :: s.subs[i].pipe.queues[j] == []
    ensures var t := Apply(s, Receive(i)); Lively(t, i) && Work(t, i) < Work(s, i)
  {
    var t := Apply(s, Receive(i));
    var a, b := s.subs[i].pipe.queues, t.subs[i].pipe.queues;
    ReceiveFills(s, i);
    LoadSame(a, b, 1);
    assert |b[0]| * |a| <= |a|;
    Weight(Behind(t, t.subs[i]), Behind(s, s.subs[i]), |a| + 1);
  }

  lemma ReceiveFills(s: State, i: nat)
    requires Inv(s) && Lively(s, i) && Behind(s, s.subs[i]) > 0
    requires s.subs[i].pipe.running[1] && forall j | 0 <= j < |s.subs[i].pipe.queues| :: s.subs[i].pipe.queues[j] == []
    ensures var t := Apply(s, Receive(i));
            var a, b := s.subs[i].pipe.queues, t.subs[i].pipe.queues;
            && Lively(t, i) && Behind(t, t.subs[i]) + 1 == Behind(s, s.subs[i])
            && |b| == |a| && |b[0]| <= 1 && forall j | 1 <= j < |a| :: b[j] == a[j]
  {
  }

  lemma {:induction false} DrainFrom(s: State, i: nat) returns (steps: seq<Step>)
    requires Inv(s) && Lively(s, i)
    ensures Legal(s, steps) && OwnSteps(steps, i)
    ensures var t := Run(s, steps); Drained(t, i) && t.log == s.log && t.sends == s.sends && t.channels == s.channels
    decreases Work(s, i)
  {
    if Drained(s, i) {
      steps := [];
    } else {
      var step := NextStep(s, i);
      StepInv(s, step);
      var rest := DrainFrom(Apply(s, step), i);
      RunOne(s, step);
      RunConcat(s, [step], rest);
      steps := [step] + rest;
    }
  }

  /**
   * A subscription that is read and not lagging can always drain: steps of its own, without help
   * from the rest of the system, lead to a state in which everything due has been delivered.
   */
  lemma CanDrain(s: State, i: nat) returns (steps: seq<Step>)
    requires Reachable(s) && Lively(s, i)
    ensures Legal(s, steps) && OwnSteps(steps, i)
    ensures var t := Run(s, steps);
            && Drained(t, i) && t.log == s.log && t.sends == s.sends && t.channels == s.channels
            && t.subs[i].pipe.delivered == Due(t, t.subs[i])
  {
    ReachableInv(s);
    steps := DrainFrom(s, i);
    var t := Run(s, steps);
    RunKeepsInv(s, steps);
    assert SubInv(t, t.subs[i]);
    StreamIsPrefixOfDue(t, t.subs[i]);
    BacklogEmpty(t.subs[i].pipe.queues, 0);
  }
}
