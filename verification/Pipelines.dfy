/**
 * A chain of forwarding tasks joined by unbounded FIFO queues.
 *
 * Stage 0 is the loop that reads the broadcast channel, the stages in between forward from one
 * queue to the next, and the last one is the connection that writes events to the client.
 * Queue j is written by stage j and read by stage j + 1, so its sender is alive exactly when
 * stage j runs and its receiver is open exactly when stage j + 1 runs.
 */
module Pipelines {
  datatype Pipeline<T> = Pipeline(queues: seq<seq<T>>, running: seq<bool>, delivered: seq<T>)

  datatype PipeStep<T> =
    | Accept(item: T)        // stage 0 sends an item it received
    | SourceEnds             // stage 0 gets an error from its receiver
    | Forward(stage: nat)    // an inner stage receives an item and sends it on
    | SeeClosed(stage: nat)  // a stage notices that its receiver is closed
    | SeeEnd(stage: nat)     // a stage finds its queue empty and its sender gone
    | Take                   // the connection receives an item
    | Disconnect             // the connection stops reading, closes and drains

  /** Every queue whose receiver is gone is empty. */
  ghost predicate Valid<T(!new)>(p: Pipeline<T>) {
    && |p.queues| >= 1
    && |p.running| == |p.queues| + 1
    && forall j | 0 <= j < |p.queues| && !p.running[j + 1] :: p.queues[j] == []
  }

  predicate Open<T>(p: Pipeline<T>)
    requires |p.running| == |p.queues| + 1
  {
    p.running[|p.queues|]
  }

  /** While the connection reads, stages have only stopped from the source downwards. */
  ghost predicate Flowing<T(!new)>(p: Pipeline<T>)
    requires Valid(p)
  {
    Open(p) ==> forall j | 0 <= j < |p.queues| && p.running[j] :: p.running[j + 1]
  }

  ghost predicate CanStep<T(!new)>(p: Pipeline<T>, step: PipeStep<T>) {
    && Valid(p)
    && var n := |p.queues|;
       match step
       case Accept(_) => p.running[0]
       case SourceEnds => p.running[0]
       case Forward(j) => 1 <= j < n && p.running[j] && p.queues[j - 1] != []
       case SeeClosed(j) => j < n && p.running[j] && !p.running[j + 1]
       case SeeEnd(j) => 1 <= j <= n && p.running[j] && !p.running[j - 1] && p.queues[j - 1] == []
       case Take => p.running[n] && p.queues[n - 1] != []
       case Disconnect => p.running[n]
  }

  /** A stopping stage drops the receiver of the queue before it, with what is in that queue. */
  ghost function Stop<T(!new)>(p: Pipeline<T>, j: nat): Pipeline<T>
    requires Valid(p) && j <= |p.queues|
  {
    p.(running := p.running[j := false], queues := if j == 0 then p.queues else p.queues[j - 1 := []])
  }

  /** Stage j hands an item to queue j; it stops when that queue's receiver is gone. */
  ghost function Hand<T(!new)>(p: Pipeline<T>, j: nat, item: T): Pipeline<T>
    requires Valid(p) && j < |p.queues|
  {
    if p.running[j + 1] then p.(queues := p.queues[j := p.queues[j] + [item]]) else Stop(p, j)
  }

  ghost function StepPipe<T(!new)>(p: Pipeline<T>, step: PipeStep<T>): Pipeline<T>
    requires CanStep(p, step)
  {
    var n := |p.queues|;
    match step
    case Accept(item) => Hand(p, 0, item)
    case SourceEnds => Stop(p, 0)
    case Forward(j) =>
      Hand(p.(queues := p.queues[j - 1 := p.queues[j - 1][1..]]), j, p.queues[j - 1][0])
    case SeeClosed(j) => Stop(p, j)
    case SeeEnd(j) => Stop(p, j)
    case Take =>
      p.(queues := p.queues[n - 1 := p.queues[n - 1][1..]], delivered := p.delivered + [p.queues[n - 1][0]])
    case Disconnect => Stop(p, n)
  }

  /** What sits in the queues from queue k on, the oldest first. */
  function Backlog<T>(queues: seq<seq<T>>, k: nat): seq<T>
    requires k <= |queues|
    decreases |queues| - k
  {
    if k == |queues| then [] else Backlog(queues, k + 1) + queues[k]
  }

  function InFlight<T>(p: Pipeline<T>): seq<T> {
    p.delivered + Backlog(p.queues, 0)
  }

  lemma {:induction false} BacklogSame<T>(a: seq<seq<T>>, b: seq<seq<T>>, k: nat)
    requires k <= |a| == |b| && forall i | k <= i < |a| :: a[i] == b[i]
    ensures Backlog(a, k) == Backlog(b, k)
    decreases |a| - k
  {
    if k < |a| {
      BacklogSame(a, b, k + 1);
    }
  }

  lemma {:induction false} BacklogEmpty<T>(queues: seq<seq<T>>, k: nat)
    requires k <= |queues| && forall j | k <= j < |queues| :: queues[j] == []
    ensures Backlog(queues, k) == []
    decreases |queues| - k
  {
    if k < |queues| {
      BacklogEmpty(queues, k + 1);
    }
  }

  lemma BacklogPush<T>(queues: seq<seq<T>>, item: T)
    requires |queues| > 0
    ensures Backlog(queues[0 := queues[0] + [item]], 0) == Backlog(queues, 0) + [item]
  {
    BacklogSame(queues[0 := queues[0] + [item]], queues, 1);
  }

  lemma {:induction false} BacklogPop<T>(queues: seq<seq<T>>, k: nat)
    requires k < |queues| && queues[|queues| - 1] != []
    ensures var n := |queues|;
            Backlog(queues, k) == [queues[n - 1][0]] + Backlog(queues[n - 1 := queues[n - 1][1..]], k)
    decreases |queues| - k
  {
    var n := |queues|;
    var head, after := [queues[n - 1][0]], queues[n - 1 := queues[n - 1][1..]];
    if k == n - 1 {
      assert queues[k] == head + after[k];
      assert Backlog(queues, n) == [] && Backlog(after, n) == [];
    } else {
      BacklogPop(queues, k + 1);
      var rest := Backlog(after, k + 1);
      assert after[k] == queues[k];
      assert (head + rest) + queues[k] == head + (rest + queues[k]);
    }
  }

  /** Moving the head of one queue to the tail of the next keeps the backlog. */
  lemma {:induction false} BacklogMove<T>(queues: seq<seq<T>>, j: nat, k: nat)
    requires k < j < |queues| && queues[j - 1] != []
    ensures Backlog(queues[j - 1 := queues[j - 1][1..]][j := queues[j] + [queues[j - 1][0]]], k) == Backlog(queues, k)
    decreases j - k
  {
    var after := queues[j - 1 := queues[j - 1][1..]][j := queues[j] + [queues[j - 1][0]]];
    if k == j - 1 {
      BacklogSame(queues, after, j + 1);
      var rest, h, t := Backlog(queues, j + 1), [queues[k][0]], queues[k][1..];
      assert queues[k] == h + t;
      assert Backlog(after, j) == rest + (queues[j] + h);
      assert Backlog(queues, j) == rest + queues[j];
      assert rest + (queues[j] + h) + t == rest + queues[j] + (h + t);
    } else {
      BacklogMove(queues, j, k + 1);
    }
  }

  ghost function AcceptedBy<T(!new)>(step: PipeStep<T>): seq<T> {
    if step.Accept? then [step.item] else []
  }

  /** One step neither loses, duplicates nor reorders anything as long as the connection reads. */
  lemma StepStaysValid<T(!new)>(p: Pipeline<T>, step: PipeStep<T>)
    requires CanStep(p, step) && Flowing(p)
    ensures var q := StepPipe(p, step);
            Valid(q) && Flowing(q) && |q.queues| == |p.queues| && p.delivered <= q.delivered && (Open(q) ==> Open(p))
  {
  }

  lemma StepConserves<T(!new)>(p: Pipeline<T>, step: PipeStep<T>)
    requires CanStep(p, step) && Flowing(p)
    ensures var q := StepPipe(p, step);
            && Valid(q) && Flowing(q) && |q.queues| == |p.queues|
            && p.delivered <= q.delivered
            && (Open(q) ==> Open(p) && InFlight(q) == InFlight(p) + AcceptedBy(step))
            && (Open(p) ==> q.delivered <= InFlight(p))
            && (!Open(p) ==> q.delivered == p.delivered)
  {
    var q := StepPipe(p, step);
    StepStaysValid(p, step);
    match step
    case Accept(item) =>
      BacklogPush(p.queues, item);
    case Forward(j) =>
      if p.running[j + 1] {
        BacklogMove(p.queues, j, 0);
      }
    case Take =>
      BacklogPop(p.queues, 0);
    case SeeEnd(j) =>
      assert j <= |p.queues|;
      if j < |p.queues| {
        assert p.queues[j - 1 := []] == p.queues;
      }
    case _ =>
  }

  // Whole runs

  ghost predicate LegalPipe<T(!new)>(p: Pipeline<T>, steps: seq<PipeStep<T>>)
    decreases |steps|
  {
    steps != [] ==> CanStep(p, steps[0]) && LegalPipe(StepPipe(p, steps[0]), steps[1..])
  }

  ghost function RunPipe<T(!new)>(p: Pipeline<T>, steps: seq<PipeStep<T>>): Pipeline<T>
    requires LegalPipe(p, steps)
    decreases |steps|
  {
    if steps == [] then p else RunPipe(StepPipe(p, steps[0]), steps[1..])
  }

  ghost function Accepted<T(!new)>(steps: seq<PipeStep<T>>): seq<T> {
    if steps == [] then [] else AcceptedBy(steps[0]) + Accepted(steps[1..])
  }

  /**
   * Over a whole run the connection obtains, in order and once each, a prefix of what was in flight
   * followed by what stage 0 accepted; while it reads, the rest still sits in the queues.
   */
  lemma {:induction false} RunConserves<T(!new)>(p: Pipeline<T>, steps: seq<PipeStep<T>>)
    requires Valid(p) && Flowing(p) && LegalPipe(p, steps)
    ensures var q := RunPipe(p, steps);
            && Valid(q) && Flowing(q)
            && p.delivered <= q.delivered
            && (Open(q) ==> Open(p) && InFlight(q) == InFlight(p) + Accepted(steps))
            && (Open(p) ==> q.delivered <= InFlight(p) + Accepted(steps))
            && (!Open(p) ==> q.delivered == p.delivered)
    decreases |steps|
  {
    if steps != [] {
      var mid := StepPipe(p, steps[0]);
      StepConserves(p, steps[0]);
      RunConserves(mid, steps[1..]);
      var a, b := AcceptedBy(steps[0]), Accepted(steps[1..]);
      assert InFlight(p) + (a + b) == InFlight(p) + a + b;
      assert InFlight(p) <= InFlight(p) + Accepted(steps);
    }
  }

  /** When the connection sees the end of its stream, everything accepted upstream has reached it. */
  lemma EndSeenAfterEverything<T(!new)>(p: Pipeline<T>)
    requires Valid(p) && Flowing(p) && CanStep(p, SeeEnd(|p.queues|))
    ensures p.delivered == InFlight(p)
    ensures forall j | 0 <= j < |p.queues| :: !p.running[j]
  {
    var n := |p.queues|;
    NothingRunsBelow(p, n - 1);
    forall j | 0 <= j < n
      ensures p.queues[j] == []
    {
      if j < n - 1 {
        assert !p.running[j + 1];
      }
    }
    BacklogEmpty(p.queues, 0);
  }

  lemma {:induction false} NothingRunsBelow<T(!new)>(p: Pipeline<T>, k: nat)
    requires Valid(p) && Flowing(p) && Open(p) && k < |p.queues| && !p.running[k]
    ensures forall j | 0 <= j <= k :: !p.running[j]
  {
    if k > 0 {
      assert !p.running[k - 1];
      NothingRunsBelow(p, k - 1);
    }
  }

  // Shutdown

  /** The number of stages that still run. */
  function Live(running: seq<bool>): nat {
    if running == [] then 0 else (if running[0] then 1 else 0) + Live(running[1..])
  }

  ghost predicate Stays(running: seq<bool>, later: seq<bool>) {
    |running| == |later| && forall j | 0 <= j < |later| && later[j] :: running[j]
  }

  lemma {:induction false} LiveShrinks(running: seq<bool>, later: seq<bool>)
    requires Stays(running, later)
    ensures Live(later) <= Live(running)
    ensures running != later ==> Live(later) < Live(running)
  {
    if running != [] {
      assert Stays(running[1..], later[1..]);
      LiveShrinks(running[1..], later[1..]);
      assert running == [running[0]] + running[1..] && later == [later[0]] + later[1..];
    }
  }

  lemma {:induction false} NoneLive(running: seq<bool>)
    ensures Live(running) == 0 <==> forall j | 0 <= j < |running| :: !running[j]
  {
    if running != [] {
      NoneLive(running[1..]);
      assert forall j | 0 < j < |running| :: running[j] == running[1..][j - 1];
    }
  }

  /** No step ever restarts a stage, and a stage whose receiver is closed stays able to notice it. */
  lemma StepOnlyStops<T(!new)>(p: Pipeline<T>, step: PipeStep<T>, j: nat)
    requires CanStep(p, step)
    ensures var q := StepPipe(p, step);
            && Valid(q) && |q.queues| == |p.queues| && Stays(p.running, q.running)
            && (CanStep(p, SeeClosed(j)) ==> CanStep(q, SeeClosed(j)) || !q.running[j])
  {
  }

  lemma {:induction false} RunOnlyStops<T(!new)>(p: Pipeline<T>, steps: seq<PipeStep<T>>)
    requires Valid(p) && LegalPipe(p, steps)
    ensures var q := RunPipe(p, steps); Valid(q) && |q.queues| == |p.queues| && Stays(p.running, q.running)
    decreases |steps|
  {
    if steps != [] {
      StepOnlyStops(p, steps[0], 0);
      RunOnlyStops(StepPipe(p, steps[0]), steps[1..]);
    }
  }

  /** Once the connection is closed and any stage still runs, the last running stage can stop. */
  lemma {:induction false} LastRunningSeesClosed<T(!new)>(p: Pipeline<T>, j: nat) returns (top: nat)
    requires Valid(p) && !Open(p) && j < |p.queues| && p.running[j]
    ensures CanStep(p, SeeClosed(top))
    decreases |p.queues| - j
  {
    if p.running[j + 1] {
      top := LastRunningSeesClosed(p, j + 1);
    } else {
      top := j;
    }
  }

  /** A round in which every stage that can notice its closed receiver at the start has stopped by the end. */
  ghost predicate FairRound<T(!new)>(p: Pipeline<T>, steps: seq<PipeStep<T>>) {
    && LegalPipe(p, steps)
    && forall j: nat | CanStep(p, SeeClosed(j)) && j < |RunPipe(p, steps).running| :: !RunPipe(p, steps).running[j]
  }

  ghost predicate FairRounds<T(!new)>(p: Pipeline<T>, rounds: seq<seq<PipeStep<T>>>)
    decreases |rounds|
  {
    rounds != [] ==> FairRound(p, rounds[0]) && FairRounds(RunPipe(p, rounds[0]), rounds[1..])
  }

  ghost function RunRounds<T(!new)>(p: Pipeline<T>, rounds: seq<seq<PipeStep<T>>>): Pipeline<T>
    requires FairRounds(p, rounds)
    decreases |rounds|
  {
    if rounds == [] then p else RunRounds(RunPipe(p, rounds[0]), rounds[1..])
  }

  lemma SomeStageCanStop<T(!new)>(p: Pipeline<T>) returns (top: nat)
    requires Valid(p) && !Open(p) && Live(p.running) > 0
    ensures CanStep(p, SeeClosed(top)) && top < |p.running|
  {
    NoneLive(p.running);
    var j :| 0 <= j < |p.running| && p.running[j];
    top := LastRunningSeesClosed(p, j);
  }

  lemma FairRoundStopsOne<T(!new)>(p: Pipeline<T>, steps: seq<PipeStep<T>>)
    requires Valid(p) && !Open(p) && FairRound(p, steps)
    ensures var q := RunPipe(p, steps);
            && Valid(q) && !Open(q) && |q.running| == |p.running|
            && Live(q.running) <= Live(p.running)
            && (Live(p.running) > 0 ==> Live(q.running) < Live(p.running))
  {
    RunOnlyStops(p, steps);
    LiveShrinks(p.running, RunPipe(p, steps).running);
    if Live(p.running) > 0 {
      var top := SomeStageCanStop(p);
      assert !RunPipe(p, steps).running[top];
    }
  }

  /**
   * After the connection closes, every fair round stops at least one more stage whatever else
   * happens in it, so as many rounds as there are running stages stop them all, down to the stage
   * that holds the broadcast receiver.
   */
  lemma {:induction false} ShutdownCompletes<T(!new)>(p: Pipeline<T>, rounds: seq<seq<PipeStep<T>>>)
    requires Valid(p) && !Open(p) && FairRounds(p, rounds) && |rounds| >= Live(p.running)
    ensures var q := RunRounds(p, rounds);
            |q.running| == |p.running| && forall j | 0 <= j < |q.running| :: !q.running[j]
    decreases |rounds|
  {
    if rounds == [] {
      NoneLive(p.running);
    } else {
      FairRoundStopsOne(p, rounds[0]);
      ShutdownCompletes(RunPipe(p, rounds[0]), rounds[1..]);
    }
  }
}
