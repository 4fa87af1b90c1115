/** The forwarding loop of one stage, and its place in a pipeline. */
module Stages {
  import opened Wrappers
  import opened Text
  import opened Messages
  import opened Pipelines
  import opened DeliveryInvariants

  /** What one round of the loop wakes up to. */
  datatype Poll<T> =
    | ReceiverClosed             // the receiver of the outgoing queue is gone
    | SenderGone                 // nothing more will come, or messages were missed
    | Got(item: T, refused: bool) // an item; `refused` when sending it on finds the receiver gone

  /** What the stage sends on before it stops. */
  function Handed<I, O>(polls: seq<Poll<I>>, f: I -> Option<O>): seq<O> {
    if polls == [] || !polls[0].Got? then []
    else
      match f(polls[0].item)
      case None => Handed(polls[1..], f)
      case Some(y) => if polls[0].refused then [] else [y] + Handed(polls[1..], f)
  }

  predicate Survives<I, O>(polls: seq<Poll<I>>, f: I -> Option<O>) {
    polls == []
    || (&& polls[0].Got?
        && (f(polls[0].item).Some? ==> !polls[0].refused)
        && Survives(polls[1..], f))
  }

  /**
   * Receives items, passes them through `f` and sends on what it keeps, until its receiver is
   * closed or its own source ends. The loops over a broadcast channel and over a queue differ only
   * in the kind of source, and redirecting a queue is the case in which `f` keeps everything.
   */
  method RunStage<I, O>(polls: seq<Poll<I>>, f: I -> Option<O>) returns (out: seq<O>, running: bool)
    ensures out == Handed(polls, f) && running == Survives(polls, f)
  {
    out, running := [], true;
    var i := 0;
    assert polls[0..] == polls;
    while running && i < |polls|
      invariant i <= |polls|
      invariant Handed(polls, f) == out + (if running then Handed(polls[i..], f) else [])
      invariant Survives(polls, f) == (running && Survives(polls[i..], f))
      decreases |polls| - i, running
    {
      assert polls[i..][1..] == polls[i + 1..];
      match polls[i]
      case ReceiverClosed =>
        running := false;
      case SenderGone =>
        running := false;
      case Got(item, refused) =>
        match f(item) {
          case None =>
          case Some(y) =>
            if refused {
              running := false;
            } else {
              Associate(out, [y], Handed(polls[i + 1..], f));
              out := out + [y];
            }
        }
        i := i + 1;
    }
  }

  // The loop inside a pipeline

  /** One round of stage j's loop, or a step of another stage in between. */
  datatype Round<T> = Ours(poll: Poll<T>) | Others(step: PipeStep<T>)

  function Polls<T>(rounds: seq<Round<T>>): seq<Poll<T>> {
    if rounds == [] then []
    else (match rounds[0] case Ours(poll) => [poll] case Others(_) => []) + Polls(rounds[1..])
  }

  predicate StepOf<T>(j: nat, step: PipeStep<T>) {
    match step
    case Accept(_) => j == 0
    case SourceEnds => j == 0
    case Forward(k) => k == j
    case SeeClosed(k) => k == j
    case SeeEnd(k) => k == j
    case Take => false
    case Disconnect => false
  }

  /** What stage j can wake up to: its own queue's state, or for stage 0 whatever its source brings. */
  ghost predicate Wakes<T(!new)>(p: Pipeline<T>, j: nat, poll: Poll<T>)
    requires Valid(p) && j < |p.queues|
  {
    && p.running[j]
    && match poll
       case ReceiverClosed => !p.running[j + 1]
       case SenderGone => j > 0 ==> !p.running[j - 1] && p.queues[j - 1] == []
       case Got(item, refused) =>
         && refused == !p.running[j + 1]
         && (j > 0 ==> p.queues[j - 1] != [] && item == p.queues[j - 1][0])
  }

  /** Stage 0 filters what it receives; the other stages forward everything. */
  ghost predicate FilterOf<T(!new)>(j: nat, f: T -> Option<T>) {
    j > 0 ==> forall x :: f(x) == Some(x)
  }

  function StepsOfPoll<T>(j: nat, poll: Poll<T>, f: T -> Option<T>): seq<PipeStep<T>> {
    match poll
    case ReceiverClosed => [SeeClosed(j)]
    case SenderGone => [if j == 0 then SourceEnds else SeeEnd(j)]
    case Got(item, _) =>
      if j > 0 then [Forward(j)] else match f(item) case None => [] case Some(y) => [Accept(y)]
  }

  function StepsOfRound<T>(j: nat, round: Round<T>, f: T -> Option<T>): seq<PipeStep<T>> {
    match round case Ours(poll) => StepsOfPoll(j, poll, f) case Others(step) => [step]
  }

  function StepsOf<T>(j: nat, rounds: seq<Round<T>>, f: T -> Option<T>): seq<PipeStep<T>> {
    if rounds == [] then [] else StepsOfRound(j, rounds[0], f) + StepsOf(j, rounds[1..], f)
  }

  ghost predicate Possible<T(!new)>(p: Pipeline<T>, j: nat, round: Round<T>) {
    && Valid(p) && j < |p.queues|
    && match round
       case Ours(poll) => Wakes(p, j, poll)
       case Others(step) => CanStep(p, step) && !StepOf(j, step)
  }

  ghost function AfterRound<T(!new)>(p: Pipeline<T>, j: nat, round: Round<T>, f: T -> Option<T>): Pipeline<T>
    requires Possible(p, j, round)
  {
    var steps := StepsOfRound(j, round, f);
    if steps == [] then p else StepPipe(p, steps[0])
  }

  /** Every round is possible when it comes. */
  ghost predicate Plays<T(!new)>(p: Pipeline<T>, j: nat, rounds: seq<Round<T>>, f: T -> Option<T>)
    decreases |rounds|
  {
    rounds != [] ==> Possible(p, j, rounds[0]) && Plays(AfterRound(p, j, rounds[0], f), j, rounds[1..], f)
  }

  /** What a step makes stage j hand on to an open queue. */
  ghost function HandedAt<T(!new)>(p: Pipeline<T>, step: PipeStep<T>, j: nat): seq<T>
    requires CanStep(p, step) && j < |p.queues|
  {
    if !StepOf(j, step) || !p.running[j + 1] then []
    else
      match step
      case Accept(y) => [y]
      case Forward(_) => [p.queues[j - 1][0]]
      case _ => []
  }

  ghost function HandedBy<T(!new)>(p: Pipeline<T>, steps: seq<PipeStep<T>>, j: nat): seq<T>
    requires LegalPipe(p, steps) && (steps != [] ==> j < |p.queues|)
    decreases |steps|
  {
    if steps == [] then []
    else
      StepOnlyStops(p, steps[0], 0);
      HandedAt(p, steps[0], j) + HandedBy(StepPipe(p, steps[0]), steps[1..], j)
  }

  /** A step of another stage neither stops stage j nor makes it hand anything on. */
  lemma OthersLeaveStage<T(!new)>(p: Pipeline<T>, step: PipeStep<T>, j: nat)
    requires CanStep(p, step) && !StepOf(j, step) && j < |p.queues|
    ensures var q := StepPipe(p, step); Valid(q) && |q.queues| == |p.queues| && q.running[j] == p.running[j]
    ensures HandedAt(p, step, j) == []
  {
  }

  /** One round of the loop hands on what one poll amounts to, and goes on exactly if the poll lets it. */
  lemma PollIsStep<T(!new)>(p: Pipeline<T>, j: nat, poll: Poll<T>, f: T -> Option<T>)
    requires Possible(p, j, Ours(poll)) && FilterOf(j, f)
    ensures var q := AfterRound(p, j, Ours(poll), f);
            Valid(q) && |q.queues| == |p.queues| && q.running[j] == Survives([poll], f)
    ensures var steps := StepsOfPoll(j, poll, f);
            LegalPipe(p, steps) && RunPipe(p, steps) == AfterRound(p, j, Ours(poll), f)
            && HandedBy(p, steps, j) == Handed([poll], f)
  {
  }

  lemma {:induction false} HandedByConcat<T(!new)>(p: Pipeline<T>, a: seq<PipeStep<T>>, b: seq<PipeStep<T>>, j: nat)
    requires Valid(p) && j < |p.queues| && LegalPipe(p, a) && LegalPipe(RunPipe(p, a), b)
    ensures |RunPipe(p, a).queues| == |p.queues|
    ensures LegalPipe(p, a + b) && RunPipe(p, a + b) == RunPipe(RunPipe(p, a), b)
    ensures HandedBy(p, a + b, j) == HandedBy(p, a, j) + HandedBy(RunPipe(p, a), b, j)
    decreases |a|
  {
    if a == [] {
      assert a + b == b;
    } else {
      assert (a + b)[0] == a[0] && (a + b)[1..] == a[1..] + b;
      StepOnlyStops(p, a[0], 0);
      var next := StepPipe(p, a[0]);
      HandedByConcat(next, a[1..], b, j);
      Associate(HandedAt(p, a[0], j), HandedBy(next, a[1..], j), HandedBy(RunPipe(next, a[1..]), b, j));
    }
  }

  lemma PollsStep<T>(poll: Poll<T>, rest: seq<Poll<T>>, f: T -> Option<T>)
    ensures Survives([poll] + rest, f) == (Survives([poll], f) && Survives(rest, f))
    ensures Handed([poll] + rest, f) == Handed([poll], f) + (if Survives([poll], f) then Handed(rest, f) else [])
  {
  }

  /** A stage that has stopped has no more rounds and hands nothing on. */
  lemma {:induction false} StoppedStays<T(!new)>(p: Pipeline<T>, j: nat, rounds: seq<Round<T>>, f: T -> Option<T>)
    requires Valid(p) && j < |p.queues| && !p.running[j] && Plays(p, j, rounds, f)
    ensures Polls(rounds) == [] && LegalPipe(p, StepsOf(j, rounds, f))
    ensures var q := RunPipe(p, StepsOf(j, rounds, f)); |q.queues| == |p.queues| && |q.running| > j && !q.running[j]
    ensures HandedBy(p, StepsOf(j, rounds, f), j) == []
    decreases |rounds|
  {
    if rounds != [] {
      var step := rounds[0].step;
      OthersLeaveStage(p, step, j);
      StoppedStays(StepPipe(p, step), j, rounds[1..], f);
      assert StepsOf(j, rounds, f)[1..] == StepsOf(j, rounds[1..], f);
    }
  }

  /**
   * The loop of any stage, whatever the other stages do between its rounds, is a run of that stage in
   * the pipeline: it hands on what its polls amount to, and runs on exactly if they let it.
   */
  lemma {:induction false} StageIsPipeRun<T(!new)>(p: Pipeline<T>, j: nat, rounds: seq<Round<T>>, f: T -> Option<T>)
    requires Valid(p) && j < |p.queues| && p.running[j] && FilterOf(j, f) && Plays(p, j, rounds, f)
    ensures LegalPipe(p, StepsOf(j, rounds, f))
    ensures var q := RunPipe(p, StepsOf(j, rounds, f));
            |q.queues| == |p.queues| && |q.running| > j && q.running[j] == Survives(Polls(rounds), f)
    ensures HandedBy(p, StepsOf(j, rounds, f), j) == Handed(Polls(rounds), f)
    decreases |rounds|
  {
    if rounds != [] {
      var rest, more := rounds[1..], StepsOf(j, rounds[1..], f);
      match rounds[0] {
        case Others(step) =>
          OthersLeaveStage(p, step, j);
          StageIsPipeRun(StepPipe(p, step), j, rest, f);
          assert StepsOf(j, rounds, f)[1..] == more && Polls(rounds) == Polls(rest);
        case Ours(poll) =>
          PollIsStep(p, j, poll, f);
          PollsStep(poll, Polls(rest), f);
          var q := AfterRound(p, j, Ours(poll), f);
          if q.running[j] {
            StageIsPipeRun(q, j, rest, f);
          } else {
            StoppedStays(q, j, rest, f);
          }
          HandedByConcat(p, StepsOfPoll(j, poll, f), more, j);
      }
    }
  }

  function Arriving(sent: seq<Message>): seq<Poll<Message>> {
    if sent == [] then [] else [Got(sent[0], false)] + Arriving(sent[1..])
  }

  function KeepUnsent(known: set<MessageId>): Message -> Option<Message> {
    (m: Message) => if m.id in known then None else Some(m)
  }

  lemma {:induction false} UnsentFront(sent: seq<Message>, known: set<MessageId>)
    requires sent != []
    ensures Unsent(sent, known) == (if sent[0].id in known then [] else [sent[0]]) + Unsent(sent[1..], known)
  {
    if |sent| == 1 {
      assert sent[..0] == [] && sent[1..] == [];
    } else {
      var front, last := sent[..|sent| - 1], sent[|sent| - 1];
      UnsentFront(front, known);
      assert sent[1..][..|sent| - 2] == front[1..] && sent[1..][|sent| - 2] == last && front[0] == sent[0];
      Associate(if sent[0].id in known then [] else [sent[0]], Unsent(front[1..], known),
                if last.id in known then [] else [last]);
    }
  }

  /** With the filter over the history's ids, the broadcast loop hands over what the history did not hold. */
  lemma {:induction false} BroadcastLoopFilters(sent: seq<Message>, known: set<MessageId>)
    ensures Handed(Arriving(sent), KeepUnsent(known)) == Unsent(sent, known)
    ensures Survives(Arriving(sent), KeepUnsent(known))
  {
    if sent != [] {
      BroadcastLoopFilters(sent[1..], known);
      UnsentFront(sent, known);
      assert Arriving(sent)[1..] == Arriving(sent[1..]);
    }
  }
}
