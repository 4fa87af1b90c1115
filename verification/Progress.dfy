/** Nothing gets stuck: what every reachable state allows to happen next. */
module Progress {
  import opened Wrappers
  import opened Messages
  import opened Histories
  import opened Pipelines
  import opened Delivery
  import opened DeliveryInvariants
  import opened DeliveryTheorems
  import opened DeliveryLiveness
  import opened Resumption
  import opened Reconnect

  // Locks

  function PublishingIds(s: State): set<MessageId> {
    set id | id in s.sends && s.sends[id].phase.Publishing?
  }

  ghost predicate OnlyPublishes(steps: seq<Step>) {
    forall k | 0 <= k < |steps| :: steps[k].PublishToReceiver?
  }

  lemma OneLessPublishes(s: State, id: MessageId)
    requires Shaped(s) && SendIs(s, id, Publishing)
    ensures PublishingIds(Apply(s, PublishToReceiver(id))) == PublishingIds(s) - {id}
  {
  }

  /** Every publish that holds the read lock can finish, without help from anybody else. */
  lemma {:induction false} PublishesFinish(s: State) returns (steps: seq<Step>)
    requires Inv(s)
    ensures Legal(s, steps) && OnlyPublishes(steps)
    ensures NobodyPublishes(Run(s, steps)) && Shaped(Run(s, steps))
    decreases |PublishingIds(s)|
  {
    steps := [];
    if id :| id in PublishingIds(s) {
      var step := PublishToReceiver(id);
      StepInv(s, step);
      OneLessPublishes(s, id);
      var rest := PublishesFinish(Apply(s, step));
      RunOne(s, step);
      RunConcat(s, [step], rest);
      steps := [step] + rest;
    } else {
      forall id | id in s.sends
        ensures !s.sends[id].phase.Publishing?
      {
        assert id !in PublishingIds(s);
      }
    }
  }

  /** The write lock is never out of reach: after the publishes under way, anybody can register, and the cleanup can run. */
  lemma WritersGetIn(s: State, user: UserId, start: Option<MessageId>) returns (steps: seq<Step>)
    requires Reachable(s)
    ensures Legal(s, steps) && OnlyPublishes(steps)
    ensures Enabled(Run(s, steps), Register(user, start)) && Enabled(Run(s, steps), Cleanup)
  {
    ReachableInv(s);
    steps := PublishesFinish(s);
  }

  // Subscriptions

  /** A registered subscription can always start to stream; only one with a starting point can fail instead. */
  lemma RegisteredCanStream(s: State, i: nat) returns (history: seq<Message>)
    requires Reachable(s) && SubIs(s, i, Registered)
    ensures Enabled(s, OpenStream(i, history))
    ensures var t := Apply(s, OpenStream(i, history)); IsStreaming(t, i) && Attached(t.subs[i]) && Open(t.subs[i].pipe)
    ensures Enabled(s, Abandon(i)) <==> s.subs[i].start.Some?
  {
    ReachableInv(s);
    history := SomeAnswer(s.backend, s.log, s.subs[i].user, s.subs[i].start);
    StepInv(s, OpenStream(i, history));
    assert SubInv(Apply(s, OpenStream(i, history)), Apply(s, OpenStream(i, history)).subs[i]);
  }

  // Sends

  /** Every new send can be stored, and can be refused instead; that decides it. */
  lemma NewSendIsDecided(s: State, id: MessageId)
    requires Reachable(s) && SendIs(s, id, Created)
    ensures Enabled(s, Persist(id)) && SendIs(Apply(s, Persist(id)), id, Persisted)
    ensures Apply(s, Persist(id)).log == s.log + [s.sends[id].message]
    ensures Enabled(s, FailToPersist(id)) && Apply(s, FailToPersist(id)).log == s.log
    ensures SendIs(Apply(s, FailToPersist(id)), id, Failed)
  {
    ReachableInv(s);
  }

  /** A send that the store refuses is over: its message is never stored and never delivered to anybody. */
  lemma RefusedForGood(s: State, steps: seq<Step>, id: MessageId)
    requires Reachable(s) && SendIs(s, id, Created)
    requires Enabled(s, FailToPersist(id)) && Legal(Apply(s, FailToPersist(id)), steps)
    ensures var t := Run(Apply(s, FailToPersist(id)), steps);
            && (forall m | m in t.log :: m.id != id)
            && forall i: nat, m | IsStreaming(t, i) && m in t.subs[i].pipe.delivered :: m.id != id
  {
    ReachableInv(s);
    NewSendIsDecided(s, id);
    StepInv(s, FailToPersist(id));
    FailedForGood(Apply(s, FailToPersist(id)), steps, id);
  }

  lemma {:induction false} FailedForGood(s: State, steps: seq<Step>, id: MessageId)
    requires Inv(s) && Legal(s, steps) && SendIs(s, id, Failed)
    ensures var t := Run(s, steps);
            && SendIs(t, id, Failed) && (forall m | m in t.log :: m.id != id)
            && forall i: nat, m | IsStreaming(t, i) && m in t.subs[i].pipe.delivered :: m.id != id
    decreases |steps|
  {
    if steps != [] {
      StepKeepsInv(s, steps[0]);
      FailedStays(s, steps[0], id);
      FailedForGood(Apply(s, steps[0]), steps[1..], id);
    } else {
      forall m | m in s.log
        ensures m.id != id
      {
        var k :| 0 <= k < |s.log| && s.log[k] == m;
        assert LoggedBy(s.sends, s.log[k]);
      }
      forall i: nat, m | IsStreaming(s, i) && m in s.subs[i].pipe.delivered
        ensures m.id != id
      {
        assert SubInv(s, s.subs[i]);
        StreamIsPrefixOfDue(s, s.subs[i]);
        DueIsOwn(s, i, m);
      }
    }
  }

  lemma FailedStays(s: State, step: Step, id: MessageId)
    requires Enabled(s, step) && SendIs(s, id, Failed)
    ensures SendIs(Apply(s, step), id, Failed)
  {
  }

  /** A channel that the map holds for the user has a receiver. */
  ghost predicate NotStale(s: State, user: UserId) {
    user in s.routes ==> exists i :: 0 <= i < |s.subs| && Attached(s.subs[i]) && s.subs[i].user == user
  }

  /** A stored message can be published to the end, by steps of its own send. */
  lemma PublishedToTheEnd(s: State, id: MessageId) returns (steps: seq<Step>)
    requires Reachable(s) && SendIs(s, id, Persisted)
    ensures Legal(s, steps) && Reachable(Run(s, steps))
    ensures var t := Run(s, steps);
            && t.log == s.log && t.subs == s.subs && t.capacity == s.capacity && |t.channels| == |s.channels|
            && id in t.sends && t.sends[id].message == s.sends[id].message
            && (SendIs(t, id, CutShort) || SendIs(t, id, Completed))
            && (NotStale(s, s.sends[id].message.from) ==> SendIs(t, id, Completed))
            && forall c | 0 <= c < |s.channels| :: |t.channels[c].sent| <= |s.channels[c].sent| + 1
  {
    ReachableInv(s);
    var first := PublishToSender(id);
    CutShortExactly(s, id);
    StepKeepsInv(s, first);
    var mid := Apply(s, first);
    if SendIs(mid, id, CutShort) {
      steps := [first];
      RunOne(s, first);
    } else {
      steps := [first, PublishToReceiver(id)];
      RunTwo(s, first, PublishToReceiver(id));
      TwoOffersApart(s, id);
    }
    ReachableRun(s, steps);
  }

  /** The two offers of a publish go to different channels. */
  lemma TwoOffersApart(s: State, id: MessageId)
    requires Inv(s) && SendIs(s, id, Persisted) && SendIs(Apply(s, PublishToSender(id)), id, Publishing)
    ensures var mid := Apply(s, PublishToSender(id));
            && Enabled(mid, PublishToReceiver(id))
            && var t := Apply(mid, PublishToReceiver(id));
               && t.log == s.log && t.subs == s.subs && t.capacity == s.capacity && |t.channels| == |s.channels|
               && SendIs(t, id, Completed) && t.sends[id].message == s.sends[id].message
               && forall c | 0 <= c < |s.channels| :: |t.channels[c].sent| <= |s.channels[c].sent| + 1
  {
    StepInv(s, PublishToSender(id));
    OfferGrows(s, id);
  }

  lemma OfferGrows(s: State, id: MessageId)
    requires Inv(s) && id in s.sends
    ensures var m := s.sends[id].message;
            var mid := PublishToSenderStep(s, id);
            && mid.routes == s.routes && mid.subs == s.subs && |mid.channels| == |s.channels|
            && (forall c | 0 <= c < |s.channels| && !(m.from in s.routes && s.routes[m.from] == c) ::
                  mid.channels[c] == s.channels[c])
            && (m.from != m.to && m.from in s.routes && m.to in s.routes ==> s.routes[m.from] != s.routes[m.to])
  {
    assert RoutesInv(s);
  }

  /** A new message can be stored and published, by steps of its own send. */
  lemma SentToTheEnd(s: State, m: Message) returns (steps: seq<Step>)
    requires Reachable(s) && m.id !in s.sends && NotStale(s, m.from)
    ensures Legal(s, steps) && Reachable(Run(s, steps))
    ensures var t := Run(s, steps);
            && t.log == s.log + [m] && t.subs == s.subs && t.capacity == s.capacity && |t.channels| == |s.channels|
            && SendIs(t, m.id, Completed)
            && forall c | 0 <= c < |s.channels| :: |t.channels[c].sent| <= |s.channels[c].sent| + 1
  {
    ReachableInv(s);
    var a := [Create(m), Persist(m.id)];
    StoresIsRun(s, m);
    ReachableRun(s, a);
    var b := PublishedToTheEnd(Stores(s, m), m.id);
    RunConcat(s, a, b);
    steps := a + b;
  }

  /** One more message does not push a receiver that has received everything out of the window. */
  lemma StaysLively(s: State, t: State, i: nat)
    requires Lively(s, i) && Behind(s, s.subs[i]) == 0 && Inv(t) && s.capacity >= 1
    requires t.subs == s.subs && t.capacity == s.capacity && |t.channels| == |s.channels|
    requires forall c | 0 <= c < |s.channels| :: |t.channels[c].sent| <= |s.channels[c].sent| + 1
    ensures Lively(t, i)
  {
    assert SubInv(t, t.subs[i]);
  }

  lemma OwedCanArrive(s: State, i: nat, q: nat) returns (steps: seq<Step>)
    requires Reachable(s) && Lively(s, i) && q < |s.log| && Owed(s, s.subs[i], q) && s.subs[i].storedBefore <= q
    requires SendIs(s, s.log[q].id, Completed)
    ensures Legal(s, steps) && i < |Run(s, steps).subs| && s.log[q] in Run(s, steps).subs[i].pipe.delivered
  {
    ReachableInv(s);
    steps := CanDrain(s, i);
    ReachableRun(s, steps);
    RunKeepsIdentity(s, steps, i);
    NoGaps(Run(s, steps), i, q);
  }

  /**
   * A new message to or from a user can always reach that user's client: if its connection is read and
   * has received everything, and the sender's channel is not stale, some continuation delivers it.
   */
  lemma MessageCanArrive(s: State, i: nat, m: Message) returns (steps: seq<Step>)
    requires Reachable(s) && Lively(s, i) && Behind(s, s.subs[i]) == 0
    requires m.id !in s.sends && Involves(m, s.subs[i].user) && NotStale(s, m.from)
    ensures Legal(s, steps) && i < |Run(s, steps).subs| && m in Run(s, steps).subs[i].pipe.delivered
  {
    ReachableInv(s);
    assert s.subs[i].storedBefore <= |s.log| by {
      assert SubInv(s, s.subs[i]);
    }
    var a := SentToTheEnd(s, m);
    var sent := Run(s, a);
    ReachableInv(sent);
    StaysLively(s, sent, i);
    var b := OwedCanArrive(sent, i, |s.log|);
    RunConcat(s, a, b);
    steps := a + b;
  }

  // The client

  function Served(steps: seq<Step>): seq<WorldStep> {
    if steps == [] then [] else [Serve(steps[0])] + Served(steps[1..])
  }

  lemma {:induction false} ServedRun(w: World, steps: seq<Step>, i: nat)
    requires Inv(w.server) && Legal(w.server, steps) && OwnSteps(steps, i)
    ensures CanRun(w, Served(steps)) && RunWorld(w, Served(steps)) == World(Run(w.server, steps), w.client)
    decreases |steps|
  {
    if steps != [] {
      var next := Happen(w, Serve(steps[0]));
      StepInv(w.server, steps[0]);
      ServedRun(next, steps[1..], i);
      assert Served(steps)[1..] == Served(steps[1..]);
    }
  }

  /** The client can receive everything that its connection has written. */
  lemma {:induction false} ReceivesAll(w: World) returns (more: seq<WorldStep>)
    requires Shaped(w.server) && w.client.connection.Some? && w.client.connection.value < |w.server.subs|
    requires w.client.base <= |w.client.received|
    requires w.client.received[w.client.base..] <= w.server.subs[w.client.connection.value].pipe.delivered
    ensures CanRun(w, more)
    ensures var v := RunWorld(w, more);
            && v.server == w.server && v.client == w.client.(received := v.client.received)
            && v.client.base <= |v.client.received|
            && v.client.received[v.client.base..] == w.server.subs[w.client.connection.value].pipe.delivered
    decreases |w.server.subs[w.client.connection.value].pipe.delivered| - (|w.client.received| - w.client.base)
  {
    var c, delivered := w.client, w.server.subs[w.client.connection.value].pipe.delivered;
    more := [];
    if |c.received| - c.base < |delivered| {
      var next := Happen(w, ReceiveEvent);
      assert next.client.received[c.base..] == c.received[c.base..] + [delivered[|c.received| - c.base]];
      var rest := ReceivesAll(next);
      more := [ReceiveEvent] + rest;
      assert more[1..] == rest;
    }
  }

  lemma {:induction false} WorldRunConcat(w: World, a: seq<WorldStep>, b: seq<WorldStep>)
    requires CanRun(w, a) && CanRun(RunWorld(w, a), b)
    ensures CanRun(w, a + b) && RunWorld(w, a + b) == RunWorld(RunWorld(w, a), b)
    decreases |a|
  {
    if a == [] {
      assert a + b == b;
    } else {
      assert (a + b)[1..] == a[1..] + b;
      WorldRunConcat(Happen(w, a[0]), a[1..], b);
    }
  }

  lemma CatchesUp(w: World) returns (more: seq<WorldStep>)
    requires WorldInv(w) && Orderly(w.server, w.client.user, w.client.first)
    requires w.client.connection.Some? && Lively(w.server, w.client.connection.value)
    ensures CanRun(w, more) && w.client.origin <= |w.server.log|
    ensures RunWorld(w, more).server.log == w.server.log
    ensures RunWorld(w, more).client.received == Inbox(w.server.log[w.client.origin..], w.client.user)
  {
    var own := DrainsServed(w);
    var drained := RunWorld(w, own);
    var got := ReceivesAll(drained);
    RunKeepsWorldInv(drained, got);
    WorldRunConcat(w, own, got);
    more := own + got;
    ReadToTheEnd(RunWorld(drained, got));
  }

  lemma DrainsServed(w: World) returns (steps: seq<WorldStep>)
    requires WorldInv(w) && Orderly(w.server, w.client.user, w.client.first)
    requires w.client.connection.Some? && Lively(w.server, w.client.connection.value)
    ensures CanRun(w, steps)
    ensures var v := RunWorld(w, steps);
            && v.client == w.client && v.server.log == w.server.log && Drained(v.server, w.client.connection.value)
            && WorldInv(v) && Orderly(v.server, v.client.user, v.client.first)
  {
    var own := DrainFrom(w.server, w.client.connection.value);
    RunKeepsLog(w.server, own);
    ServedRun(w, own, w.client.connection.value);
    steps := Served(own);
    RunKeepsWorldInv(w, steps);
  }

  lemma ReadToTheEnd(v: World)
    requires WorldInv(v) && Orderly(v.server, v.client.user, v.client.first) && CaughtUp(v)
    ensures v.client.origin <= |v.server.log|
    ensures v.client.received == Inbox(v.server.log[v.client.origin..], v.client.user)
  {
    UpToDate(v.server, v.client);
  }

  /**
   * A client whose connection is read and not too far behind can always catch up: some continuation, of
   * its connection's own tasks and of its receiving, gives it all of its messages from its origin on.
   */
  lemma ClientCanCatchUp(backend: Backend, capacity: nat, user: UserId, first: Option<MessageId>, steps: seq<WorldStep>)
    returns (more: seq<WorldStep>)
    requires capacity >= 1 && CanRun(InitWorld(backend, capacity, user, first), steps)
    requires var w := RunWorld(InitWorld(backend, capacity, user, first), steps);
             w.client.connection.Some? && Lively(w.server, w.client.connection.value) && Orderly(w.server, user, first)
    ensures var w := RunWorld(InitWorld(backend, capacity, user, first), steps);
            && CanRun(w, more) && w.client.origin <= |w.server.log|
            && RunWorld(w, more).server.log == w.server.log
            && RunWorld(w, more).client.received == Inbox(w.server.log[w.client.origin..], user)
  {
    var w0 := InitWorld(backend, capacity, user, first);
    RunKeepsWorldInv(w0, steps);
    RunKeepsClient(w0, steps);
    more := CatchesUp(RunWorld(w0, steps));
  }

  // Shutdown, in numbers

  /** How many queues a stream passes: through the channel's task and the events' task, and with a history one more. */
  function QueuesOf(start: Option<MessageId>): nat {
    if start.None? then 2 else 3
  }

  ghost predicate QueuesFit(s: State) {
    forall i: nat | IsStreaming(s, i) :: |s.subs[i].pipe.queues| == QueuesOf(s.subs[i].start)
  }

  lemma StepKeepsQueues(s: State, step: Step)
    requires Inv(s) && Enabled(s, step) && QueuesFit(s)
    ensures QueuesFit(Apply(s, step))
  {
    var t := Apply(s, step);
    forall i: nat | IsStreaming(t, i)
      ensures |t.subs[i].pipe.queues| == QueuesOf(t.subs[i].start)
    {
      if SubIs(s, i, Streaming) {
        StreamKeepsQueues(s, step, i);
      }
    }
  }

  lemma StreamKeepsQueues(s: State, step: Step, i: nat)
    requires Inv(s) && Enabled(s, step) && SubIs(s, i, Streaming)
    ensures var t := Apply(s, step);
            i < |t.subs| && |t.subs[i].pipe.queues| == |s.subs[i].pipe.queues| && t.subs[i].start == s.subs[i].start
  {
    assert SubInv(s, s.subs[i]);
    StepIsPipeRun(s, step, i);
    StepKeepsIdentity(s, step, i);
    RunOnlyStops(s.subs[i].pipe, PipePart(s, step, i));
  }

  lemma {:induction false} RunKeepsQueues(s: State, steps: seq<Step>)
    requires Inv(s) && Legal(s, steps) && QueuesFit(s)
    ensures QueuesFit(Run(s, steps))
    decreases |steps|
  {
    if steps != [] {
      StepInv(s, steps[0]);
      StepKeepsQueues(s, steps[0]);
      RunKeepsQueues(Apply(s, steps[0]), steps[1..]);
    }
  }

  lemma {:induction false} LiveBound(running: seq<bool>)
    ensures Live(running) <= |running|
    ensures running != [] && !running[|running| - 1] ==> Live(running) < |running|
  {
    if running != [] {
      LiveBound(running[1..]);
    }
  }

  /** After its connection has closed, two fair rounds release a stream without a starting point, and three any stream. */
  lemma ReleasedInThreeRounds(s: State, rounds: seq<seq<Step>>, i: nat)
    requires Reachable(s) && IsStreaming(s, i) && !Open(s.subs[i].pipe) && AllFairTo(s, rounds, i)
    requires |rounds| >= QueuesOf(s.subs[i].start)
    ensures i < |RunAll(s, rounds, i).subs| && !Attached(RunAll(s, rounds, i).subs[i])
  {
    var backend: Backend, capacity: nat, steps: seq<Step> :|
      capacity >= 1 && Legal(Init(backend, capacity), steps) && Run(Init(backend, capacity), steps) == s;
    RunKeepsQueues(Init(backend, capacity), steps);
    LiveBound(s.subs[i].pipe.running);
    ClosedSubscriptionIsReleased(s, rounds, i);
  }

  // The end of a stream

  ghost predicate Inner(steps: seq<PipeStep<Message>>) {
    forall k | 0 <= k < |steps| :: steps[k].Forward? || steps[k].SeeEnd? || steps[k].Take?
  }

  /** The first stage that still runs after the source has ended. */
  lemma {:induction false} FirstRunning(p: Pipeline<Message>, k: nat) returns (j: nat)
    requires Valid(p) && k <= |p.queues| && p.running[k] && !p.running[0]
    ensures 1 <= j <= k && p.running[j] && !p.running[j - 1]
  {
    if p.running[k - 1] {
      j := FirstRunning(p, k - 1);
    } else {
      j := k;
    }
  }

  /** That stage hands on what is in its queue, and then sees the end of it. */
  lemma NextToTheEnd(p: Pipeline<Message>, j: nat) returns (step: PipeStep<Message>)
    requires Valid(p) && Flowing(p) && Open(p) && 1 <= j <= |p.queues|
    requires p.running[j] && !p.running[j - 1] && !p.running[0]
    ensures CanStep(p, step) && Inner([step])
    ensures var q := StepPipe(p, step);
            && Valid(q) && Flowing(q) && |q.queues| == |p.queues| && !q.running[0] && InFlight(q) == InFlight(p)
            && Live(q.running) <= Live(p.running)
            && (Live(q.running) == Live(p.running) ==> Load(q.queues, 0) < Load(p.queues, 0))
            && (!Open(q) ==> q.delivered == InFlight(p))
  {
    if p.queues[j - 1] == [] {
      step := SeeEnd(j);
      SeesTheEnd(p, j);
    } else {
      step := if j == |p.queues| then Take else Forward(j);
      HandsOn(p, j, step);
    }
    StepStaysValid(p, step);
  }

  lemma SeesTheEnd(p: Pipeline<Message>, j: nat)
    requires CanStep(p, SeeEnd(j)) && Flowing(p) && Open(p)
    ensures var q := StepPipe(p, SeeEnd(j));
            && Live(q.running) < Live(p.running) && InFlight(q) == InFlight(p)
            && (!Open(q) ==> q.delivered == InFlight(p))
  {
    var q := StepPipe(p, SeeEnd(j));
    assert q.queues == p.queues;
    assert p.running[j] && !q.running[j];
    LiveShrinks(p.running, q.running);
    if j == |p.queues| {
      EndSeenAfterEverything(p);
    }
  }

  lemma HandsOn(p: Pipeline<Message>, j: nat, step: PipeStep<Message>)
    requires Valid(p) && Flowing(p) && Open(p) && 1 <= j <= |p.queues| && p.running[j] && p.queues[j - 1] != []
    requires step == if j == |p.queues| then Take else Forward(j)
    ensures CanStep(p, step)
    ensures var q := StepPipe(p, step);
            && q.running == p.running && InFlight(q) == InFlight(p) && Load(q.queues, 0) < Load(p.queues, 0)
  {
    var q := StepPipe(p, step);
    LoadShift(p.queues, q.queues, 0, j - 1);
    StepConserves(p, step);
    assert InFlight(p) + [] == InFlight(p);
  }

  /** Once its source has ended, a pipeline that is read can deliver everything in it and then end. */
  lemma {:induction false} RunsDry(p: Pipeline<Message>) returns (steps: seq<PipeStep<Message>>)
    requires Valid(p) && Flowing(p) && Open(p) && !p.running[0]
    ensures LegalPipe(p, steps) && Inner(steps)
    ensures |RunPipe(p, steps).running| == |RunPipe(p, steps).queues| + 1 && !Open(RunPipe(p, steps))
    ensures RunPipe(p, steps).delivered == InFlight(p)
    decreases Live(p.running), Load(p.queues, 0)
  {
    var j := FirstRunning(p, |p.queues|);
    var step := NextToTheEnd(p, j);
    var q := StepPipe(p, step);
    steps := [step];
    assert steps[1..] == [] && LegalPipe(q, []);
    if Open(q) {
      var rest := RunsDry(q);
      steps := [step] + rest;
      assert steps[1..] == rest;
    }
  }

  function Pumps(steps: seq<PipeStep<Message>>, i: nat): seq<Step> {
    if steps == [] then [] else [Pump(i, steps[0])] + Pumps(steps[1..], i)
  }

  lemma {:induction false} PumpsRun(s: State, i: nat, steps: seq<PipeStep<Message>>)
    requires Inv(s) && IsStreaming(s, i) && LegalPipe(s.subs[i].pipe, steps) && Inner(steps)
    ensures Legal(s, Pumps(steps, i))
    ensures var t := Run(s, Pumps(steps, i)); IsStreaming(t, i) && t.subs[i].pipe == RunPipe(s.subs[i].pipe, steps)
    decreases |steps|
  {
    if steps != [] {
      var step := Pump(i, steps[0]);
      StreamingStays(s, step, i);
      PumpsRun(Apply(s, step), i, steps[1..]);
      assert Pumps(steps, i)[1..] == Pumps(steps[1..], i);
    }
  }

  /**
   * A stream that has been cut off does not leave its client waiting: some continuation, of its own tasks,
   * delivers everything that it had received and then ends the connection.
   */
  lemma CutOffComesToAnEnd(s: State, i: nat) returns (steps: seq<Step>)
    requires Reachable(s) && IsStreaming(s, i) && !Attached(s.subs[i]) && Open(s.subs[i].pipe)
    ensures Legal(s, steps) && IsStreaming(Run(s, steps), i)
    ensures !Open(Run(s, steps).subs[i].pipe) && Run(s, steps).subs[i].pipe.delivered == Stream(s, s.subs[i])
  {
    ReachableInv(s);
    assert SubInv(s, s.subs[i]);
    var dry := RunsDry(s.subs[i].pipe);
    steps := Pumps(dry, i);
    PumpsRun(s, i, dry);
    EndsRatherThanSkips(s, i);
  }
}
