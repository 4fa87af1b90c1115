/**
 * Why reconnecting without a gap needs sends that do not overlap: a run in which two messages are
 * stored in one order and published in the other.
 */
module Interleavings {
  import opened Wrappers
  import opened Messages
  import opened Histories
  import opened Keyset
  import opened Pipelines
  import opened Delivery
  import opened DeliveryInvariants
  import opened DeliveryTheorems
  import opened DeliveryLiveness
  import opened Resumption

  /** User 2's first connection, on channel 0. */
  function First(next: nat, pipe: Pipeline<Message>): Subscription {
    Subscription(2, None, 0, 0, next, 0, {}, Streaming, 0, [], pipe)
  }

  function Pipe(q0: seq<Message>, q1: seq<Message>, open: bool, delivered: seq<Message>): Pipeline<Message> {
    Pipeline([q0, q1], [true, true, open], delivered)
  }

  function Sends(a: Message, pa: Phase, b: Message, pb: Phase): map<MessageId, Send> {
    map[a.id := Send(a, pa), b.id := Send(b, pb)]
  }

  /** Only user 2 is in the map, with one connection. */
  function Solo(backend: Backend, capacity: nat, log: seq<Message>, sends: map<MessageId, Send>, sent: seq<Message>,
                sub: Subscription): State
  {
    State(backend, capacity, log, sends, map[2 := 0], [Channel(2, sent)], [sub])
  }

  ghost predicate FromOneToTwo(a: Message, b: Message) {
    a.id != b.id && a.from == b.from == 1 && a.to == b.to == 2
  }

  lemma Onward(s: State, x: Step, y: Step)
    requires Reachable(s) && Enabled(s, x) && Enabled(Apply(s, x), y)
    ensures Reachable(Apply(Apply(s, x), y))
  {
    RunTwo(s, x, y);
    ReachableRun(s, [x, y]);
  }

  lemma OnwardOne(s: State, x: Step)
    requires Reachable(s) && Enabled(s, x)
    ensures Reachable(Apply(s, x))
  {
    RunOne(s, x);
    ReachableRun(s, [x]);
  }

  lemma Subscribed(backend: Backend, capacity: nat)
    requires capacity >= 1
    ensures Reachable(Solo(backend, capacity, [], map[], [], First(0, Pipe([], [], true, []))))
  {
    var s := Init(backend, capacity);
    assert Reachable(s) by {
      assert Legal(s, []);
    }
    var t := Apply(s, Register(2, None));
    assert t.channels == [Channel(2, [])] && |t.subs| == 1;
    assert t.subs[0].publishedBefore == {};
    var u := Apply(t, OpenStream(0, []));
    assert u.subs[0] == First(0, Pipe([], [], true, []));
    assert u == Solo(backend, capacity, [], map[], [], First(0, Pipe([], [], true, [])));
    Onward(s, Register(2, None), OpenStream(0, []));
  }

  lemma BothCreated(backend: Backend, capacity: nat, a: Message, b: Message)
    requires capacity >= 1 && FromOneToTwo(a, b)
    ensures Reachable(Solo(backend, capacity, [], Sends(a, Created, b, Created), [], First(0, Pipe([], [], true, []))))
  {
    var s := Solo(backend, capacity, [], map[], [], First(0, Pipe([], [], true, [])));
    Subscribed(backend, capacity);
    Onward(s, Create(a), Create(b));
    assert Apply(Apply(s, Create(a)), Create(b)).sends == Sends(a, Created, b, Created);
  }

  /** Both messages are stored, a first. */
  lemma BothStored(backend: Backend, capacity: nat, a: Message, b: Message)
    requires capacity >= 1 && FromOneToTwo(a, b)
    ensures Reachable(Solo(backend, capacity, [a, b], Sends(a, Persisted, b, Persisted), [],
                           First(0, Pipe([], [], true, []))))
  {
    var s := Solo(backend, capacity, [a], Sends(a, Persisted, b, Created), [], First(0, Pipe([], [], true, [])));
    FirstStored(backend, capacity, a, b);
    OnwardOne(s, Persist(b.id));
    assert Apply(s, Persist(b.id)).sends == Sends(a, Persisted, b, Persisted) && [a] + [b] == [a, b];
  }

  lemma FirstStored(backend: Backend, capacity: nat, a: Message, b: Message)
    requires capacity >= 1 && FromOneToTwo(a, b)
    ensures Reachable(Solo(backend, capacity, [a], Sends(a, Persisted, b, Created), [],
                           First(0, Pipe([], [], true, []))))
  {
    var s := Solo(backend, capacity, [], Sends(a, Created, b, Created), [], First(0, Pipe([], [], true, [])));
    BothCreated(backend, capacity, a, b);
    OnwardOne(s, Persist(a.id));
    assert Apply(s, Persist(a.id)).sends == Sends(a, Persisted, b, Created) && [] + [a] == [a];
  }

  /** Publishing while the connection's receiver exists and the message's sender is not in the map. */
  lemma Publishes(backend: Backend, capacity: nat, log: seq<Message>, sends: map<MessageId, Send>, sent: seq<Message>,
                  sub: Subscription, m: Message)
    requires capacity >= 1 && Reachable(Solo(backend, capacity, log, sends, sent, sub))
    requires SubShaped(Solo(backend, capacity, log, sends, sent, sub), sub)
    requires m.id in sends && sends[m.id] == Send(m, Persisted) && m.from == 1 && m.to == 2
    requires Attached(sub) && sub.channel == 0
    ensures Reachable(Solo(backend, capacity, log, sends[m.id := Send(m, Completed)], sent + [m], sub))
  {
    var s := Solo(backend, capacity, log, sends, sent, sub);
    ReachableInv(s);
    var offered := Apply(s, PublishToSender(m.id));
    assert offered == Solo(backend, capacity, log, sends[m.id := Send(m, Publishing)], sent, sub);
    assert offered.subs[0] == sub && HasReceivers(offered, 0);
    var t := Apply(offered, PublishToReceiver(m.id));
    assert t.sends == sends[m.id := Send(m, Completed)] && t.channels == [Channel(2, sent + [m])];
    Onward(s, PublishToSender(m.id), PublishToReceiver(m.id));
  }

  /** Message b is published before a. */
  lemma LaterPublishedFirst(backend: Backend, capacity: nat, a: Message, b: Message)
    requires capacity >= 1 && FromOneToTwo(a, b)
    ensures Reachable(Solo(backend, capacity, [a, b], Sends(a, Persisted, b, Completed), [b],
                           First(0, Pipe([], [], true, []))))
  {
    BothStored(backend, capacity, a, b);
    var sends := Sends(a, Persisted, b, Persisted);
    Publishes(backend, capacity, [a, b], sends, [], First(0, Pipe([], [], true, [])), b);
    assert sends[b.id := Send(b, Completed)] == Sends(a, Persisted, b, Completed) && [] + [b] == [b];
  }

  lemma PassesThrough(m: Message, before: seq<Message>)
    ensures StepPipe(Pipe([], [], true, before), Accept(m)) == Pipe([m], [], true, before)
    ensures StepPipe(Pipe([m], [], true, before), Forward(1)) == Pipe([], [m], true, before)
  {
    var none: seq<Message> := [];
    assert none + [m] == [m] && [m][1..] == none;
    assert [none, none][0 := [m]] == [[m], none];
    assert [[m], none][0 := none] == [none, none];
    assert [none, none][1 := [m]] == [none, [m]];
  }

  lemma TakenThenClosed(m: Message, before: seq<Message>)
    ensures StepPipe(Pipe([], [m], true, before), PipeStep.Take) == Pipe([], [], true, before + [m])
    ensures StepPipe(Pipe([], [], true, before), Disconnect) == Pipe([], [], false, before)
  {
    var none: seq<Message> := [];
    assert [m][1..] == none;
    assert [none, [m]][1 := none] == [none, none];
    assert [none, none][1 := none] == [none, none];
    assert [true, true, true][2 := false] == [true, true, false];
  }

  /** A step of the one pipeline. */
  lemma SoloPumps(s: State, sub: Subscription, step: PipeStep<Message>)
    requires Shaped(s) && s.subs == [sub] && sub.progress.Streaming?
    requires !step.Accept? && !step.SourceEnds? && CanStep(sub.pipe, step)
    ensures Enabled(s, Pump(0, step))
    ensures Apply(s, Pump(0, step)) == s.(subs := [sub.(pipe := StepPipe(sub.pipe, step))])
  {
  }

  lemma SoloReceives(s: State, sub: Subscription)
    requires Shaped(s) && s.subs == [sub] && sub.progress.Streaming? && sub.pipe.running[0] && sub.history == []
    requires sub.channel < |s.channels| && 0 < Behind(s, sub) <= s.capacity
    ensures Enabled(s, Receive(0))
    ensures Apply(s, Receive(0))
         == s.(subs := [sub.(next := sub.next + 1,
                             pipe := StepPipe(sub.pipe, Accept(s.channels[sub.channel].sent[sub.next])))])
  {
  }

  lemma LaterForwarded(backend: Backend, capacity: nat, a: Message, b: Message)
    requires capacity >= 1 && FromOneToTwo(a, b)
    ensures Reachable(Solo(backend, capacity, [a, b], Sends(a, Persisted, b, Completed), [b],
                           First(1, Pipe([], [b], true, []))))
  {
    LaterPublishedFirst(backend, capacity, a, b);
    ReceivesAndForwards(backend, capacity, [a, b], Sends(a, Persisted, b, Completed), [b], 0, []);
  }

  lemma IdleReceives(backend: Backend, capacity: nat, log: seq<Message>, sends: map<MessageId, Send>,
                     sent: seq<Message>, next: nat, before: seq<Message>)
    requires capacity >= 1 && next + 1 == |sent|
    requires Reachable(Solo(backend, capacity, log, sends, sent, First(next, Pipe([], [], true, before))))
    ensures Reachable(Solo(backend, capacity, log, sends, sent, First(next + 1, Pipe([sent[next]], [], true, before))))
  {
    var s := Solo(backend, capacity, log, sends, sent, First(next, Pipe([], [], true, before)));
    assert SubShaped(s, s.subs[0]);
    PassesThrough(sent[next], before);
    SoloReceives(s, s.subs[0]);
    OnwardOne(s, Receive(0));
  }

  /** An idle connection receives the next message and forwards it. */
  lemma ReceivesAndForwards(backend: Backend, capacity: nat, log: seq<Message>, sends: map<MessageId, Send>,
                            sent: seq<Message>, next: nat, before: seq<Message>)
    requires capacity >= 1 && next + 1 == |sent|
    requires Reachable(Solo(backend, capacity, log, sends, sent, First(next, Pipe([], [], true, before))))
    ensures Reachable(Solo(backend, capacity, log, sends, sent, First(next + 1, Pipe([], [sent[next]], true, before))))
  {
    var t := Solo(backend, capacity, log, sends, sent, First(next + 1, Pipe([sent[next]], [], true, before)));
    IdleReceives(backend, capacity, log, sends, sent, next, before);
    assert SubShaped(t, t.subs[0]);
    PassesThrough(sent[next], before);
    SoloPumps(t, t.subs[0], Forward(1));
    OnwardOne(t, Pump(0, Forward(1)));
  }

  /** The client receives a forwarded message and its connection breaks; the forwarding tasks have not noticed yet. */
  lemma TakesAndBreaks(backend: Backend, capacity: nat, log: seq<Message>, sends: map<MessageId, Send>,
                       sent: seq<Message>, next: nat, m: Message, before: seq<Message>)
    requires capacity >= 1 && next <= |sent|
    requires Reachable(Solo(backend, capacity, log, sends, sent, First(next, Pipe([], [m], true, before))))
    ensures Reachable(Solo(backend, capacity, log, sends, sent, First(next, Pipe([], [], true, before + [m]))))
    ensures Reachable(Solo(backend, capacity, log, sends, sent, First(next, Pipe([], [], false, before + [m]))))
  {
    var s := Solo(backend, capacity, log, sends, sent, First(next, Pipe([], [m], true, before)));
    var t := Solo(backend, capacity, log, sends, sent, First(next, Pipe([], [], true, before + [m])));
    assert SubShaped(s, s.subs[0]) && SubShaped(t, t.subs[0]);
    TakenThenClosed(m, before);
    TakenThenClosed(m, before + [m]);
    SoloPumps(s, s.subs[0], PipeStep.Take);
    OnwardOne(s, Pump(0, PipeStep.Take));
    SoloPumps(t, t.subs[0], Disconnect);
    OnwardOne(t, Pump(0, Disconnect));
  }

  lemma LaterReceived(backend: Backend, capacity: nat, a: Message, b: Message)
    requires capacity >= 1 && FromOneToTwo(a, b)
    ensures var sends := Sends(a, Persisted, b, Completed);
            && Reachable(Solo(backend, capacity, [a, b], sends, [b], First(1, Pipe([], [], true, [b]))))
            && Reachable(Solo(backend, capacity, [a, b], sends, [b], First(1, Pipe([], [], false, [b]))))
  {
    LaterForwarded(backend, capacity, a, b);
    TakesAndBreaks(backend, capacity, [a, b], Sends(a, Persisted, b, Completed), [b], 1, b, []);
    assert [] + [b] == [b];
  }

  /** Message a is published to the broken connection. */
  function Overtaken(backend: Backend, capacity: nat, a: Message, b: Message): State {
    Solo(backend, capacity, [a, b], Sends(a, Completed, b, Completed), [b, a], First(1, Pipe([], [], false, [b])))
  }

  lemma ReachOvertaken(backend: Backend, capacity: nat, a: Message, b: Message)
    requires capacity >= 1 && FromOneToTwo(a, b)
    ensures Reachable(Overtaken(backend, capacity, a, b))
  {
    LaterReceived(backend, capacity, a, b);
    var sends := Sends(a, Persisted, b, Completed);
    Publishes(backend, capacity, [a, b], sends, [b], First(1, Pipe([], [], false, [b])), a);
    assert sends[a.id := Send(a, Completed)] == Sends(a, Completed, b, Completed) && [b] + [a] == [b, a];
  }

  /** The client comes back with b as its last event. */
  lemma Registers(backend: Backend, capacity: nat, a: Message, b: Message)
    requires capacity >= 1 && FromOneToTwo(a, b)
    ensures Enabled(Overtaken(backend, capacity, a, b), Register(2, Some(b.id)))
    ensures var t := Apply(Overtaken(backend, capacity, a, b), Register(2, Some(b.id)));
            && |t.subs| == 2 && t.subs[0] == Overtaken(backend, capacity, a, b).subs[0]
            && t.log == [a, b] && t.sends == Sends(a, Completed, b, Completed) && t.channels == [Channel(2, [b, a])]
            && t.subs[1] == Subscription(2, Some(b.id), 0, 2, 2, 2, {a.id, b.id}, Registered, 0, [], NewPipe(None, []))
  {
  }

  /** By the order of the store, message a is not after b. */
  predicate NotAfter(backend: Backend, a: Message, b: Message) {
    backend.InMemory? || a.timestamp < b.timestamp
  }

  lemma NothingSince(backend: Backend, a: Message, b: Message)
    requires a.id != b.id && NotAfter(backend, a, b)
    ensures Answers(backend, [a, b], 2, Some(b.id), [])
  {
    var log := [a, b];
    assert log[1] == b;
    if backend.InMemory? {
      AfterKnown(log, 1);
      assert log[2..] == [];
    } else {
      TimestampOfKnown(log, 1);
    }
  }

  lemma Resumes(backend: Backend, capacity: nat, a: Message, b: Message) returns (s: State)
    requires capacity >= 1 && FromOneToTwo(a, b) && NotAfter(backend, a, b)
    ensures Reachable(s) && s.backend == backend && |s.subs| == 2 && s.subs[0] == Overtaken(backend, capacity, a, b).subs[0]
    ensures s.log == [a, b] && s.sends == Sends(a, Completed, b, Completed)
    ensures Drained(s, 1) && s.subs[1].user == 2 && s.subs[1].start == Some(b.id)
    ensures s.subs[1].publishedBefore == {a.id, b.id} && s.subs[1].storedBefore == 2
  {
    var o := Overtaken(backend, capacity, a, b);
    ReachOvertaken(backend, capacity, a, b);
    Registers(backend, capacity, a, b);
    var t := Apply(o, Register(2, Some(b.id)));
    NothingSince(backend, a, b);
    assert Enabled(t, OpenStream(1, [])) by {
      ReachableInv(o);
      StepInv(o, Register(2, Some(b.id)));
    }
    s := Apply(t, OpenStream(1, []));
    Onward(o, Register(2, Some(b.id)), OpenStream(1, []));
    assert SubShaped(s, s.subs[1]);
    assert s.subs[1].pipe == NewPipe(Some(b.id), []);
  }

  /**
   * Overlapping sends break the promise of reconnecting: user 2 receives b, which was stored last
   * but published first, loses the connection, and comes back with b as its last event. By then a
   * has been published as well, and it is on neither connection, although it was stored after the
   * first one registered and no send was cut short. Whatever happens next, it never comes on either
   * of them, nor on any later connection that starts from b or another message that a is not after.
   */
  lemma OverlappingSendsLeaveGap(backend: Backend, capacity: nat, a: Message, b: Message) returns (s: State)
    requires capacity >= 1 && FromOneToTwo(a, b) && NotAfter(backend, a, b)
    ensures Reachable(s) && s.log == [a, b] && SendIs(s, a.id, Completed) && SendIs(s, b.id, Completed)
    ensures IsStreaming(s, 0) && s.subs[0].user == 2 && Owed(s, s.subs[0], 0)
    ensures s.subs[0].pipe.delivered == [b] && !Open(s.subs[0].pipe)
    ensures Drained(s, 1) && s.subs[1].user == 2 && s.subs[1].start == Some(b.id)
    ensures a !in s.subs[1].pipe.delivered
    ensures forall steps, k: nat |
              Legal(s, steps) && k < |Run(s, steps).subs|
              && (k < 2 || (Run(s, steps).subs[k].user == 2 && StartsFrom(Run(s, steps), k, 0))) ::
              a !in Run(s, steps).subs[k].pipe.delivered
  {
    s := Resumes(backend, capacity, a, b);
    ResumedMisses(s, a, b);
    forall steps, k: nat |
      Legal(s, steps) && k < |Run(s, steps).subs|
      && (k < 2 || (Run(s, steps).subs[k].user == 2 && StartsFrom(Run(s, steps), k, 0)))
      ensures a !in Run(s, steps).subs[k].pipe.delivered
    {
      MissedForGood(s, 0, [b], 1, 1, 0, steps, k);
    }
  }

  lemma ResumedMisses(s: State, a: Message, b: Message)
    requires FromOneToTwo(a, b) && NotAfter(s.backend, a, b)
    requires Reachable(s) && |s.subs| == 2 && s.subs[0] == First(1, Pipe([], [], false, [b]))
    requires s.log == [a, b] && s.sends == Sends(a, Completed, b, Completed)
    requires Drained(s, 1) && s.subs[1].user == 2 && s.subs[1].start == Some(b.id) && s.subs[1].storedBefore == 2
    requires s.subs[1].publishedBefore == {a.id, b.id}
    ensures Resumed(s, 0, [b], 1, 1) && a !in s.subs[1].pipe.delivered && Owed(s, s.subs[0], 0)
  {
    assert IsStreaming(s, 0) by {
      ReachableInv(s);
      assert SubInv(s, s.subs[0]);
    }
    assert s.log[0] == a && s.log[1] == b;
    assert !AfterStart(s, s.subs[1], 0);
    DeliveredExactly(s, 1, 0);
  }
  // Both messages written, in the order of their publishing

  /** Message b has been written; a is published after it, to a connection that is still open. */
  lemma BothPublished(backend: Backend, capacity: nat, a: Message, b: Message)
    requires capacity >= 1 && FromOneToTwo(a, b)
    ensures Reachable(Solo(backend, capacity, [a, b], Sends(a, Completed, b, Completed), [b, a],
                           First(1, Pipe([], [], true, [b]))))
  {
    var sends := Sends(a, Persisted, b, Completed);
    LaterReceived(backend, capacity, a, b);
    Publishes(backend, capacity, [a, b], sends, [b], First(1, Pipe([], [], true, [b])), a);
    assert sends[a.id := Send(a, Completed)] == Sends(a, Completed, b, Completed) && [b] + [a] == [b, a];
  }

  /** Both messages have been written to the connection, and it is closed. */
  function Written(backend: Backend, capacity: nat, a: Message, b: Message): State {
    Solo(backend, capacity, [a, b], Sends(a, Completed, b, Completed), [b, a], First(2, Pipe([], [], false, [b, a])))
  }

  lemma ReachWritten(backend: Backend, capacity: nat, a: Message, b: Message)
    requires capacity >= 1 && FromOneToTwo(a, b)
    ensures Reachable(Written(backend, capacity, a, b))
  {
    var sends := Sends(a, Completed, b, Completed);
    BothPublished(backend, capacity, a, b);
    ReceivesAndForwards(backend, capacity, [a, b], sends, [b, a], 1, [b]);
    TakesAndBreaks(backend, capacity, [a, b], sends, [b, a], 2, a, [b]);
    assert [b] + [a] == [b, a];
  }

  /** The client comes back with that id, and the store answers with that history. */
  lemma ComesBack(backend: Backend, capacity: nat, a: Message, b: Message, id: MessageId, history: seq<Message>)
    returns (s: State)
    requires capacity >= 1 && FromOneToTwo(a, b) && Answers(backend, [a, b], 2, Some(id), history)
    ensures Reachable(s) && s.backend == backend && |s.subs| == 2 && s.subs[0] == Written(backend, capacity, a, b).subs[0]
    ensures s.log == [a, b] && s.sends == Sends(a, Completed, b, Completed) && s.capacity >= 1
    ensures IsStreaming(s, 1) && Attached(s.subs[1]) && Open(s.subs[1].pipe) && Behind(s, s.subs[1]) == 0
    ensures s.subs[1].user == 2 && s.subs[1].start == Some(id) && s.subs[1].storedBefore == 2 && s.subs[1].fetched == 2
    ensures s.subs[1].publishedBefore == {a.id, b.id} && s.subs[1].history == history
    ensures s.subs[1].pipe == NewPipe(Some(id), history)
  {
    var o := Written(backend, capacity, a, b);
    ReachWritten(backend, capacity, a, b);
    assert SubShaped(o, o.subs[0]);
    var t := Apply(o, Register(2, Some(id)));
    assert t.subs[1].publishedBefore == {a.id, b.id};
    assert Enabled(t, OpenStream(1, history)) by {
      ReachableInv(o);
      StepInv(o, Register(2, Some(id)));
    }
    s := Apply(t, OpenStream(1, history));
    Onward(o, Register(2, Some(id)), OpenStream(1, history));
    assert SubShaped(s, s.subs[1]) by {
      ReachableInv(s);
      assert SubInv(s, s.subs[1]);
    }
  }

  /**
   * What is written can be lost on the way: the client has got b but not a, which was written after it,
   * comes back with b, and never gets a, which was stored before b.
   */
  lemma LostInFlight(backend: Backend, capacity: nat, a: Message, b: Message) returns (s: State)
    requires capacity >= 1 && FromOneToTwo(a, b) && NotAfter(backend, a, b)
    ensures Reachable(s) && s.log == [a, b] && Resumed(s, 0, [b], 1, 1) && s.subs[0].pipe.delivered == [b, a]
    ensures forall steps | Legal(s, steps) && 1 < |Run(s, steps).subs| :: a !in Run(s, steps).subs[1].pipe.delivered
  {
    NothingSince(backend, a, b);
    s := ComesBack(backend, capacity, a, b, b.id, []);
    assert IsStreaming(s, 0) by {
      ReachableInv(s);
      assert SubInv(s, s.subs[0]);
    }
    assert s.log[0] == a && s.log[1] == b;
    assert !StandsAfter(s, 1, 0) && !AfterStart(s, s.subs[1], 0);
    DeliveredExactly(s, 1, 0);
    forall steps | Legal(s, steps) && 1 < |Run(s, steps).subs|
      ensures a !in Run(s, steps).subs[1].pipe.delivered
    {
      MissedForGood(s, 0, [b], 1, 1, 0, steps, 1);
    }
  }

  lemma LaterSince(backend: Backend, a: Message, b: Message)
    requires FromOneToTwo(a, b) && NotAfter(backend, a, b)
    ensures Answers(backend, [a, b], 2, Some(a.id), [b])
  {
    var log := [a, b];
    assert log[0] == a;
    if backend.InMemory? {
      AfterKnown(log, 0);
      assert log[1..] == [b];
      assert Inbox([b], 2) == [b];
    } else {
      TimestampOfKnown(log, 0);
    }
  }

  /**
   * Overlapping sends can also repeat a message across connections: the client gets b and then a, comes
   * back with a, the last, and gets b again, which was stored after it.
   */
  lemma OverlappingSendsRepeat(backend: Backend, capacity: nat, a: Message, b: Message) returns (t: State)
    requires capacity >= 1 && FromOneToTwo(a, b) && NotAfter(backend, a, b)
    ensures Reachable(t) && Resumed(t, 0, [b, a], 1, 0)
    ensures b in t.subs[0].pipe.delivered && b in t.subs[1].pipe.delivered
  {
    LaterSince(backend, a, b);
    var s := ComesBack(backend, capacity, a, b, a.id, [b]);
    assert IsStreaming(s, 0) by {
      ReachableInv(s);
      assert SubInv(s, s.subs[0]);
    }
    var steps := CanDrain(s, 1);
    t := Run(s, steps);
    ReachableRun(s, steps);
    KeptWhileDraining(s, steps);
    assert t.log[0] == a && b in Due(t, t.subs[1]);
  }

  lemma KeptWhileDraining(s: State, steps: seq<Step>)
    requires Reachable(s) && Legal(s, steps) && IsStreaming(s, 0) && IsStreaming(s, 1) && !Open(s.subs[0].pipe)
    ensures var t := Run(s, steps);
            && IsStreaming(t, 0) && IsStreaming(t, 1)
            && t.subs[0].pipe.delivered == s.subs[0].pipe.delivered && t.subs[0].user == s.subs[0].user
            && SameSubscription(s.subs[1], t.subs[1]) && t.subs[1].history == s.subs[1].history
  {
    ReachableInv(s);
    ClosedDeliversNoMore(s, steps, 0);
    RunKeepsIdentity(s, steps, 0);
    RunKeepsIdentity(s, steps, 1);
  }
  // What the relational store leaves out

  /** Nobody has subscribed. */
  function Bare(backend: Backend, capacity: nat, log: seq<Message>, sends: map<MessageId, Send>): State {
    State(backend, capacity, log, sends, map[], [], [])
  }

  lemma BareCreated(backend: Backend, capacity: nat, a: Message, b: Message)
    requires capacity >= 1 && FromOneToTwo(a, b)
    ensures Reachable(Bare(backend, capacity, [], Sends(a, Created, b, Created)))
  {
    var s := Init(backend, capacity);
    assert Reachable(s) by {
      assert Legal(s, []);
    }
    assert Apply(Apply(s, Create(a)), Create(b)).sends == Sends(a, Created, b, Created);
    Onward(s, Create(a), Create(b));
  }

  lemma BareStored(backend: Backend, capacity: nat, a: Message, b: Message)
    requires capacity >= 1 && FromOneToTwo(a, b)
    ensures Reachable(Bare(backend, capacity, [b, a], Sends(a, Persisted, b, Persisted)))
  {
    BareCreated(backend, capacity, a, b);
    var s := Bare(backend, capacity, [], Sends(a, Created, b, Created));
    var t := Bare(backend, capacity, [b], Sends(a, Created, b, Persisted));
    assert [] + [b] == [b] && Apply(s, Persist(b.id)).sends == t.sends;
    OnwardOne(s, Persist(b.id));
    assert [b] + [a] == [b, a] && Apply(t, Persist(a.id)).sends == Sends(a, Persisted, b, Persisted);
    OnwardOne(t, Persist(a.id));
  }

  lemma BarePublishes(backend: Backend, capacity: nat, log: seq<Message>, sends: map<MessageId, Send>, m: Message)
    requires Reachable(Bare(backend, capacity, log, sends)) && capacity >= 1
    requires m.id in sends && sends[m.id] == Send(m, Persisted)
    ensures Reachable(Bare(backend, capacity, log, sends[m.id := Send(m, Completed)]))
  {
    var s := Bare(backend, capacity, log, sends);
    var t := Apply(s, PublishToSender(m.id));
    assert t == Bare(backend, capacity, log, sends[m.id := Send(m, Publishing)]);
    var u := Apply(t, PublishToReceiver(m.id));
    assert u.sends == sends[m.id := Send(m, Completed)];
    Onward(s, PublishToSender(m.id), PublishToReceiver(m.id));
  }

  lemma BarePublished(backend: Backend, capacity: nat, a: Message, b: Message)
    requires capacity >= 1 && FromOneToTwo(a, b)
    ensures Reachable(Bare(backend, capacity, [b, a], Sends(a, Completed, b, Completed)))
  {
    BareStored(backend, capacity, a, b);
    var sends := Sends(a, Persisted, b, Persisted);
    BarePublishes(backend, capacity, [b, a], sends, b);
    assert sends[b.id := Send(b, Completed)] == Sends(a, Persisted, b, Completed);
    BarePublishes(backend, capacity, [b, a], Sends(a, Persisted, b, Completed), a);
    assert Sends(a, Persisted, b, Completed)[a.id := Send(a, Completed)] == Sends(a, Completed, b, Completed);
  }

  /** The relational store has nothing since b, and the in-memory one has a. */
  lemma StoresDiffer(a: Message, b: Message)
    requires FromOneToTwo(a, b) && a.timestamp < b.timestamp
    ensures Answers(Relational, [b, a], 2, Some(b.id), []) && Answers(InMemory, [b, a], 2, Some(b.id), [a])
  {
    var log := [b, a];
    assert log[0] == b;
    TimestampOfKnown(log, 0);
    AfterKnown(log, 0);
    assert log[1..] == [a];
    assert Inbox([a], 2) == [a];
  }

  lemma RegistersBare(s: State, id: MessageId)
    requires Shaped(s) && s == Bare(s.backend, s.capacity, s.log, s.sends) && NobodyPublishes(s)
    ensures Enabled(s, Register(2, Some(id)))
    ensures var t := Apply(s, Register(2, Some(id)));
            && Shaped(t) && t.backend == s.backend && t.log == s.log && t.sends == s.sends
            && |t.subs| == 1 && t.channels == [Channel(2, [])]
            && t.subs[0].user == 2 && t.subs[0].start == Some(id) && t.subs[0].progress.Registered?
            && t.subs[0].channel == 0 && t.subs[0].joined == t.subs[0].next == 0
            && forall m | SendIs(s, m, Completed) && Involves(s.sends[m].message, 2) :: m in t.subs[0].publishedBefore
  {
  }

  lemma OpensBare(t: State, history: seq<Message>)
    requires Shaped(t) && |t.subs| == 1 && t.channels == [Channel(2, [])] && t.subs[0].progress.Registered?
    requires t.subs[0].channel == 0 && t.subs[0].joined == t.subs[0].next == 0 && t.subs[0].start.Some?
    requires Answers(t.backend, t.log, t.subs[0].user, t.subs[0].start, history)
    ensures Enabled(t, OpenStream(0, history))
    ensures var u := Apply(t, OpenStream(0, history)); IsStreaming(u, 0) && (history == [] ==> Drained(u, 0))
  {
  }

  lemma SubscribesBare(s: State, id: MessageId, history: seq<Message>) returns (t: State)
    requires Reachable(s) && s == Bare(s.backend, s.capacity, s.log, s.sends)
    requires NobodyPublishes(s) && Answers(s.backend, s.log, 2, Some(id), history)
    ensures Reachable(t) && t.backend == s.backend && t.log == s.log && t.sends == s.sends && |t.subs| == 1
    ensures t.subs[0].user == 2 && t.subs[0].start == Some(id) && IsStreaming(t, 0)
    ensures history == [] ==> Drained(t, 0)
    ensures forall m | SendIs(s, m, Completed) && Involves(s.sends[m].message, 2) :: m in t.subs[0].publishedBefore
  {
    assert Shaped(s) by {
      ReachableInv(s);
    }
    RegistersBare(s, id);
    var r := Apply(s, Register(2, Some(id)));
    OpensBare(r, history);
    t := Apply(r, OpenStream(0, history));
    Onward(s, Register(2, Some(id)), OpenStream(0, history));
  }

  /**
   * A message whose timestamp was chosen first can be stored last. From the one stored before it, the
   * relational store's history leaves it out, and a subscription that starts there never gets it,
   * although it was stored after the starting point, published completely and not cut short.
   */
  lemma LateStoredIsLeftOut(capacity: nat, a: Message, b: Message) returns (t: State)
    requires capacity >= 1 && FromOneToTwo(a, b) && a.timestamp < b.timestamp
    ensures Reachable(t) && t.backend == Relational && t.log == [b, a] && Drained(t, 0)
    ensures t.subs[0].user == 2 && t.subs[0].start == Some(b.id)
    ensures SendIs(t, a.id, Completed) && SendIs(t, b.id, Completed)
    ensures forall steps | Legal(t, steps) && 0 < |Run(t, steps).subs| :: a !in Run(t, steps).subs[0].pipe.delivered
  {
    BarePublished(Relational, capacity, a, b);
    StoresDiffer(a, b);
    t := SubscribesBare(Bare(Relational, capacity, [b, a], Sends(a, Completed, b, Completed)), b.id, []);
    assert t.log[0] == b && t.log[1] == a;
    forall steps | Legal(t, steps) && 0 < |Run(t, steps).subs|
      ensures a !in Run(t, steps).subs[0].pipe.delivered
    {
      LeftOutForGood(t, steps, a, b);
    }
  }

  lemma LeftOutForGood(t: State, steps: seq<Step>, a: Message, b: Message)
    requires Reachable(t) && t.backend == Relational && t.log == [b, a] && a.timestamp < b.timestamp && |t.subs| == 1
    requires t.subs[0].start == Some(b.id) && a.id in t.subs[0].publishedBefore && Legal(t, steps)
    ensures 0 < |Run(t, steps).subs| && a !in Run(t, steps).subs[0].pipe.delivered
  {
    ReachableInv(t);
    RunKeepsSub(t, steps, 0);
    RunKeepsInv(t, steps);
    RunKeepsLog(t, steps);
    var u := Run(t, steps);
    assert u.log[0] == t.log[0] == b && u.log[1] == t.log[1] == a;
    assert !StandsAfter(u, 0, 1);
    PublishedBeforeIsGone(u, 0, 1);
  }
}
