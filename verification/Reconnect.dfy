/**
 * A client that keeps reconnecting with the id of the last event it received, against a server on
 * which every send that involves the client's user stores and publishes its message without another
 * step in between. Other sends, and everything else, interleave freely.
 */
module Reconnect {
  import opened Wrappers
  import opened Messages
  import opened Histories
  import opened Pipelines
  import opened Delivery
  import opened DeliveryInvariants
  import opened DeliveryTheorems

  datatype Client = Client(
    user: UserId,
    first: Option<MessageId>, // the starting point of the first connection
    received: seq<Message>,   // everything received, over all connections
    connection: Option<nat>,  // the current subscription
    base: nat,                // how much had been received before it
    resume: nat,              // the log position its starting point stands for
    origin: nat)              // the log position from which the client is owed messages

  datatype World = World(server: State, client: Client)

  datatype WorldStep =
    | SendNow(message: Message)
    | Serve(step: Step)
    | Connect
    | ReceiveEvent

  function InitWorld(backend: Backend, capacity: nat, user: UserId, first: Option<MessageId>): World {
    World(Init(backend, capacity), Client(user, first, [], None, 0, 0, 0))
  }

  /** A step of a send whose message does not involve the user, or no step of a send. */
  ghost predicate LeavesAlone(s: State, step: Step, user: UserId) {
    match step
    case Create(m) => !Involves(m, user)
    case Persist(id) => id in s.sends && !Involves(s.sends[id].message, user)
    case FailToPersist(id) => id in s.sends && !Involves(s.sends[id].message, user)
    case PublishToSender(id) => id in s.sends && !Involves(s.sends[id].message, user)
    case PublishToReceiver(id) => id in s.sends && !Involves(s.sends[id].message, user)
    case _ => true
  }

  /** The starting point with which the client connects: the header of the last event, else its parameter. */
  function StartingPoint(c: Client): Option<MessageId> {
    if c.received != [] then Some(c.received[|c.received| - 1].id) else c.first
  }

  function PositionAfter(log: seq<Message>, start: Option<MessageId>): nat {
    match start
    case None => |log|
    case Some(id) => |log| - |After(log, id)|
  }

  function Stores(s: State, m: Message): State {
    s.(log := s.log + [m], sends := s.sends[m.id := Send(m, Persisted)])
  }

  ghost function SendNowStep(s: State, m: Message): State
    requires Shaped(s)
  {
    var offered := PublishToSenderStep(Stores(s, m), m.id);
    if offered.sends[m.id].phase.CutShort? then offered else PublishToReceiverStep(offered, m.id)
  }

  ghost predicate CanHappen(w: World, step: WorldStep) {
    && Shaped(w.server)
    && match step
       case SendNow(m) => m.id !in w.server.sends
       case Serve(st) => LeavesAlone(w.server, st, w.client.user) && Enabled(w.server, st)
       case Connect =>
         && NobodyPublishes(w.server)
         && (w.client.received == [] ==> KnownOrAbsent(w.server.log, w.client.first))
       case ReceiveEvent =>
         && w.client.connection.Some? && w.client.connection.value < |w.server.subs|
         && w.client.base <= |w.client.received|
            < w.client.base + |w.server.subs[w.client.connection.value].pipe.delivered|
  }

  ghost function Happen(w: World, step: WorldStep): World
    requires CanHappen(w, step)
  {
    var s, c := w.server, w.client;
    match step
    case SendNow(m) => World(SendNowStep(s, m), c)
    case Serve(st) => World(Apply(s, st), c)
    case Connect =>
      var start := StartingPoint(c);
      var position := PositionAfter(s.log, start);
      World(RegisterStep(s, c.user, start),
            c.(connection := Some(|s.subs|), base := |c.received|, resume := position,
               origin := if c.received == [] then position else c.origin))
    case ReceiveEvent =>
      var delivered := s.subs[c.connection.value].pipe.delivered;
      World(s, c.(received := c.received + [delivered[|c.received| - c.base]]))
  }

  ghost predicate CanRun(w: World, steps: seq<WorldStep>)
    decreases |steps|
  {
    steps != [] ==> CanHappen(w, steps[0]) && CanRun(Happen(w, steps[0]), steps[1..])
  }

  ghost function RunWorld(w: World, steps: seq<WorldStep>): World
    requires CanRun(w, steps)
    decreases |steps|
  {
    if steps == [] then w else RunWorld(Happen(w, steps[0]), steps[1..])
  }

  /**
   * Around the client everything can happen that the server allows: every step that is not one of a send,
   * every step of a send between others, and any new message as an uninterrupted send.
   */
  lemma AnythingElseCanHappen(w: World, step: Step, m: Message)
    requires Enabled(w.server, step)
    ensures !step.Create? && !step.Persist? && !step.FailToPersist? && !step.PublishToSender? && !step.PublishToReceiver? ==>
              CanHappen(w, Serve(step))
    ensures step.Create? && w.client.user !in {step.message.from, step.message.to} ==> CanHappen(w, Serve(step))
    ensures step.Persist? || step.FailToPersist? || step.PublishToSender? || step.PublishToReceiver? ==>
              var sent := w.server.sends[step.id].message;
              w.client.user !in {sent.from, sent.to} ==> CanHappen(w, Serve(step))
    ensures m.id !in w.server.sends ==> CanHappen(w, SendNow(m))
  {
  }

  // An atomic send is a run of the general system

  lemma StoresIsRun(s: State, m: Message)
    requires Inv(s) && m.id !in s.sends
    ensures Legal(s, [Create(m), Persist(m.id)]) && Run(s, [Create(m), Persist(m.id)]) == Stores(s, m)
    ensures Inv(Stores(s, m)) && SendIs(Stores(s, m), m.id, Persisted)
  {
    var s1 := Apply(s, Create(m));
    StepInv(s, Create(m));
    StepInv(s1, Persist(m.id));
    assert Apply(s1, Persist(m.id)) == Stores(s, m);
    RunTwo(s, Create(m), Persist(m.id));
  }

  lemma OffersAreRun(s: State, id: MessageId) returns (steps: seq<Step>)
    requires Inv(s) && SendIs(s, id, Persisted)
    ensures var offered := PublishToSenderStep(s, id);
            && Inv(offered) && id in offered.sends
            && Legal(s, steps)
            && Run(s, steps) == if offered.sends[id].phase.CutShort? then offered else PublishToReceiverStep(offered, id)
    ensures Inv(Run(s, steps))
  {
    var offered := Apply(s, PublishToSender(id));
    StepInv(s, PublishToSender(id));
    if offered.sends[id].phase.CutShort? {
      steps := [PublishToSender(id)];
      RunOne(s, PublishToSender(id));
    } else {
      steps := [PublishToSender(id), PublishToReceiver(id)];
      StepInv(offered, PublishToReceiver(id));
      RunTwo(s, PublishToSender(id), PublishToReceiver(id));
    }
  }

  lemma SendNowIsRun(s: State, m: Message) returns (steps: seq<Step>)
    requires Inv(s) && m.id !in s.sends
    ensures Legal(s, steps) && Run(s, steps) == SendNowStep(s, m)
    ensures Inv(Stores(s, m)) && Inv(PublishToSenderStep(Stores(s, m), m.id)) && Inv(SendNowStep(s, m))
  {
    StoresIsRun(s, m);
    var offers := OffersAreRun(Stores(s, m), m.id);
    RunConcat(s, [Create(m), Persist(m.id)], offers);
    steps := [Create(m), Persist(m.id)] + offers;
  }

  // Channels carry the log

  /** No message from somebody else to this user has been cut short at its sender's channel. */
  ghost predicate NoneSkipped(s: State, user: UserId) {
    forall id | id in s.sends && s.sends[id].phase.CutShort? && s.sends[id].message.to == user ::
      s.sends[id].message.from == user
  }

  function Arrivals(s: State, sub: Subscription): seq<Message>
    requires sub.storedBefore <= |s.log|
  {
    Inbox(s.log[sub.storedBefore..], sub.user)
  }

  /** A live receiver's channel repeats the user's part of the log, in order. */
  ghost predicate InStep(s: State, sub: Subscription)
    requires SubShaped(s, sub) && sub.storedBefore <= |s.log|
  {
    var sent := s.channels[sub.channel].sent;
    && sent[sub.joined..sub.next] <= Arrivals(s, sub)
    && (Attached(sub) ==> sent[sub.joined..] == Arrivals(s, sub))
  }

  ghost predicate ServerInv(s: State, user: UserId) {
    && Inv(s)
    && (NoneSkipped(s, user) ==>
          forall i | 0 <= i < |s.subs| && s.subs[i].user == user ::
            SubShaped(s, s.subs[i]) && s.subs[i].storedBefore <= |s.log| && InStep(s, s.subs[i]))
  }

  lemma OfferToSenderReaches(s: State, id: MessageId, i: nat)
    requires Inv(s) && SendIs(s, id, Persisted) && i < |s.subs| && Attached(s.subs[i])
    ensures var t := PublishToSenderStep(s, id);
            var sub, m := s.subs[i], s.sends[id].message;
            && t.subs == s.subs && id in t.sends && t.sends[id].message == m
            && sub.channel < |t.channels|
            && t.channels[sub.channel].sent == s.channels[sub.channel].sent + (if m.from == sub.user then [m] else [])
            && (t.sends[id].phase.CutShort? ==> m.from != sub.user)
  {
  }

  lemma OfferToReceiverReaches(s: State, id: MessageId, i: nat)
    requires Inv(s) && SendIs(s, id, Publishing) && i < |s.subs| && Attached(s.subs[i])
    ensures var t := PublishToReceiverStep(s, id);
            var sub, m := s.subs[i], s.sends[id].message;
            && sub.channel < |t.channels|
            && t.channels[sub.channel].sent
               == s.channels[sub.channel].sent + (if m.from != m.to && m.to == sub.user then [m] else [])
  {
  }

  /** What an atomic send adds to the channel of a live receiver. */
  lemma SendNowReaches(s: State, m: Message, i: nat)
    requires Inv(s) && m.id !in s.sends && i < |s.subs| && Attached(s.subs[i])
    requires Inv(Stores(s, m)) && Inv(PublishToSenderStep(Stores(s, m), m.id))
    requires NoneSkipped(SendNowStep(s, m), s.subs[i].user)
    ensures var t := SendNowStep(s, m);
            var sub := s.subs[i];
            && sub.channel < |s.channels| && sub.channel < |t.channels|
            && t.channels[sub.channel].sent
               == s.channels[sub.channel].sent + (if Involves(m, sub.user) then [m] else [])
  {
    var s2 := Stores(s, m);
    var s3 := PublishToSenderStep(s2, m.id);
    OfferToSenderReaches(s2, m.id, i);
    assert s3.sends[m.id].phase.Publishing? || s3.sends[m.id].phase.CutShort?;
    if s3.sends[m.id].phase.CutShort? {
      assert !Involves(m, s.subs[i].user);
    } else {
      OfferToReceiverReaches(s3, m.id, i);
    }
  }

  ghost predicate OnlySendChanges(s: State, t: State, id: MessageId) {
    && t.backend == s.backend && t.sends.Keys == s.sends.Keys + {id}
    && forall id' | id' in s.sends && id' != id :: t.sends[id'] == s.sends[id']
  }

  lemma SendNowKeepsInStep(s: State, m: Message, i: nat)
    requires Inv(s) && m.id !in s.sends && i < |s.subs|
    requires s.subs[i].storedBefore <= |s.log| && InStep(s, s.subs[i])
    requires NoneSkipped(SendNowStep(s, m), s.subs[i].user)
    ensures var t := SendNowStep(s, m);
            SubShaped(t, s.subs[i]) && s.subs[i].storedBefore <= |t.log| && InStep(t, s.subs[i])
  {
    var steps := SendNowIsRun(s, m);
    SendNowShape(s, m);
    var t, sub := SendNowStep(s, m), s.subs[i];
    assert SubShaped(t, sub) by {
      assert SubInv(t, t.subs[i]);
    }
    if Attached(sub) {
      SendNowReaches(s, m, i);
    }
    SendNowInStep(s, t, m, sub);
  }

  lemma SendNowKeepsServerInv(s: State, user: UserId, m: Message)
    requires ServerInv(s, user) && m.id !in s.sends
    ensures var t := SendNowStep(s, m);
            && ServerInv(t, user) && t.log == s.log + [m] && t.subs == s.subs && t.backend == s.backend
            && (NoneSkipped(t, user) ==> NoneSkipped(s, user))
  {
    var t := SendNowStep(s, m);
    var steps := SendNowIsRun(s, m);
    SendNowShape(s, m);
    assert forall id | id in s.sends :: id in t.sends && t.sends[id] == s.sends[id];
    if NoneSkipped(t, user) {
      forall i | 0 <= i < |t.subs| && t.subs[i].user == user
        ensures SubShaped(t, t.subs[i]) && t.subs[i].storedBefore <= |t.log| && InStep(t, t.subs[i])
      {
        SendNowKeepsInStep(s, m, i);
      }
    }
  }

  lemma OfferToSenderShape(s: State, id: MessageId)
    requires Shaped(s) && id in s.sends
    ensures Shaped(PublishToSenderStep(s, id)) && OfferChanges(s, PublishToSenderStep(s, id), id)
    ensures id in PublishToSenderStep(s, id).sends
  {
  }

  lemma OfferToReceiverShape(s: State, id: MessageId)
    requires Shaped(s) && id in s.sends
    ensures OfferChanges(s, PublishToReceiverStep(s, id), id)
    ensures PublishToReceiverStep(s, id).sends[id].phase == Completed
  {
  }

  ghost predicate OfferChanges(s: State, t: State, id: MessageId) {
    && t.backend == s.backend && t.log == s.log && t.subs == s.subs && |t.channels| == |s.channels|
    && t.sends.Keys == s.sends.Keys
    && (forall id' | id' in s.sends && id' != id :: t.sends[id'] == s.sends[id'])
    && forall c | 0 <= c < |s.channels| :: s.channels[c].sent <= t.channels[c].sent
  }

  lemma OfferChangesCompose(s: State, t: State, u: State, id: MessageId)
    requires OfferChanges(s, t, id) && OfferChanges(t, u, id)
    ensures OfferChanges(s, u, id)
  {
  }

  lemma OffersShape(s: State, id: MessageId)
    requires Shaped(s) && id in s.sends
    ensures var offered := PublishToSenderStep(s, id);
            var t := if offered.sends[id].phase.CutShort? then offered else PublishToReceiverStep(offered, id);
            OfferChanges(s, t, id)
  {
    var offered := PublishToSenderStep(s, id);
    OfferToSenderShape(s, id);
    if !offered.sends[id].phase.CutShort? {
      OfferToReceiverShape(offered, id);
      OfferChangesCompose(s, offered, PublishToReceiverStep(offered, id), id);
    }
  }

  lemma SendNowShape(s: State, m: Message)
    requires Shaped(s) && m.id !in s.sends
    ensures var t := SendNowStep(s, m); t.log == s.log + [m] && t.subs == s.subs && OnlySendChanges(s, t, m.id)
    ensures forall c | 0 <= c < |s.channels| ::
              c < |SendNowStep(s, m).channels| && s.channels[c].sent <= SendNowStep(s, m).channels[c].sent
  {
    var s2 := Stores(s, m);
    OffersShape(s2, m.id);
    var t := SendNowStep(s, m);
    assert OfferChanges(s2, t, m.id);
    assert s2.channels == s.channels;
  }

  lemma SendNowInStep(s: State, t: State, m: Message, sub: Subscription)
    requires SubShaped(s, sub) && sub.storedBefore <= |s.log| && InStep(s, sub)
    requires SubShaped(t, sub) && t.log == s.log + [m]
    requires s.channels[sub.channel].sent <= t.channels[sub.channel].sent
    requires Attached(sub) ==>
               t.channels[sub.channel].sent
               == s.channels[sub.channel].sent + (if Involves(m, sub.user) then [m] else [])
    ensures InStep(t, sub)
  {
    var before, after := s.channels[sub.channel].sent, t.channels[sub.channel].sent;
    var more := if Involves(m, sub.user) then [m] else [];
    assert t.log[sub.storedBefore..] == s.log[sub.storedBefore..] + [m];
    InboxConcat(s.log[sub.storedBefore..], [m], sub.user);
    assert Inbox([m], sub.user) == more;
    assert Arrivals(t, sub) == Arrivals(s, sub) + more;
    assert after[sub.joined..sub.next] == before[sub.joined..sub.next];
    if Attached(sub) {
      assert after[sub.joined..] == before[sub.joined..] + more;
    }
  }

  // Steps that leave the user's messages alone

  lemma ServeKeepsInbox(s: State, step: Step, user: UserId, from: nat)
    requires Inv(s) && LeavesAlone(s, step, user) && Enabled(s, step) && from <= |s.log|
    ensures var t := Apply(s, step); s.log <= t.log && Inbox(t.log[from..], user) == Inbox(s.log[from..], user)
  {
    var t := Apply(s, step);
    if step.Persist? {
      var m := s.sends[step.id].message;
      assert t.log[from..] == s.log[from..] + [m];
      InboxConcat(s.log[from..], [m], user);
      assert Inbox([m], user) == [];
    }
  }

  lemma NewSubInStep(s: State, user: UserId, start: Option<MessageId>)
    requires Shaped(s)
    ensures var t := RegisterStep(s, user, start);
            var sub := t.subs[|s.subs|];
            sub.channel < |t.channels| && sub.storedBefore <= |t.log| && (SubShaped(t, sub) ==> InStep(t, sub))
  {
  }

  lemma StepKeepsNoneSkipped(s: State, step: Step, user: UserId)
    requires Inv(s) && Enabled(s, step) && NoneSkipped(Apply(s, step), user)
    ensures NoneSkipped(s, user)
  {
    StepKeepsInv(s, step);
    var t := Apply(s, step);
    assert forall id | id in s.sends :: id in t.sends && SendEvolves(s.sends[id], t.sends[id]);
  }

  lemma SubsOnlyGrow(s: State, step: Step)
    requires Enabled(s, step)
    ensures var t := Apply(s, step);
            t.backend == s.backend && |t.subs| == |s.subs| + if step.Register? then 1 else 0
  {
  }

  lemma ServeKeepsServerInv(s: State, user: UserId, step: Step)
    requires ServerInv(s, user) && LeavesAlone(s, step, user) && Enabled(s, step)
    ensures var t := Apply(s, step);
            ServerInv(t, user) && s.log <= t.log && (NoneSkipped(t, user) ==> NoneSkipped(s, user))
  {
    var t := Apply(s, step);
    StepInv(s, step);
    SubsOnlyGrow(s, step);
    ServeKeepsInbox(s, step, user, |s.log|);
    if NoneSkipped(t, user) {
      StepKeepsNoneSkipped(s, step, user);
      forall i | 0 <= i < |t.subs| && t.subs[i].user == user
        ensures SubShaped(t, t.subs[i]) && t.subs[i].storedBefore <= |t.log| && InStep(t, t.subs[i])
      {
        if i < |s.subs| {
          StepKeepsSubscription(s, step, i);
          ServeInStep(s, step, i);
        } else {
          assert SubShaped(t, t.subs[i]);
          NewSubInStep(s, step.user, step.start);
        }
      }
    }
  }

  lemma StaysInStep(s: State, t: State, before: Subscription, after: Subscription)
    requires SubShaped(s, before) && before.storedBefore <= |s.log| && InStep(s, before)
    requires SubShaped(t, after) && SameSubscription(before, after) && after.storedBefore <= |t.log|
    requires Arrivals(t, after) == Arrivals(s, before)
    requires t.channels[after.channel].sent == s.channels[before.channel].sent
    requires after.next != before.next ==> Attached(before)
    requires Attached(after) ==> Attached(before)
    ensures InStep(t, after)
  {
  }

  lemma ServeInStep(s: State, step: Step, i: nat)
    requires Inv(s) && i < |s.subs| && LeavesAlone(s, step, s.subs[i].user) && Enabled(s, step) && Inv(Apply(s, step))
    requires s.subs[i].storedBefore <= |s.log| && InStep(s, s.subs[i])
    ensures var t := Apply(s, step);
            i < |t.subs| && SubShaped(t, t.subs[i]) && t.subs[i].storedBefore <= |t.log| && InStep(t, t.subs[i])
  {
    var t := Apply(s, step);
    StepKeepsSubscription(s, step, i);
    ChannelUntouched(s, step, i);
    ServeKeepsInbox(s, step, s.subs[i].user, s.subs[i].storedBefore);
    assert SubShaped(t, t.subs[i]) by {
      assert SubInv(t, t.subs[i]);
    }
    StaysInStep(s, t, s.subs[i], t.subs[i]);
  }

  lemma ChannelUntouched(s: State, step: Step, i: nat)
    requires Inv(s) && i < |s.subs| && LeavesAlone(s, step, s.subs[i].user) && Enabled(s, step)
    ensures var t := Apply(s, step);
            var c := s.subs[i].channel;
            c < |s.channels| && c < |t.channels| && t.channels[c].sent == s.channels[c].sent
  {
  }

  lemma StepKeepsSubscription(s: State, step: Step, i: nat)
    requires Inv(s) && Enabled(s, step) && i < |s.subs|
    ensures var t := Apply(s, step);
            && i < |t.subs| && SameSubscription(s.subs[i], t.subs[i])
            && s.subs[i].pipe.delivered <= t.subs[i].pipe.delivered
            && (t.subs[i].next != s.subs[i].next ==> Attached(s.subs[i]))
            && (Attached(t.subs[i]) ==> Attached(s.subs[i]))
  {
    assert Flows(s, s.subs[i]) by {
      assert SubInv(s, s.subs[i]);
    }
    StepChangesOnlyItsSub(s, step, i);
    match step {
      case Pump(j, pipeStep) =>
        if j == i {
          PipeStepDelivers(s.subs[i].pipe, pipeStep);
        }
      case Lag(j) =>
        if j == i {
          PipeStepDelivers(s.subs[i].pipe, SourceEnds);
        }
      case SeeChannelClosed(j) =>
        if j == i {
          assert false;
        }
      case Receive(j) =>
        if j == i {
          var m := s.channels[s.subs[i].channel].sent[s.subs[i].next];
          if m.id !in Ids(s.subs[i].history) {
            PipeStepDelivers(s.subs[i].pipe, Accept(m));
          }
        }
      case _ =>
    }
  }

  lemma PipeStepDelivers<T(!new)>(p: Pipeline<T>, step: PipeStep<T>)
    requires CanStep(p, step)
    ensures p.delivered <= StepPipe(p, step).delivered
    ensures StepPipe(p, step).running[0] ==> p.running[0]
  {
  }

  lemma StepChangesOnlyItsSub(s: State, step: Step, i: nat)
    requires Enabled(s, step) && i < |s.subs|
    ensures var t := Apply(s, step);
            && i < |t.subs|
            && (t.subs[i] == s.subs[i]
                || (step.OpenStream? && step.sub == i) || step == Abandon(i) || step == Receive(i)
                || step == Lag(i) || step == SeeChannelClosed(i) || (step.Pump? && step.sub == i))
  {
  }

  // What one connection can deliver

  lemma {:induction false} UnsentConcat(a: seq<Message>, b: seq<Message>, known: set<MessageId>)
    ensures Unsent(a + b, known) == Unsent(a, known) + Unsent(b, known)
    decreases |b|
  {
    if b == [] {
      assert a + b == a;
    } else {
      var front, last := b[..|b| - 1], b[|b| - 1];
      assert (a + b)[..|a + b| - 1] == a + front;
      UnsentConcat(a, front, known);
    }
  }

  lemma {:induction false} UnsentAll(sent: seq<Message>, known: set<MessageId>)
    requires forall m | m in sent :: m.id in known
    ensures Unsent(sent, known) == []
  {
    if sent != [] {
      UnsentAll(sent[..|sent| - 1], known);
    }
  }

  lemma {:induction false} UnsentNone(sent: seq<Message>, known: set<MessageId>)
    requires forall m | m in sent :: m.id !in known
    ensures Unsent(sent, known) == sent
  {
    if sent != [] {
      UnsentNone(sent[..|sent| - 1], known);
      assert sent == sent[..|sent| - 1] + [sent[|sent| - 1]];
    }
  }

  lemma LaterIsNotKnown(log: seq<Message>, user: UserId, from: nat, fetched: nat, m: Message)
    requires DistinctIds(log) && from <= fetched <= |log| && m in Inbox(log[fetched..], user)
    ensures m.id !in Ids(Inbox(log[from..fetched], user))
  {
    InboxMembers(log[fetched..], user, m);
    var b :| 0 <= b < |log[fetched..]| && log[fetched..][b] == m;
    forall h | h in Inbox(log[from..fetched], user)
      ensures h.id != m.id
    {
      InboxMembers(log[from..fetched], user, h);
      var a :| 0 <= a < |log[from..fetched]| && log[from..fetched][a] == h;
      assert log[from + a].id != log[fetched + b].id;
    }
  }

  lemma InboxSplit(log: seq<Message>, user: UserId, a: nat, b: nat, c: nat)
    requires a <= b <= c <= |log|
    ensures Inbox(log[a..c], user) == Inbox(log[a..b], user) + Inbox(log[b..c], user)
  {
    assert log[a..c] == log[a..b] + log[b..c];
    InboxConcat(log[a..b], log[b..c], user);
  }

  lemma InboxSplitAt(log: seq<Message>, user: UserId, a: nat, b: nat)
    requires a <= b <= |log|
    ensures Inbox(log[a..], user) == Inbox(log[a..b], user) + Inbox(log[b..], user)
  {
    InboxSplit(log, user, a, b, |log|);
    assert log[a..|log|] == log[a..] && log[b..|log|] == log[b..];
  }

  /** Filtering the user's part of the log against a history that overlaps its beginning leaves the rest. */
  lemma OverlapFiltered(log: seq<Message>, user: UserId, from: nat, stored: nat, fetched: nat)
    requires DistinctIds(log) && from <= stored <= fetched <= |log|
    ensures var history := Inbox(log[from..fetched], user);
            history + Unsent(Inbox(log[stored..], user), Ids(history)) == Inbox(log[from..], user)
  {
    var history := Inbox(log[from..fetched], user);
    var overlap, rest := Inbox(log[stored..fetched], user), Inbox(log[fetched..], user);
    InboxSplitAt(log, user, stored, fetched);
    InboxSplitAt(log, user, from, fetched);
    InboxSplit(log, user, from, stored, fetched);
    UnsentConcat(overlap, rest, Ids(history));
    assert forall m | m in overlap :: m in history;
    UnsentAll(overlap, Ids(history));
    forall m | m in rest
      ensures m.id !in Ids(history)
    {
      LaterIsNotKnown(log, user, from, fetched, m);
    }
    UnsentNone(rest, Ids(history));
    assert Unsent(overlap + rest, Ids(history)) == rest;
  }

  /** The subscription starts from that log position, and did so when it registered. */
  ghost predicate StartsAt(s: State, sub: Subscription, position: nat) {
    && position <= sub.storedBefore <= |s.log|
    && match sub.start
       case None => position == sub.storedBefore
       case Some(id) => position > 0 && s.log[position - 1].id == id
  }

  /** A starting point of the client: its first one, or a message of its own. */
  predicate Marks(m: Message, user: UserId, first: Option<MessageId>) {
    Involves(m, user) || first == Some(m.id)
  }

  /** The store answers by position, or what matters to the client is stored in the order of its timestamps. */
  ghost predicate InDateOrder(s: State, user: UserId, first: Option<MessageId>) {
    || s.backend.InMemory?
    || forall a, b | 0 <= a < b < |s.log| && Marks(s.log[a], user, first) && Marks(s.log[b], user, first) ::
         s.log[a].timestamp < s.log[b].timestamp
  }

  /** Nothing stands in the way of the client's messages. */
  ghost predicate Orderly(s: State, user: UserId, first: Option<MessageId>) {
    NoneSkipped(s, user) && InDateOrder(s, user, first)
  }

  lemma OrderlyBefore(s: State, t: State, user: UserId, first: Option<MessageId>)
    requires s.log <= t.log && s.backend == t.backend && Orderly(t, user, first)
    requires NoneSkipped(t, user) ==> NoneSkipped(s, user)
    ensures Orderly(s, user, first)
  {
  }

  /** A beginning of the log is in order as well, from a starting point of the client on. */
  lemma SeenInOrder(s: State, user: UserId, first: Option<MessageId>, n: nat, p: nat)
    requires InDateOrder(s, user, first) && p < n <= |s.log| && Marks(s.log[p], user, first)
    ensures var seen := s.log[..n];
            s.backend.Relational? ==>
              && (forall q | 0 <= q < p && Involves(seen[q], user) :: seen[q].timestamp < seen[p].timestamp)
              && (forall q | p < q < |seen| && Involves(seen[q], user) :: seen[p].timestamp < seen[q].timestamp)
              && (forall a, b | p < a < b < |seen| && Involves(seen[a], user) && Involves(seen[b], user) ::
                    seen[a].timestamp < seen[b].timestamp)
  {
  }

  lemma HistoryFrom(s: State, i: nat, position: nat, first: Option<MessageId>)
    requires Inv(s) && IsStreaming(s, i) && StartsAt(s, s.subs[i], position)
    requires InDateOrder(s, s.subs[i].user, first)
    requires s.subs[i].start.Some? ==> Marks(s.log[position - 1], s.subs[i].user, first)
    ensures var sub := s.subs[i];
            && sub.storedBefore <= sub.fetched <= |s.log|
            && (sub.start.Some? ==> sub.history == Inbox(s.log[position..sub.fetched], sub.user))
            && (sub.start.None? ==> sub.history == [])
  {
    var sub := s.subs[i];
    assert sub.storedBefore <= sub.fetched <= |s.log| && DistinctIds(s.log)
        && Answers(s.backend, s.log[..sub.fetched], sub.user, sub.start, sub.history) by {
      assert SubInv(s, sub);
    }
    if sub.start.Some? {
      KnownHistory(s, sub.user, first, sub.fetched, position - 1, sub.history);
    }
  }

  lemma KnownHistory(s: State, user: UserId, first: Option<MessageId>, n: nat, p: nat, history: seq<Message>)
    requires InDateOrder(s, user, first) && p < n <= |s.log| && Marks(s.log[p], user, first) && DistinctIds(s.log)
    requires Answers(s.backend, s.log[..n], user, Some(s.log[p].id), history)
    ensures history == Inbox(s.log[p + 1..n], user)
  {
    SeenInOrder(s, user, first, n, p);
    AnswerInOrder(s.backend, s.log[..n], user, p, history);
    assert s.log[..n][p + 1..] == s.log[p + 1..n];
  }

  /** What a connection is due is the user's part of the log after its starting point, or a beginning of it. */
  lemma ConnectionStream(s: State, i: nat, position: nat, first: Option<MessageId>)
    requires IsStreaming(s, i) && StartsAt(s, s.subs[i], position)
    requires ServerInv(s, s.subs[i].user) && Orderly(s, s.subs[i].user, first)
    requires s.subs[i].start.Some? ==> Marks(s.log[position - 1], s.subs[i].user, first)
    ensures var sub := s.subs[i];
            && Stream(s, sub) <= Inbox(s.log[position..], sub.user)
            && (Attached(sub) ==> Due(s, sub) == Inbox(s.log[position..], sub.user))
  {
    var sub := s.subs[i];
    HistoryFrom(s, i, position, first);
    var sent := s.channels[sub.channel].sent;
    var arrivals := Arrivals(s, sub);
    assert sent[sub.joined..sub.next] <= arrivals && (Attached(sub) ==> sent[sub.joined..] == arrivals) by {
      assert InStep(s, sub);
    }
    UnsentPrefix(sent[sub.joined..sub.next], arrivals, Ids(sub.history));
    HistoryThenArrivals(s, sub, position);
  }

  lemma HistoryThenArrivals(s: State, sub: Subscription, position: nat)
    requires DistinctIds(s.log) && StartsAt(s, sub, position) && sub.storedBefore <= sub.fetched <= |s.log|
    requires sub.start.Some? ==> sub.history == Inbox(s.log[position..sub.fetched], sub.user)
    requires sub.start.None? ==> sub.history == []
    ensures sub.history + Unsent(Arrivals(s, sub), Ids(sub.history)) == Inbox(s.log[position..], sub.user)
  {
    if sub.start.Some? {
      OverlapFiltered(s.log, sub.user, position, sub.storedBefore, sub.fetched);
    } else {
      UnsentNone(Arrivals(s, sub), Ids(sub.history));
    }
  }

  // The client

  ghost predicate Connected(s: State, c: Client)
    requires c.base <= |c.received|
  {
    c.connection.Some? ==>
      && c.connection.value < |s.subs|
      && var sub := s.subs[c.connection.value];
         && sub.user == c.user
         && StartsAt(s, sub, c.resume)
         && (sub.start.Some? ==> Marks(s.log[c.resume - 1], c.user, c.first))
         && c.received[c.base..] <= sub.pipe.delivered
  }

  /** What had been received before this connection is the user's part of the log up to its starting point. */
  ghost predicate ClientInv(s: State, c: Client) {
    && c.base <= |c.received| && c.origin <= c.resume <= |s.log|
    && c.received[..c.base] == Inbox(s.log[c.origin..c.resume], c.user)
    && (c.connection.None? ==> c.received == [])
    && Connected(s, c)
  }

  /** What came before the connection and what came on it make up what came in all. */
  lemma JoinReceived(log: seq<Message>, c: Client, delivered: seq<Message>)
    requires c.base <= |c.received| && c.origin <= c.resume <= |log|
    requires c.received[..c.base] == Inbox(log[c.origin..c.resume], c.user)
    requires c.received[c.base..] <= delivered <= Inbox(log[c.resume..], c.user)
    ensures c.received <= Inbox(log[c.origin..], c.user)
    ensures c.received[c.base..] == Inbox(log[c.resume..], c.user) ==> c.received == Inbox(log[c.origin..], c.user)
  {
    assert c.received == c.received[..c.base] + c.received[c.base..];
    InboxSplitAt(log, c.user, c.origin, c.resume);
  }

  lemma ReceivedIsPrefix(w: World)
    requires ServerInv(w.server, w.client.user) && Orderly(w.server, w.client.user, w.client.first)
    requires ClientInv(w.server, w.client)
    ensures w.client.received <= Inbox(w.server.log[w.client.origin..], w.client.user)
  {
    var s, c := w.server, w.client;
    if c.connection.Some? {
      DeliveredIsPrefix(s, c.connection.value, c.resume, c.first);
      JoinReceived(s.log, c, s.subs[c.connection.value].pipe.delivered);
    }
  }

  lemma DeliveredIsPrefix(s: State, i: nat, position: nat, first: Option<MessageId>)
    requires i < |s.subs| && ServerInv(s, s.subs[i].user) && Orderly(s, s.subs[i].user, first)
    requires StartsAt(s, s.subs[i], position)
    requires s.subs[i].start.Some? ==> Marks(s.log[position - 1], s.subs[i].user, first)
    ensures s.subs[i].pipe.delivered <= Inbox(s.log[position..], s.subs[i].user)
  {
    assert SubInv(s, s.subs[i]);
    if s.subs[i].progress.Streaming? {
      ConnectionStream(s, i, position, first);
    } else {
      NotStreamingDeliversNothing(s, i);
    }
  }

  lemma NotStreamingDeliversNothing(s: State, i: nat)
    requires Inv(s) && i < |s.subs| && !s.subs[i].progress.Streaming?
    ensures s.subs[i].pipe.delivered == []
  {
  }

  /** Where the k-th message of the user stands in the log. */
  lemma {:induction false} InboxPosition(log: seq<Message>, user: UserId, k: nat) returns (p: nat)
    requires k < |Inbox(log, user)|
    ensures p < |log| && log[p] == Inbox(log, user)[k] && Inbox(log[..p], user) == Inbox(log, user)[..k]
  {
    var head := if Involves(log[0], user) then [log[0]] else [];
    if k < |head| {
      p := 0;
    } else {
      var q := InboxPosition(log[1..], user, k - |head|);
      p := q + 1;
      assert log[..p][1..] == log[1..][..q];
      assert Inbox(log, user)[..k] == head + Inbox(log[1..], user)[..k - |head|];
    }
  }

  /** A beginning of the user's part of a log ends at a position of the log. */
  lemma PrefixEndsAt(log: seq<Message>, user: UserId, r: seq<Message>) returns (p: nat)
    requires r <= Inbox(log, user) && r != []
    ensures p < |log| && log[p] == r[|r| - 1] && Inbox(log[..p + 1], user) == r
  {
    var k := |r| - 1;
    p := InboxPosition(log, user, k);
    InboxMembers(log, user, log[p]);
    InboxConcat(log[..p], [log[p]], user);
    assert Inbox([log[p]], user) == [log[p]];
    assert log[..p + 1] == log[..p] + [log[p]];
    assert r == Inbox(log, user)[..k] + [r[k]];
  }

  /** The last message of a beginning of the user's part of the log marks the position where it ends. */
  lemma ResumePosition(log: seq<Message>, user: UserId, origin: nat, received: seq<Message>)
    requires DistinctIds(log) && origin <= |log| && received != [] && received <= Inbox(log[origin..], user)
    ensures var start := Some(received[|received| - 1].id);
            var position := PositionAfter(log, start);
            && origin <= position <= |log| && position > 0
            && log[position - 1] == received[|received| - 1] && Involves(log[position - 1], user)
            && received == Inbox(log[origin..position], user)
  {
    var p := PrefixEndsAt(log[origin..], user, received);
    assert log[origin + p] == received[|received| - 1];
    AfterKnown(log, origin + p);
    assert log[origin..][..p + 1] == log[origin..origin + p + 1];
    InboxMembers(log[origin..], user, received[|received| - 1]);
  }

  lemma ConnectPosition(w: World)
    requires ServerInv(w.server, w.client.user) && Orderly(w.server, w.client.user, w.client.first)
    requires ClientInv(w.server, w.client)
    requires CanHappen(w, Connect)
    ensures var s, c := w.server, w.client;
            var start := StartingPoint(c);
            var position := PositionAfter(s.log, start);
            && position <= |s.log|
            && (start.Some? ==> && position > 0 && s.log[position - 1].id == start.value
                                && Marks(s.log[position - 1], c.user, c.first))
            && (c.received != [] ==> c.origin <= position && c.received == Inbox(s.log[c.origin..position], c.user))
  {
    var s, c := w.server, w.client;
    assert DistinctIds(s.log);
    if c.received != [] {
      ReceivedIsPrefix(w);
      ResumePosition(s.log, c.user, c.origin, c.received);
      assert Marks(s.log[PositionAfter(s.log, StartingPoint(c)) - 1], c.user, c.first);
    } else if c.first.Some? {
      KnownPosition(s.log, c.first.value);
    }
  }

  lemma KnownPosition(log: seq<Message>, id: MessageId)
    requires DistinctIds(log) && exists p :: 0 <= p < |log| && log[p].id == id
    ensures 0 < PositionAfter(log, Some(id)) <= |log| && log[PositionAfter(log, Some(id)) - 1].id == id
  {
    var p :| 0 <= p < |log| && log[p].id == id;
    AfterKnown(log, p);
  }

  lemma RegisterAdds(s: State, user: UserId, start: Option<MessageId>)
    requires Shaped(s)
    ensures var t := RegisterStep(s, user, start);
            && t.backend == s.backend && t.log == s.log && |t.subs| == |s.subs| + 1
            && var sub := t.subs[|s.subs|];
               sub.user == user && sub.start == start && sub.storedBefore == |s.log|
  {
  }

  /** A client that has just connected, and has received nothing on the new connection. */
  lemma JustConnected(s: State, c: Client)
    requires c.connection.Some? && c.connection.value < |s.subs| && s.subs[c.connection.value].user == c.user
    requires StartsAt(s, s.subs[c.connection.value], c.resume)
    requires s.subs[c.connection.value].start.Some? ==> Marks(s.log[c.resume - 1], c.user, c.first)
    requires c.base == |c.received| && c.origin <= c.resume <= |s.log|
    requires c.received == Inbox(s.log[c.origin..c.resume], c.user)
    ensures ClientInv(s, c)
  {
  }

  lemma ConnectsClient(s: State, t: State, c: Client, position: nat)
    requires t.log == s.log && |t.subs| == |s.subs| + 1 && position <= |s.log| && c.origin <= |s.log|
    requires var sub := t.subs[|s.subs|];
             sub.user == c.user && sub.start == StartingPoint(c) && StartsAt(t, sub, position)
             && (sub.start.Some? ==> Marks(s.log[position - 1], c.user, c.first))
    requires c.received != [] ==> c.origin <= position && c.received == Inbox(s.log[c.origin..position], c.user)
    ensures ClientInv(t, c.(connection := Some(|s.subs|), base := |c.received|, resume := position,
                            origin := if c.received == [] then position else c.origin))
  {
  }

  lemma RegisteredStartsAt(s: State, user: UserId, start: Option<MessageId>, position: nat)
    requires Shaped(s) && position <= |s.log| && (start.None? ==> position == |s.log|)
    requires start.Some? ==> position > 0 && s.log[position - 1].id == start.value
    ensures var t := RegisterStep(s, user, start);
            |t.subs| == |s.subs| + 1 && StartsAt(t, t.subs[|s.subs|], position)
  {
  }

  lemma ConnectKeepsClientInv(w: World)
    requires ServerInv(w.server, w.client.user) && Orderly(w.server, w.client.user, w.client.first)
    requires ClientInv(w.server, w.client) && CanHappen(w, Connect)
    ensures ClientInv(Happen(w, Connect).server, Happen(w, Connect).client)
  {
    var s, c := w.server, w.client;
    var start := StartingPoint(c);
    var position := PositionAfter(s.log, start);
    ConnectPosition(w);
    RegisterAdds(s, c.user, start);
    RegisteredStartsAt(s, c.user, start, position);
    ConnectsClient(s, RegisterStep(s, c.user, start), c, position);
  }

  lemma EmptyInbox(log: seq<Message>, user: UserId, position: nat)
    requires position <= |log|
    ensures Inbox(log[position..position], user) == []
  {
  }

  /** A client that began from a known message is owed what follows it. */
  ghost predicate Pinned(s: State, c: Client) {
    && (c.connection.None? ==> c.received == [])
    && (c.connection.Some? && c.first.Some? ==> Follows(s.log, c.first.value, c.origin))
  }

  ghost predicate Follows(log: seq<Message>, id: MessageId, position: nat) {
    0 < position <= |log| && log[position - 1].id == id
  }

  ghost predicate WorldInv(w: World) {
    && ServerInv(w.server, w.client.user) && Pinned(w.server, w.client)
    && (Orderly(w.server, w.client.user, w.client.first) ==> ClientInv(w.server, w.client))
  }

  lemma LogGrowthKeepsClientInv(s: State, t: State, c: Client)
    requires ClientInv(s, c) && s.log <= t.log
    requires c.connection.Some? ==>
               && c.connection.value < |t.subs|
               && SameSubscription(s.subs[c.connection.value], t.subs[c.connection.value])
               && s.subs[c.connection.value].pipe.delivered <= t.subs[c.connection.value].pipe.delivered
    ensures ClientInv(t, c)
  {
    assert t.log[c.origin..c.resume] == s.log[c.origin..c.resume];
  }

  lemma SendNowKeepsWorldInv(w: World, m: Message)
    requires WorldInv(w) && CanHappen(w, SendNow(m))
    ensures WorldInv(Happen(w, SendNow(m)))
  {
    var t := Happen(w, SendNow(m));
    SendNowKeepsServerInv(w.server, w.client.user, m);
    if Orderly(t.server, w.client.user, w.client.first) {
      OrderlyBefore(w.server, t.server, w.client.user, w.client.first);
      LogGrowthKeepsClientInv(w.server, t.server, w.client);
    }
  }

  lemma ServeKeepsWorldInv(w: World, st: Step)
    requires WorldInv(w) && CanHappen(w, Serve(st))
    ensures WorldInv(Happen(w, Serve(st)))
  {
    var t := Happen(w, Serve(st));
    ServeKeepsServerInv(w.server, w.client.user, st);
    SubsOnlyGrow(w.server, st);
    if Orderly(t.server, w.client.user, w.client.first) {
      OrderlyBefore(w.server, t.server, w.client.user, w.client.first);
      if w.client.connection.Some? {
        StepKeepsSubscription(w.server, st, w.client.connection.value);
      }
      LogGrowthKeepsClientInv(w.server, t.server, w.client);
    }
  }

  lemma ConnectPins(w: World)
    requires WorldInv(w) && CanHappen(w, Connect)
    ensures Pinned(Happen(w, Connect).server, Happen(w, Connect).client)
  {
    var s, c := w.server, w.client;
    RegisterAdds(s, c.user, StartingPoint(c));
    if c.received == [] && c.first.Some? {
      var p :| 0 <= p < |s.log| && s.log[p].id == c.first.value;
      assert DistinctIds(s.log);
      AfterKnown(s.log, p);
    }
  }

  lemma ConnectKeepsWorldInv(w: World)
    requires WorldInv(w) && CanHappen(w, Connect)
    ensures WorldInv(Happen(w, Connect))
  {
    ServeKeepsServerInv(w.server, w.client.user, Register(w.client.user, StartingPoint(w.client)));
    ConnectPins(w);
    if Orderly(Happen(w, Connect).server, w.client.user, w.client.first) {
      OrderlyBefore(w.server, Happen(w, Connect).server, w.client.user, w.client.first);
      ConnectKeepsClientInv(w);
    }
  }

  lemma ReceivedMore(s: State, c: Client, m: Message)
    requires ClientInv(s, c) && c.connection.Some?
    requires var delivered := s.subs[c.connection.value].pipe.delivered;
             |c.received| < c.base + |delivered| && m == delivered[|c.received| - c.base]
    ensures ClientInv(s, c.(received := c.received + [m]))
  {
  }

  lemma ReceiveKeepsWorldInv(w: World)
    requires WorldInv(w) && CanHappen(w, ReceiveEvent)
    ensures WorldInv(Happen(w, ReceiveEvent))
  {
    var s, c := w.server, w.client;
    if Orderly(s, c.user, c.first) {
      ReceivedMore(s, c, s.subs[c.connection.value].pipe.delivered[|c.received| - c.base]);
    }
  }

  lemma HappenKeepsWorldInv(w: World, step: WorldStep)
    requires WorldInv(w) && CanHappen(w, step)
    ensures WorldInv(Happen(w, step))
  {
    match step {
      case SendNow(m) => SendNowKeepsWorldInv(w, m);
      case Serve(st) => ServeKeepsWorldInv(w, st);
      case Connect => ConnectKeepsWorldInv(w);
      case ReceiveEvent => ReceiveKeepsWorldInv(w);
    }
  }

  lemma {:induction false} RunKeepsWorldInv(w: World, steps: seq<WorldStep>)
    requires WorldInv(w) && CanRun(w, steps)
    ensures WorldInv(RunWorld(w, steps))
    decreases |steps|
  {
    if steps != [] {
      HappenKeepsWorldInv(w, steps[0]);
      RunKeepsWorldInv(Happen(w, steps[0]), steps[1..]);
    }
  }

  lemma UpToDate(s: State, c: Client)
    requires ServerInv(s, c.user) && Orderly(s, c.user, c.first) && ClientInv(s, c)
    requires c.connection.Some? && Drained(s, c.connection.value)
    requires c.received[c.base..] == s.subs[c.connection.value].pipe.delivered
    ensures c.received == Inbox(s.log[c.origin..], c.user)
  {
    var i := c.connection.value;
    assert s.subs[i].pipe.delivered == Inbox(s.log[c.resume..], c.user) by {
      ConnectionStream(s, i, c.resume, c.first);
      DrainedMeansDue(s, i);
    }
    JoinReceived(s.log, c, Inbox(s.log[c.resume..], c.user));
  }

  lemma DrainedMeansDue(s: State, i: nat)
    requires Inv(s) && Drained(s, i)
    ensures s.subs[i].pipe.delivered == Due(s, s.subs[i])
  {
    assert SubInv(s, s.subs[i]);
    StreamIsPrefixOfDue(s, s.subs[i]);
    BacklogEmpty(s.subs[i].pipe.queues, 0);
  }

  // From which place on the client is owed messages

  /** What a client keeps over a run. */
  lemma {:induction false} RunKeepsClient(w: World, steps: seq<WorldStep>)
    requires CanRun(w, steps)
    ensures RunWorld(w, steps).client.user == w.client.user && RunWorld(w, steps).client.first == w.client.first
    decreases |steps|
  {
    if steps != [] {
      RunKeepsClient(Happen(w, steps[0]), steps[1..]);
    }
  }

  /** The length of the log at the last connect of the run that found the client with nothing received. */
  ghost function LastIdleConnect(w: World, steps: seq<WorldStep>): Option<nat>
    requires CanRun(w, steps)
    decreases |steps|
  {
    if steps == [] then None
    else
      match LastIdleConnect(Happen(w, steps[0]), steps[1..])
      case Some(n) => Some(n)
      case None => if steps[0].Connect? && w.client.received == [] then Some(|w.server.log|) else None
  }

  lemma {:induction false} IdleConnectsMoveOrigin(w: World, steps: seq<WorldStep>)
    requires CanRun(w, steps) && w.client.first.None?
    requires w.client.connection.None? ==> w.client.received == []
    ensures var c := RunWorld(w, steps).client;
            match LastIdleConnect(w, steps)
            case None => c.origin == w.client.origin && (w.client.connection.None? ==> c.connection.None?)
            case Some(n) => c.origin == n
    decreases |steps|
  {
    if steps != [] {
      IdleConnectsMoveOrigin(Happen(w, steps[0]), steps[1..]);
    }
  }

  /**
   * Where the client's messages begin: right after its first starting point, or, without one, at the
   * end of the log as it was at the last connect before anything had been received.
   */
  ghost predicate Begins(w0: World, steps: seq<WorldStep>, first: Option<MessageId>)
    requires CanRun(w0, steps)
  {
    var w := RunWorld(w0, steps);
    w.client.connection.Some? ==>
      && w.client.origin <= |w.server.log|
      && match first
         case Some(id) => Follows(w.server.log, id, w.client.origin)
         case None => LastIdleConnect(w0, steps) == Some(w.client.origin)
  }

  lemma {:induction false} OriginIsLogged(w: World, steps: seq<WorldStep>)
    requires WorldInv(w) && CanRun(w, steps) && w.client.origin <= |w.server.log|
    ensures RunWorld(w, steps).client.origin <= |RunWorld(w, steps).server.log|
    decreases |steps|
  {
    if steps != [] {
      HappenKeepsWorldInv(w, steps[0]);
      LogOnlyGrows(w, steps[0]);
      OriginIsLogged(Happen(w, steps[0]), steps[1..]);
    }
  }

  lemma LogOnlyGrows(w: World, step: WorldStep)
    requires WorldInv(w) && CanHappen(w, step)
    ensures w.server.log <= Happen(w, step).server.log
  {
    match step {
      case SendNow(m) => SendNowKeepsServerInv(w.server, w.client.user, m);
      case Serve(st) => ServeKeepsServerInv(w.server, w.client.user, st);
      case _ =>
    }
  }

  lemma OriginFollowsFirst(backend: Backend, capacity: nat, user: UserId, first: Option<MessageId>, steps: seq<WorldStep>)
    requires capacity >= 1 && CanRun(InitWorld(backend, capacity, user, first), steps)
    ensures Begins(InitWorld(backend, capacity, user, first), steps, first)
  {
    var w0 := InitWorld(backend, capacity, user, first);
    RunKeepsWorldInv(w0, steps);
    RunKeepsClient(w0, steps);
    OriginIsLogged(w0, steps);
    if first.None? {
      IdleConnectsMoveOrigin(w0, steps);
    }
  }

  /**
   * Over any number of connections, whatever cuts them off, the client receives a beginning of its
   * messages in the log after the first starting point, in order and each once, as long as no message
   * to it was cut short at the sender's channel, and the relational store, if it is that, has stored
   * the client's messages in the order of their timestamps.
   */
  lemma ReconnectingMissesNothing(backend: Backend, capacity: nat, user: UserId, first: Option<MessageId>,
                                  steps: seq<WorldStep>)
    requires capacity >= 1 && CanRun(InitWorld(backend, capacity, user, first), steps)
    ensures Begins(InitWorld(backend, capacity, user, first), steps, first)
    ensures var w := RunWorld(InitWorld(backend, capacity, user, first), steps);
            Orderly(w.server, user, first) ==>
              && w.client.origin <= |w.server.log|
              && w.client.received <= Inbox(w.server.log[w.client.origin..], user)
              && DistinctIds(w.client.received)
  {
    var w0 := InitWorld(backend, capacity, user, first);
    RunKeepsWorldInv(w0, steps);
    RunKeepsClient(w0, steps);
    OriginFollowsFirst(backend, capacity, user, first, steps);
    var w := RunWorld(w0, steps);
    if Orderly(w.server, user, first) {
      ReceivedIsPrefix(w);
      InboxDistinct(w.server.log[w.client.origin..], user);
    }
  }

  /** The current connection has drained and the client has read it. */
  ghost predicate CaughtUp(w: World) {
    && w.client.connection.Some? && Drained(w.server, w.client.connection.value)
    && w.client.base <= |w.client.received|
    && w.client.received[w.client.base..] == w.server.subs[w.client.connection.value].pipe.delivered
  }

  /** A client that has caught up has received all of its messages from there on. */
  lemma DrainedClientIsUpToDate(backend: Backend, capacity: nat, user: UserId, first: Option<MessageId>,
                                steps: seq<WorldStep>)
    requires capacity >= 1 && CanRun(InitWorld(backend, capacity, user, first), steps)
    ensures Begins(InitWorld(backend, capacity, user, first), steps, first)
    ensures var w := RunWorld(InitWorld(backend, capacity, user, first), steps);
            Orderly(w.server, user, first) && CaughtUp(w) ==>
              w.client.origin <= |w.server.log| && w.client.received == Inbox(w.server.log[w.client.origin..], user)
  {
    var w0 := InitWorld(backend, capacity, user, first);
    RunKeepsWorldInv(w0, steps);
    RunKeepsClient(w0, steps);
    OriginFollowsFirst(backend, capacity, user, first, steps);
    var w := RunWorld(w0, steps);
    if Orderly(w.server, user, first) && CaughtUp(w) {
      UpToDate(w.server, w.client);
    }
  }

  /**
   * A client that starts without a starting point, as the chat page does, has, once it has caught up,
   * missed exactly the messages stored before the last connect at which it had received nothing,
   * however many connections it had made until then.
   */
  lemma LostBeforeFirstEvent(backend: Backend, capacity: nat, user: UserId, steps: seq<WorldStep>, q: nat)
    requires capacity >= 1 && CanRun(InitWorld(backend, capacity, user, None), steps)
    requires var w := RunWorld(InitWorld(backend, capacity, user, None), steps);
             Orderly(w.server, user, None) && CaughtUp(w) && q < |w.server.log| && Involves(w.server.log[q], user)
    ensures var w := RunWorld(InitWorld(backend, capacity, user, None), steps);
            var last := LastIdleConnect(InitWorld(backend, capacity, user, None), steps);
            last.Some? && (w.server.log[q] in w.client.received <==> last.value <= q)
  {
    var w0 := InitWorld(backend, capacity, user, None);
    var w := RunWorld(w0, steps);
    DrainedClientIsUpToDate(backend, capacity, user, None, steps);
    assert DistinctIds(w.server.log) by {
      RunKeepsWorldInv(w0, steps);
    }
    InboxFrom(w.server.log, user, w.client.origin, q);
  }

  lemma InboxFrom(log: seq<Message>, user: UserId, origin: nat, q: nat)
    requires DistinctIds(log) && origin <= |log| && q < |log| && Involves(log[q], user)
    ensures log[q] in Inbox(log[origin..], user) <==> origin <= q
  {
    InboxMembers(log[origin..], user, log[q]);
    if origin <= q {
      assert log[origin..][q - origin] == log[q];
    }
  }

  // A run that loses a message before the first event

  lemma {:induction false} RunOneMore(w: World, steps: seq<WorldStep>, step: WorldStep)
    requires CanRun(w, steps) && CanHappen(RunWorld(w, steps), step)
    ensures CanRun(w, steps + [step]) && RunWorld(w, steps + [step]) == Happen(RunWorld(w, steps), step)
    decreases |steps|
  {
    if steps == [] {
      assert [] + [step] == [step] && [step][1..] == [];
      assert CanRun(Happen(w, step), []);
    } else {
      assert (steps + [step])[1..] == steps[1..] + [step];
      RunOneMore(Happen(w, steps[0]), steps[1..], step);
    }
  }

  /** User 2 is the only one in the map, on its newest channel, and nobody has sent anything. */
  ghost predicate Listening(w: World, connections: nat) {
    && WorldInv(w) && w.client.user == 2 && w.client.first == None && w.client.received == []
    && w.client.base == 0 && w.client.connection == Some(connections - 1)
    && |w.server.subs| == connections && w.server.routes.Keys == {2}
  }

  lemma ListensFirst(backend: Backend, capacity: nat) returns (steps: seq<WorldStep>)
    requires capacity >= 1
    ensures CanRun(InitWorld(backend, capacity, 2, None), steps)
    ensures var w := RunWorld(InitWorld(backend, capacity, 2, None), steps);
            && Listening(w, 1) && w.server.log == [] && w.server.sends == map[]
            && w.server.subs[0].storedBefore == 0 && w.server.subs[0].user == 2
  {
    var w0 := InitWorld(backend, capacity, 2, None);
    steps := [] + [Connect];
    assert CanRun(w0, []);
    RunOneMore(w0, [], Connect);
    HappenKeepsWorldInv(w0, Connect);
  }

  /** The message is stored and published before the first connection has delivered anything. */
  lemma SendsBetween(w: World, m: Message)
    requires Listening(w, 1) && w.server.log == [] && w.server.sends == map[] && m.from == 1 && m.to == 2
    ensures CanHappen(w, SendNow(m))
    ensures var v := Happen(w, SendNow(m));
            && Listening(v, 1) && v.server.log == [m] && v.server.subs == w.server.subs
            && NobodyPublishes(v.server) && Orderly(v.server, 2, None)
  {
    HappenKeepsWorldInv(w, SendNow(m));
    FirstSend(w.server, m);
  }

  lemma FirstSend(s: State, m: Message)
    requires Shaped(s) && s.log == [] && s.sends == map[] && 1 !in s.routes && m.from == 1
    ensures var t := SendNowStep(s, m);
            && t.log == [m] && t.subs == s.subs && t.routes == s.routes && t.sends == map[m.id := Send(m, Completed)]
  {
    assert PublishToSenderStep(Stores(s, m), m.id) == SetPhase(Stores(s, m), m.id, Publishing);
  }

  lemma ConnectsAgain(w: World, m: Message)
    requires Listening(w, 1) && w.server.log == [m] && NobodyPublishes(w.server) && Orderly(w.server, 2, None)
    ensures CanHappen(w, Connect)
    ensures var v := Happen(w, Connect);
            && Listening(v, 2) && v.server.log == [m] && v.server.subs[0] == w.server.subs[0]
            && v.server.subs[1].progress.Registered? && v.server.subs[1].start == None && v.server.subs[1].user == 2
            && v.server.subs[1].next == |v.server.channels[v.server.subs[1].channel].sent|
            && Orderly(v.server, 2, None) && v.client.origin == 1
  {
    HappenKeepsWorldInv(w, Connect);
  }

  lemma Opens(w: World, m: Message)
    requires Listening(w, 2) && w.server.log == [m] && Orderly(w.server, 2, None)
    requires w.server.subs[1].progress.Registered? && w.server.subs[1].start == None
    requires w.server.subs[1].channel < |w.server.channels|
    requires w.server.subs[1].next == |w.server.channels[w.server.subs[1].channel].sent|
    ensures CanHappen(w, Serve(OpenStream(1, [])))
    ensures var v := Happen(w, Serve(OpenStream(1, [])));
            && v.server.log == [m] && v.server.subs[0] == w.server.subs[0] && CaughtUp(v)
            && v.client == w.client && Orderly(v.server, 2, None)
  {
    var v := Happen(w, Serve(OpenStream(1, [])));
    StepInv(w.server, OpenStream(1, []));
    assert SubInv(v.server, v.server.subs[1]);
    assert v.server.subs[1].pipe == NewPipe(None, []);
  }

  /**
   * Without a starting point, a message stored before the second connect of a client that has received
   * nothing yet is lost to it, although it was stored after the first registration, its publishing
   * was completed, and the client has caught up.
   */
  lemma MessageBeforeFirstEventIsLost(backend: Backend, capacity: nat, m: Message) returns (steps: seq<WorldStep>)
    requires capacity >= 1 && m.from == 1 && m.to == 2
    ensures CanRun(InitWorld(backend, capacity, 2, None), steps)
    ensures var w := RunWorld(InitWorld(backend, capacity, 2, None), steps);
            && w.server.log == [m] && Orderly(w.server, 2, None) && CaughtUp(w)
            && |w.server.subs| > 0 && w.server.subs[0].user == 2 && w.server.subs[0].storedBefore == 0
            && m !in w.client.received
  {
    var w0 := InitWorld(backend, capacity, 2, None);
    steps := ListensFirst(backend, capacity);
    var w := RunWorld(w0, steps);
    SendsBetween(w, m);
    RunOneMore(w0, steps, SendNow(m));
    steps := steps + [SendNow(m)];
    w := RunWorld(w0, steps);
    ConnectsAgain(w, m);
    RunOneMore(w0, steps, Connect);
    steps := steps + [Connect];
    w := RunWorld(w0, steps);
    Opens(w, m);
    RunOneMore(w0, steps, Serve(OpenStream(1, [])));
    steps := steps + [Serve(OpenStream(1, []))];
  }
}
