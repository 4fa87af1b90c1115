/** What every step of the delivery system keeps. */
module DeliveryInvariants {
  import opened Wrappers
  import opened Messages
  import opened Pipelines
  import opened Histories
  import opened Delivery

  predicate Stored(phase: Phase) {
    phase.Persisted? || phase.Publishing? || phase.Completed? || phase.CutShort?
  }

  /** The message has been accepted by, or had nobody to reach on, this user's channel. */
  predicate Published(send: Send, user: UserId) {
    !send.phase.CutShort? && Attempted(send, user)
  }

  /** The messages among `sent` that the history did not already hold. */
  function Unsent(sent: seq<Message>, known: set<MessageId>): seq<Message> {
    if sent == [] then []
    else Unsent(sent[..|sent| - 1], known) + (if sent[|sent| - 1].id in known then [] else [sent[|sent| - 1]])
  }

  ghost predicate SendsInv(s: State) {
    && (forall id | id in s.sends :: s.sends[id].message.id == id)
    && (forall id | id in s.sends && Stored(s.sends[id].phase) :: s.sends[id].message in s.log)
    && (forall i | 0 <= i < |s.log| :: LoggedBy(s.sends, s.log[i]))
    && DistinctIds(s.log)
  }

  ghost predicate LoggedBy(sends: map<MessageId, Send>, m: Message) {
    m.id in sends && sends[m.id].message == m && Stored(sends[m.id].phase)
  }

  ghost predicate RoutesInv(s: State) {
    forall u | u in s.routes :: s.routes[u] < |s.channels| && s.channels[s.routes[u]].owner == u
  }

  ghost predicate SentBy(sends: map<MessageId, Send>, owner: UserId, m: Message) {
    m.id in sends && sends[m.id].message == m && Published(sends[m.id], owner)
  }

  /** A message enters a user's channel at most once, and only a message of that user does. */
  ghost predicate ChannelInv(sends: map<MessageId, Send>, channel: Channel) {
    && DistinctIds(channel.sent)
    && forall k | 0 <= k < |channel.sent| :: SentBy(sends, channel.owner, channel.sent[k])
  }

  // Subscriptions

  /** A receiver is on the channel that the map currently holds for its user. */
  ghost predicate Placed(s: State, sub: Subscription) {
    && SubShaped(s, sub)
    && s.channels[sub.channel].owner == sub.user
    && (Attached(sub) ==> sub.user in s.routes && s.routes[sub.user] == sub.channel)
  }

  ghost predicate Historical(s: State, sub: Subscription) {
    && sub.storedBefore <= |s.log|
    && (sub.progress.Streaming? ==>
          && sub.storedBefore <= sub.fetched <= |s.log|
          && Answers(s.backend, s.log[..sub.fetched], sub.user, sub.start, sub.history))
  }

  /** What was offered to the channel before the registration was stored before it and is not sent on it afterwards. */
  ghost predicate Fresh(s: State, sub: Subscription)
    requires sub.channel < |s.channels| && sub.storedBefore <= |s.log|
  {
    && (forall id | id in sub.publishedBefore ::
          && id in s.sends && Attempted(s.sends[id], sub.user)
          && s.sends[id].message in s.log[..sub.storedBefore])
    && forall k | sub.joined <= k < |s.channels[sub.channel].sent| ::
         s.channels[sub.channel].sent[k].id !in sub.publishedBefore
  }

  ghost predicate CoveredBy(s: State, sub: Subscription, id: MessageId)
    requires id in s.sends && SubShaped(s, sub)
  {
    || id in sub.publishedBefore
    || s.sends[id].message in s.channels[sub.channel].sent[sub.joined..]
    || (s.sends[id].phase.CutShort? && sub.user != s.sends[id].message.from)
  }

  /** Whatever was offered to the user was offered before the registration or is on the channel after it. */
  ghost predicate Covers(s: State, sub: Subscription)
    requires SubShaped(s, sub)
  {
    Attached(sub) ==>
      forall id | id in s.sends && Attempted(s.sends[id], sub.user) :: CoveredBy(s, sub, id)
  }

  /** The stream a subscription is due: its history, then the channel from its position, less what the history held. */
  function Stream(s: State, sub: Subscription): seq<Message>
    requires SubShaped(s, sub)
  {
    sub.history + Unsent(s.channels[sub.channel].sent[sub.joined..sub.next], Ids(sub.history))
  }

  ghost predicate Flows(s: State, sub: Subscription)
    requires SubShaped(s, sub)
  {
    && (sub.progress.Registered? ==> sub.next == sub.joined)
    && (!sub.progress.Streaming? ==> sub.pipe.delivered == [])
    && (sub.progress.Streaming? ==>
          && Flowing(sub.pipe)
          && sub.pipe.delivered <= Stream(s, sub)
          && (Open(sub.pipe) ==> InFlight(sub.pipe) == Stream(s, sub)))
  }

  ghost predicate SubInv(s: State, sub: Subscription) {
    Placed(s, sub) && Historical(s, sub) && Fresh(s, sub) && Covers(s, sub) && Flows(s, sub)
  }

  ghost predicate Inv(s: State) {
    && Shaped(s) && SendsInv(s) && RoutesInv(s)
    && (forall c | 0 <= c < |s.channels| :: ChannelInv(s.sends, s.channels[c]))
    && (forall i | 0 <= i < |s.subs| :: SubInv(s, s.subs[i]))
  }

  // How the shared part of the state evolves

  predicate SendEvolves(before: Send, after: Send) {
    && before.message == after.message
    && (before.phase.CutShort? ==> after.phase.CutShort?)
    && (before.phase.Publishing? ==> after.phase.Publishing? || after.phase.Completed?)
    && (before.phase.Completed? ==> after.phase.Completed?)
  }

  predicate WasAttempted(s: State, id: MessageId, user: UserId) {
    id in s.sends && Attempted(s.sends[id], user)
  }

  /** A channel only grows, and only by messages not offered to it before. */
  ghost predicate ChannelEvolves(s: State, before: Channel, after: Channel) {
    && before.owner == after.owner
    && before.sent <= after.sent
    && forall k | |before.sent| <= k < |after.sent| :: !WasAttempted(s, after.sent[k].id, before.owner)
  }

  /** An offer to a user with receivers reaches the user's channel, unless it was abandoned at the sender's. */
  ghost predicate OfferReaches(s: State, t: State, id: MessageId, user: UserId)
    requires id in t.sends
  {
    || (t.sends[id].phase.CutShort? && user != t.sends[id].message.from)
    || user !in s.routes
    || !HasReceivers(s, s.routes[user])
    || (&& s.routes[user] < |s.channels| <= |t.channels|
        && |s.channels[s.routes[user]].sent| <= |t.channels[s.routes[user]].sent|
        && t.sends[id].message in t.channels[s.routes[user]].sent[|s.channels[s.routes[user]].sent|..])
  }

  ghost predicate Evolves(s: State, t: State) {
    && t.backend == s.backend && s.log <= t.log
    && |s.channels| <= |t.channels|
    && (forall id | id in s.sends :: id in t.sends && SendEvolves(s.sends[id], t.sends[id]))
    && (forall c | 0 <= c < |s.channels| :: ChannelEvolves(s, s.channels[c], t.channels[c]))
    && (forall u | u in s.routes && HasReceivers(s, s.routes[u]) :: u in t.routes && t.routes[u] == s.routes[u])
    && (forall id, u | WasAttempted(t, id, u) && !WasAttempted(s, id, u) :: OfferReaches(s, t, id, u))
  }

  lemma SubEvolves(s: State, t: State, i: nat)
    requires Inv(s) && Evolves(s, t) && i < |s.subs|
    ensures SubInv(t, s.subs[i])
  {
    var sub := s.subs[i];
    assert SubInv(s, sub);
    assert Attached(sub) ==> HasReceivers(s, sub.channel);
    PlacedEvolves(s, t, sub);
    FlowsEvolves(s, t, sub);
    FreshEvolves(s, t, sub);
    CoversEvolves(s, t, sub);
    assert Historical(t, sub) by {
      assert sub.progress.Streaming? ==> t.log[..sub.fetched] == s.log[..sub.fetched];
    }
  }

  lemma PlacedEvolves(s: State, t: State, sub: Subscription)
    requires Placed(s, sub) && Evolves(s, t)
    requires Attached(sub) ==> HasReceivers(s, sub.channel)
    ensures Placed(t, sub)
  {
  }

  lemma FlowsEvolves(s: State, t: State, sub: Subscription)
    requires Placed(s, sub) && SubShaped(t, sub) && Flows(s, sub) && Evolves(s, t)
    ensures Flows(t, sub)
  {
    var c := sub.channel;
    assert ChannelEvolves(s, s.channels[c], t.channels[c]);
    assert t.channels[c].sent[sub.joined..sub.next] == s.channels[c].sent[sub.joined..sub.next];
  }

  lemma FreshEvolves(s: State, t: State, sub: Subscription)
    requires Placed(s, sub) && sub.storedBefore <= |s.log| && Fresh(s, sub) && Evolves(s, t)
    ensures Fresh(t, sub)
  {
  }

  lemma CoversEvolves(s: State, t: State, sub: Subscription)
    requires Placed(s, sub) && Covers(s, sub) && Evolves(s, t)
    requires Attached(sub) ==> HasReceivers(s, sub.channel)
    ensures SubShaped(t, sub) && Covers(t, sub)
  {
    var before, after := s.channels[sub.channel], t.channels[sub.channel];
    assert ChannelEvolves(s, before, after);
    if Attached(sub) {
      forall id | id in t.sends && Attempted(t.sends[id], sub.user)
        ensures CoveredBy(t, sub, id)
      {
        assert WasAttempted(t, id, sub.user);
        if WasAttempted(s, id, sub.user) {
          assert CoveredBy(s, sub, id);
          assert forall m | m in before.sent[sub.joined..] :: m in after.sent[sub.joined..] by {
            assert before.sent[sub.joined..] <= after.sent[sub.joined..];
          }
        } else {
          assert OfferReaches(s, t, id, sub.user);
          assert after.sent[sub.joined..][|before.sent| - sub.joined..] == after.sent[|before.sent|..];
        }
      }
    }
  }

  // Steps of the sends

  /** Steps that leave routes, channels and subscriptions alone and offer nothing to anyone. */
  lemma QuietEvolves(s: State, t: State)
    requires Inv(s) && t == s.(log := t.log, sends := t.sends) && s.log <= t.log
    requires forall id | id in s.sends :: id in t.sends && SendEvolves(s.sends[id], t.sends[id])
    requires forall id, u | WasAttempted(t, id, u) :: WasAttempted(s, id, u)
    ensures Evolves(s, t)
  {
  }

  lemma CreateStep(s: State, m: Message)
    requires Inv(s) && Enabled(s, Create(m))
    ensures var t := Apply(s, Create(m)); Evolves(s, t) && SendsInv(t)
  {
    var t := Apply(s, Create(m));
    QuietEvolves(s, t);
    assert forall i | 0 <= i < |s.log| :: LoggedBy(s.sends, s.log[i]);
  }

  lemma PersistStep(s: State, id: MessageId)
    requires Inv(s) && Enabled(s, Persist(id))
    ensures var t := Apply(s, Persist(id)); Evolves(s, t) && SendsInv(t)
  {
    var t := Apply(s, Persist(id));
    QuietEvolves(s, t);
    assert forall i | 0 <= i < |s.log| :: t.log[i] == s.log[i] && LoggedBy(s.sends, s.log[i]);
  }

  lemma FailToPersistStep(s: State, id: MessageId)
    requires Inv(s) && Enabled(s, FailToPersist(id))
    ensures var t := Apply(s, FailToPersist(id)); Evolves(s, t) && SendsInv(t)
  {
    QuietEvolves(s, Apply(s, FailToPersist(id)));
    assert forall i | 0 <= i < |s.log| :: LoggedBy(s.sends, s.log[i]);
  }

  lemma BroadcastKeepsChannels(s: State, id: MessageId, user: UserId, phase: Phase)
    requires Inv(s) && id in s.sends && user in s.routes
    requires SendEvolves(s.sends[id], s.sends[id].(phase := phase))
    requires !Attempted(s.sends[id], user) && Published(s.sends[id].(phase := phase), user)
    ensures var t := SetPhase(Broadcast(s, s.routes[user], s.sends[id].message), id, phase);
            forall c | 0 <= c < |t.channels| :: ChannelInv(t.sends, t.channels[c])
  {
  }

  lemma PhaseKeepsSends(s: State, id: MessageId, phase: Phase)
    requires SendsInv(s) && id in s.sends && Stored(s.sends[id].phase) && Stored(phase)
    ensures SendsInv(SetPhase(s, id, phase))
  {
  }

  lemma BroadcastEvolves(s: State, id: MessageId, user: UserId, phase: Phase)
    requires Inv(s) && id in s.sends && user in s.routes
    requires SendEvolves(s.sends[id], s.sends[id].(phase := phase)) && Stored(s.sends[id].phase) && Stored(phase)
    requires !Attempted(s.sends[id], user)
    requires forall u | Attempted(s.sends[id].(phase := phase), u) && !Attempted(s.sends[id], u) :: u == user
    ensures var t := SetPhase(Broadcast(s, s.routes[user], s.sends[id].message), id, phase);
            Evolves(s, t) && SendsInv(t)
  {
    var m, c := s.sends[id].message, s.routes[user];
    var t := SetPhase(Broadcast(s, c, m), id, phase);
    var before, after := s.channels[c].sent, t.channels[c].sent;
    PhaseKeepsSends(s, id, phase);
    assert after[|before|..] == [m];
  }

  lemma PhaseKeepsChannel(s: State, id: MessageId, phase: Phase, channel: Channel)
    requires id in s.sends && SendEvolves(s.sends[id], s.sends[id].(phase := phase))
    requires ChannelInv(s.sends, channel)
    ensures ChannelInv(SetPhase(s, id, phase).sends, channel)
  {
  }

  lemma PhaseEvolves(s: State, id: MessageId, phase: Phase)
    requires Inv(s) && id in s.sends
    requires SendEvolves(s.sends[id], s.sends[id].(phase := phase)) && Stored(s.sends[id].phase) && Stored(phase)
    requires forall u | Attempted(s.sends[id].(phase := phase), u) && !Attempted(s.sends[id], u) ::
               OfferReaches(s, SetPhase(s, id, phase), id, u)
    ensures var t := SetPhase(s, id, phase);
            Evolves(s, t) && SendsInv(t) && forall c | 0 <= c < |t.channels| :: ChannelInv(t.sends, t.channels[c])
  {
    var t := SetPhase(s, id, phase);
    forall c | 0 <= c < |t.channels|
      ensures ChannelInv(t.sends, t.channels[c])
    {
      PhaseKeepsChannel(s, id, phase, s.channels[c]);
    }
  }

  lemma PublishToSenderEvolves(s: State, id: MessageId)
    requires Inv(s) && SendIs(s, id, Persisted)
    ensures var t := PublishToSenderStep(s, id);
            && Evolves(s, t) && t.subs == s.subs && SendsInv(t)
            && forall c | 0 <= c < |t.channels| :: ChannelInv(t.sends, t.channels[c])
  {
    var m := s.sends[id].message;
    if m.from !in s.routes {
      PhaseEvolves(s, id, Publishing);
    } else if HasReceivers(s, s.routes[m.from]) {
      BroadcastEvolves(s, id, m.from, Publishing);
      BroadcastKeepsChannels(s, id, m.from, Publishing);
    } else {
      PhaseEvolves(s, id, CutShort);
    }
  }

  lemma PublishToReceiverEvolves(s: State, id: MessageId)
    requires Inv(s) && SendIs(s, id, Publishing)
    ensures var t := PublishToReceiverStep(s, id);
            && Evolves(s, t) && t.subs == s.subs && SendsInv(t)
            && forall c | 0 <= c < |t.channels| :: ChannelInv(t.sends, t.channels[c])
  {
    var m := s.sends[id].message;
    if m.from != m.to && m.to in s.routes && HasReceivers(s, s.routes[m.to]) {
      BroadcastEvolves(s, id, m.to, Completed);
      BroadcastKeepsChannels(s, id, m.to, Completed);
    } else {
      PhaseEvolves(s, id, Completed);
    }
  }

  /** Channel contents refer to sends only through what has been published. */
  lemma ChannelsKept(s: State, t: State)
    requires Inv(s) && t.channels == s.channels
    requires forall id | id in s.sends :: id in t.sends && (t.sends[id] == s.sends[id] || s.sends[id].phase.Created?)
    ensures forall c | 0 <= c < |t.channels| :: ChannelInv(t.sends, t.channels[c])
  {
  }

  /** A step that leaves the subscriptions alone. */
  lemma SharedStepKeepsInv(s: State, t: State)
    requires Inv(s) && Evolves(s, t) && t.subs == s.subs && t.capacity == s.capacity
    requires SendsInv(t) && RoutesInv(t) && forall c | 0 <= c < |t.channels| :: ChannelInv(t.sends, t.channels[c])
    ensures Inv(t)
  {
    forall i | 0 <= i < |t.subs|
      ensures SubInv(t, t.subs[i])
    {
      SubEvolves(s, t, i);
    }
  }

  lemma StoreStepKeepsInv(s: State, step: Step)
    requires Inv(s) && Enabled(s, step) && (step.Create? || step.Persist? || step.FailToPersist?)
    ensures Inv(Apply(s, step)) && Evolves(s, Apply(s, step))
  {
    var t := Apply(s, step);
    match step {
      case Create(m) => CreateStep(s, m);
      case Persist(id) => PersistStep(s, id);
      case FailToPersist(id) => FailToPersistStep(s, id);
    }
    ChannelsKept(s, t);
    SharedStepKeepsInv(s, t);
  }

  lemma RoutesKept(s: State, t: State)
    requires Inv(s) && Evolves(s, t) && t.routes == s.routes
    ensures RoutesInv(t)
  {
  }

  lemma PublishStepKeepsInv(s: State, step: Step)
    requires Inv(s) && Enabled(s, step) && (step.PublishToSender? || step.PublishToReceiver?)
    ensures Inv(Apply(s, step)) && Evolves(s, Apply(s, step))
  {
    var t := Apply(s, step);
    match step {
      case PublishToSender(id) => PublishToSenderEvolves(s, id);
      case PublishToReceiver(id) => PublishToReceiverEvolves(s, id);
    }
    RoutesKept(s, t);
    SharedStepKeepsInv(s, t);
  }

  // Cleanup and registration

  lemma CleanupKeepsInv(s: State)
    requires Inv(s) && Enabled(s, Cleanup)
    ensures Inv(Apply(s, Cleanup)) && Evolves(s, Apply(s, Cleanup))
  {
    SharedStepKeepsInv(s, Apply(s, Cleanup));
  }

  lemma RegisterChannels(s: State, user: UserId, start: Option<MessageId>)
    requires Inv(s) && Enabled(s, Register(user, start))
    ensures var t := Apply(s, Register(user, start));
            && t.sends == s.sends && t.log == s.log && RoutesInv(t) && s.channels <= t.channels
            && (forall u | u in s.routes :: u in t.routes && t.routes[u] == s.routes[u])
            && (forall c | 0 <= c < |t.channels| :: ChannelInv(t.sends, t.channels[c]))
  {
  }

  lemma RegisterEvolves(s: State, user: UserId, start: Option<MessageId>)
    requires Inv(s) && Enabled(s, Register(user, start))
    ensures var t := Apply(s, Register(user, start));
            && Evolves(s, t) && SendsInv(t) && RoutesInv(t)
            && forall c | 0 <= c < |t.channels| :: ChannelInv(t.sends, t.channels[c])
  {
    RegisterChannels(s, user, start);
  }

  lemma NewSubInv(s: State, user: UserId, start: Option<MessageId>)
    requires Inv(s) && Enabled(s, Register(user, start))
    ensures var t := Apply(s, Register(user, start)); SubInv(t, t.subs[|s.subs|])
  {
  }

  lemma RegisterKeepsInv(s: State, user: UserId, start: Option<MessageId>)
    requires Inv(s) && Enabled(s, Register(user, start))
    ensures Inv(Apply(s, Register(user, start))) && Evolves(s, Apply(s, Register(user, start)))
  {
    var t := Apply(s, Register(user, start));
    RegisterEvolves(s, user, start);
    forall i | 0 <= i < |t.subs|
      ensures SubInv(t, t.subs[i])
    {
      if i < |s.subs| {
        SubEvolves(s, t, i);
      } else {
        NewSubInv(s, user, start);
      }
    }
  }

  // Steps of one subscription

  /** What a step of subscription i may do to it. */
  ghost predicate SubAdvances(s: State, before: Subscription, after: Subscription) {
    && after.user == before.user && after.channel == before.channel
    && after.joined == before.joined && after.storedBefore == before.storedBefore
    && after.publishedBefore == before.publishedBefore
    && (Attached(after) ==> Attached(before))
    && SubShaped(s, after) && Historical(s, after) && Flows(s, after)
  }

  lemma SubStepKeepsInv(s: State, i: nat, sub: Subscription)
    requires Inv(s) && i < |s.subs| && SubAdvances(s, s.subs[i], sub)
    ensures Inv(SetSub(s, i, sub)) && Evolves(s, SetSub(s, i, sub))
  {
    var t := SetSub(s, i, sub);
    forall j | 0 <= j < |t.subs|
      ensures SubInv(t, t.subs[j])
    {
      SubEvolves(s, t, j);
    }
  }

  lemma OpenStreamAdvances(s: State, i: nat, history: seq<Message>)
    requires Inv(s) && Enabled(s, OpenStream(i, history))
    ensures SubAdvances(s, s.subs[i], Apply(s, OpenStream(i, history)).subs[i])
  {
    var before, sub := s.subs[i], OpenStreamStep(s, i, history).subs[i];
    assert Placed(s, before) && Historical(s, before) && Flows(s, before) by {
      assert SubInv(s, before);
    }
    NewPipeHolds(sub.start, sub.history);
    assert Historical(s, sub) by {
      assert s.log[..|s.log|] == s.log;
    }
    assert Flows(s, sub) by {
      assert s.channels[sub.channel].sent[sub.joined..sub.next] == [];
      assert Stream(s, sub) == sub.history;
    }
  }

  lemma NewPipeHolds(start: Option<MessageId>, history: seq<Message>)
    requires start.None? ==> history == []
    ensures var p := NewPipe(start, history);
            Valid(p) && Flowing(p) && Open(p) && InFlight(p) == history && p.delivered == [] && p.running[0]
  {
    var q := NewPipe(start, history).queues;
    if start.None? {
      BacklogEmpty(q, 0);
    } else {
      assert Backlog(q, 3) == [];
      assert Backlog(q, 2) == [];
      assert Backlog(q, 1) == history;
      assert Backlog(q, 0) == history;
    }
  }

  lemma {:induction false} UnsentExtends(sent: seq<Message>, m: Message, known: set<MessageId>)
    ensures Unsent(sent + [m], known) == Unsent(sent, known) + (if m.id in known then [] else [m])
  {
  }

  /** Receiving one message extends the stream that is due by it, unless the history held it. */
  lemma StreamExtends(s: State, before: Subscription, sub: Subscription)
    requires SubShaped(s, before) && before.next < |s.channels[before.channel].sent|
    requires sub == before.(next := before.next + 1, pipe := sub.pipe) && SubShaped(s, sub)
    ensures var m := s.channels[before.channel].sent[before.next];
            Stream(s, sub) == Stream(s, before) + (if m.id in Ids(before.history) then [] else [m])
  {
    var sent := s.channels[before.channel].sent;
    var m := sent[before.next];
    var earlier := sent[before.joined..before.next];
    assert sent[sub.joined..sub.next] == earlier + [m];
    UnsentExtends(earlier, m, Ids(before.history));
    var fed := if m.id in Ids(before.history) then [] else [m];
    assert before.history + (Unsent(earlier, Ids(before.history)) + fed)
        == before.history + Unsent(earlier, Ids(before.history)) + fed;
  }

  lemma ReceiveFlows(s: State, i: nat)
    requires Inv(s) && Enabled(s, Receive(i))
    ensures var sub := Apply(s, Receive(i)).subs[i]; SubShaped(s, sub) && Flows(s, sub)
  {
    var before, sub := s.subs[i], Apply(s, Receive(i)).subs[i];
    assert Flows(s, before) && SubShaped(s, before) by {
      assert SubInv(s, before);
    }
    var m := s.channels[before.channel].sent[before.next];
    if m.id !in Ids(before.history) {
      StepConserves(before.pipe, Accept(m));
    }
    StreamExtends(s, before, sub);
    assert Stream(s, before) <= Stream(s, sub);
    assert sub.pipe.delivered == before.pipe.delivered;
  }

  lemma ReceiveAdvances(s: State, i: nat)
    requires Inv(s) && Enabled(s, Receive(i))
    ensures SubAdvances(s, s.subs[i], Apply(s, Receive(i)).subs[i])
  {
    ReceiveFlows(s, i);
    assert SubInv(s, s.subs[i]);
  }

  lemma PumpAdvances(s: State, i: nat, pipeStep: PipeStep<Message>)
    requires Inv(s) && SubIs(s, i, Streaming) && !pipeStep.Accept? && CanStep(s.subs[i].pipe, pipeStep)
    ensures SubAdvances(s, s.subs[i], s.subs[i].(pipe := StepPipe(s.subs[i].pipe, pipeStep)))
  {
    var before := s.subs[i];
    assert SubInv(s, before);
    StepConserves(before.pipe, pipeStep);
    StepOnlyStops(before.pipe, pipeStep, 0);
  }

  // All steps

  lemma StreamStepKeepsInv(s: State, step: Step, i: nat)
    requires Inv(s) && Enabled(s, step)
    requires step.OpenStream? || step.Abandon? || step.Receive? || step.Lag? || step.Pump?
    requires i == step.sub
    ensures Inv(Apply(s, step)) && Evolves(s, Apply(s, step))
  {
    match step {
      case OpenStream(_, history) => OpenStreamAdvances(s, i, history);
      case Abandon(_) => assert SubInv(s, s.subs[i]);
      case Receive(_) => ReceiveAdvances(s, i);
      case Lag(_) => PumpAdvances(s, i, SourceEnds);
      case Pump(_, pipeStep) => PumpAdvances(s, i, pipeStep);
    }
    SubStepKeepsInv(s, i, Apply(s, step).subs[i]);
  }

  lemma StepKeepsInv(s: State, step: Step)
    requires Inv(s) && Enabled(s, step)
    ensures Inv(Apply(s, step)) && Evolves(s, Apply(s, step))
  {
    match step {
      case Register(user, start) => RegisterKeepsInv(s, user, start);
      case Cleanup => CleanupKeepsInv(s);
      case OpenStream(i, _) => StreamStepKeepsInv(s, step, i);
      case Abandon(i) => StreamStepKeepsInv(s, step, i);
      case Receive(i) => StreamStepKeepsInv(s, step, i);
      case Lag(i) => StreamStepKeepsInv(s, step, i);
      case SeeChannelClosed(i) => assert false;
      case Pump(i, _) => StreamStepKeepsInv(s, step, i);
      case PublishToSender(_) => PublishStepKeepsInv(s, step);
      case PublishToReceiver(_) => PublishStepKeepsInv(s, step);
      case _ => StoreStepKeepsInv(s, step);
    }
  }

  lemma StepInv(s: State, step: Step)
    requires Inv(s) && Enabled(s, step)
    ensures Inv(Apply(s, step))
  {
    StepKeepsInv(s, step);
  }

  lemma ChannelGrows(s: State, step: Step, c: nat)
    requires Inv(s) && Enabled(s, step) && c < |s.channels|
    ensures var t := Apply(s, step); c < |t.channels| && s.channels[c].sent <= t.channels[c].sent
  {
    StepKeepsInv(s, step);
  }

  lemma {:induction false} RunKeepsInv(s: State, steps: seq<Step>)
    requires Inv(s) && Legal(s, steps)
    ensures Inv(Run(s, steps))
    decreases |steps|
  {
    if steps != [] {
      StepInv(s, steps[0]);
      RunKeepsInv(Apply(s, steps[0]), steps[1..]);
    }
  }
}
