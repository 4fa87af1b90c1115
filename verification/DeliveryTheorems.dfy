/** What holds in every run of the delivery system, under every interleaving. */
module DeliveryTheorems {
  import opened Wrappers
  import opened Messages
  import opened Pipelines
  import opened Histories
  import opened Keyset
  import opened Delivery
  import opened DeliveryInvariants

  ghost predicate Reachable(s: State) {
    exists backend: Backend, capacity: nat, steps: seq<Step> {:trigger Legal(Init(backend, capacity), steps)} ::
      capacity >= 1 && Legal(Init(backend, capacity), steps) && Run(Init(backend, capacity), steps) == s
  }

  lemma ReachableInv(s: State)
    requires Reachable(s)
    ensures Inv(s)
  {
    var backend: Backend, capacity: nat, steps: seq<Step> :|
      capacity >= 1 && Legal(Init(backend, capacity), steps) && Run(Init(backend, capacity), steps) == s;
    RunKeepsInv(Init(backend, capacity), steps);
  }

  ghost predicate IsStreaming(s: State, i: nat) {
    SubIs(s, i, Streaming) && SubShaped(s, s.subs[i])
  }

  /** Everything the subscription is due so far: the history, then all of the channel since the registration. */
  function Due(s: State, sub: Subscription): seq<Message>
    requires SubShaped(s, sub)
  {
    sub.history + Unsent(s.channels[sub.channel].sent[sub.joined..], Ids(sub.history))
  }

  // Filtering the overlap

  lemma {:induction false} UnsentMembers(sent: seq<Message>, known: set<MessageId>, m: Message)
    ensures m in Unsent(sent, known) <==> m in sent && m.id !in known
  {
    if sent != [] {
      var front := sent[..|sent| - 1];
      assert sent == front + [sent[|sent| - 1]];
      UnsentMembers(front, known, m);
    }
  }

  lemma {:induction false} UnsentDistinct(sent: seq<Message>, known: set<MessageId>)
    requires DistinctIds(sent)
    ensures DistinctIds(Unsent(sent, known))
  {
    if sent != [] {
      var front, last := sent[..|sent| - 1], sent[|sent| - 1];
      var u := Unsent(front, known);
      UnsentDistinct(front, known);
      forall k | 0 <= k < |u|
        ensures u[k].id != last.id
      {
        UnsentMembers(front, known, u[k]);
        var i :| 0 <= i < |front| && front[i] == u[k];
        assert front[i] == sent[i];
      }
    }
  }

  lemma {:induction false} UnsentPrefix(a: seq<Message>, b: seq<Message>, known: set<MessageId>)
    requires a <= b
    ensures Unsent(a, known) <= Unsent(b, known)
    decreases |b|
  {
    if |a| < |b| {
      var front := b[..|b| - 1];
      assert a <= front;
      UnsentPrefix(a, front, known);
    } else {
      assert a == b;
    }
  }

  lemma StreamIsPrefixOfDue(s: State, sub: Subscription)
    requires SubShaped(s, sub)
    ensures Stream(s, sub) <= Due(s, sub)
    ensures Behind(s, sub) == 0 ==> Stream(s, sub) == Due(s, sub)
  {
    var sent := s.channels[sub.channel].sent;
    assert sent[sub.joined..sub.next] <= sent[sub.joined..];
    UnsentPrefix(sent[sub.joined..sub.next], sent[sub.joined..], Ids(sub.history));
    assert Behind(s, sub) == 0 ==> sent[sub.joined..sub.next] == sent[sub.joined..];
  }

  // The history

  /** Log message q is since log message p, by the order of the store. */
  predicate StandsAfter(s: State, p: nat, q: nat)
    requires p < |s.log| && q < |s.log|
  {
    Beyond(s.backend, s.log, p, q)
  }

  lemma HistoryMembers(s: State, i: nat, p: nat, m: Message)
    requires Inv(s) && IsStreaming(s, i)
    requires p < |s.log| && s.subs[i].start == Some(s.log[p].id)
    ensures var sub := s.subs[i];
            m in sub.history <==>
            Involves(m, sub.user) && p < sub.fetched
            && exists q :: 0 <= q < sub.fetched && q < |s.log| && s.log[q] == m && StandsAfter(s, p, q)
  {
    var sub := s.subs[i];
    assert SubInv(s, sub);
    var seen := s.log[..sub.fetched];
    assert DistinctIds(seen);
    assert forall q | 0 <= q < |seen| :: seen[q] == s.log[q];
    if p < sub.fetched {
      AnswerMembers(s.backend, seen, sub.user, p, sub.history, m);
      assert forall q | 0 <= q < |seen| :: Beyond(s.backend, seen, p, q) == StandsAfter(s, p, q);
    } else {
      forall k | 0 <= k < |seen|
        ensures seen[k].id != s.log[p].id
      {
        assert seen[k] == s.log[k];
      }
      AnswerToUnknown(s.backend, seen, sub.user, s.log[p].id, sub.history);
    }
  }

  lemma HistorySound(s: State, i: nat)
    requires Inv(s) && IsStreaming(s, i)
    ensures var sub := s.subs[i];
            DistinctIds(sub.history) && forall m | m in sub.history :: m in s.log && Involves(m, sub.user)
  {
    var sub := s.subs[i];
    assert SubInv(s, sub);
    var seen := s.log[..sub.fetched];
    assert DistinctIds(seen);
    AnswerSound(s.backend, seen, sub.user, sub.start, sub.history);
  }

  // No duplicates, nothing skipped

  lemma DueIsDistinct(s: State, i: nat)
    requires Inv(s) && IsStreaming(s, i)
    ensures DistinctIds(Due(s, s.subs[i]))
  {
    var sub := s.subs[i];
    HistorySound(s, i);
    assert SubInv(s, sub) && ChannelInv(s.sends, s.channels[sub.channel]);
    var sent := s.channels[sub.channel].sent[sub.joined..];
    var live := Unsent(sent, Ids(sub.history));
    UnsentDistinct(sent, Ids(sub.history));
    forall k | 0 <= k < |live|
      ensures live[k].id !in Ids(sub.history)
    {
      UnsentMembers(sent, Ids(sub.history), live[k]);
    }
    forall a, b | 0 <= a < b < |Due(s, sub)|
      ensures Due(s, sub)[a].id != Due(s, sub)[b].id
    {
      if a < |sub.history| <= b {
        assert sub.history[a].id in Ids(sub.history);
        assert Due(s, sub)[b] == live[b - |sub.history|];
      }
    }
  }

  /** No subscription ever delivers the same message twice. */
  lemma NoDuplicates(s: State, i: nat)
    requires Reachable(s) && IsStreaming(s, i)
    ensures DistinctIds(s.subs[i].pipe.delivered)
  {
    ReachableInv(s);
    DueIsDistinct(s, i);
    StreamIsPrefixOfDue(s, s.subs[i]);
    assert SubInv(s, s.subs[i]);
    assert s.subs[i].pipe.delivered <= Due(s, s.subs[i]);
  }

  /**
   * A stream may end early but never skips: what was delivered is a prefix of what is due, and
   * while the connection reads the rest of the received part is in the queues, in order.
   */
  lemma EndsRatherThanSkips(s: State, i: nat)
    requires Reachable(s) && IsStreaming(s, i)
    ensures var sub := s.subs[i];
            && sub.pipe.delivered <= Stream(s, sub) <= Due(s, sub)
            && (Open(sub.pipe) ==> sub.pipe.delivered + Backlog(sub.pipe.queues, 0) == Stream(s, sub))
            && (Behind(s, sub) > s.capacity && sub.pipe.running[0] ==>
                  && !Enabled(s, Receive(i)) && Enabled(s, Lag(i))
                  && !Attached(Apply(s, Lag(i)).subs[i]))
  {
    assert Shaped(s) && Flows(s, s.subs[i]) by {
      ReachableInv(s);
      assert SubInv(s, s.subs[i]);
    }
    StreamIsPrefixOfDue(s, s.subs[i]);
  }

  ghost predicate SameSubscription(a: Subscription, b: Subscription) {
    && a.user == b.user && a.start == b.start && a.channel == b.channel && a.joined == b.joined
    && a.storedBefore == b.storedBefore && a.publishedBefore == b.publishedBefore
  }

  lemma StepKeepsIdentity(s: State, step: Step, i: nat)
    requires Enabled(s, step) && IsStreaming(s, i)
    ensures var t := Apply(s, step);
            && SubIs(t, i, Streaming) && SameSubscription(s.subs[i], t.subs[i])
            && t.subs[i].history == s.subs[i].history && t.subs[i].fetched == s.subs[i].fetched
            && (!Attached(s.subs[i]) ==> !Attached(t.subs[i]) && t.subs[i].next == s.subs[i].next)
  {
    if step.Pump? && step.sub == i {
      StepOnlyStops(s.subs[i].pipe, step.pipeStep, 0);
    }
  }

  lemma DetachedStep(s: State, step: Step, i: nat)
    requires Inv(s) && Enabled(s, step) && IsStreaming(s, i) && !Attached(s.subs[i])
    ensures var t := Apply(s, step);
            IsStreaming(t, i) && !Attached(t.subs[i]) && Stream(t, t.subs[i]) == Stream(s, s.subs[i])
  {
    var t := Apply(s, step);
    StepKeepsIdentity(s, step, i);
    assert SubShaped(t, t.subs[i]) by {
      StepInv(s, step);
    }
    ChannelGrows(s, step, s.subs[i].channel);
    SameStream(s, s.subs[i], t, t.subs[i]);
  }

  /** Growth of the channel behind what was received leaves the stream as it is. */
  lemma SameStream(s: State, before: Subscription, t: State, after: Subscription)
    requires SubShaped(s, before) && SubShaped(t, after) && SameSubscription(before, after)
    requires after.history == before.history && after.next == before.next
    requires s.channels[before.channel].sent <= t.channels[after.channel].sent
    ensures Stream(t, after) == Stream(s, before)
  {
    var a, b := s.channels[before.channel].sent, t.channels[after.channel].sent;
    assert b[after.joined..after.next] == a[before.joined..before.next];
  }

  /** Once the broadcast receiver is gone, because of a lag or of a disconnect, the stream never grows again. */
  lemma {:induction false} DetachedForever(s: State, steps: seq<Step>, i: nat)
    requires Inv(s) && Legal(s, steps) && IsStreaming(s, i) && !Attached(s.subs[i])
    ensures var t := Run(s, steps);
            && IsStreaming(t, i) && !Attached(t.subs[i])
            && t.subs[i].pipe.delivered <= Stream(t, t.subs[i]) == Stream(s, s.subs[i])
    decreases |steps|
  {
    if steps == [] {
      assert SubInv(s, s.subs[i]);
    } else {
      DetachedStep(s, steps[0], i);
      StepInv(s, steps[0]);
      DetachedForever(Apply(s, steps[0]), steps[1..], i);
    }
  }

  // Nothing foreign

  /** What is due is stored and the user's own, and is history or was not yet published when the receiver was created. */
  lemma DueIsOwn(s: State, i: nat, m: Message)
    requires Inv(s) && IsStreaming(s, i) && m in Due(s, s.subs[i])
    ensures m in s.log && Involves(m, s.subs[i].user)
    ensures m in s.subs[i].history || m.id !in s.subs[i].publishedBefore
  {
    var sub := s.subs[i];
    HistorySound(s, i);
    assert SubInv(s, sub) && ChannelInv(s.sends, s.channels[sub.channel]);
    var sent := s.channels[sub.channel].sent;
    if m !in sub.history {
      UnsentMembers(sent[sub.joined..], Ids(sub.history), m);
      var k :| 0 <= k < |sent[sub.joined..]| && sent[sub.joined..][k] == m;
      assert sent[sub.joined + k] == m;
      assert SentBy(s.sends, sub.user, m);
    }
  }

  /**
   * Every delivered message is stored and is the user's. It is after the starting point, by the order
   * of the store, or was stored after the receiver was created, or was not yet published by then.
   */
  lemma NothingForeign(s: State, i: nat, m: Message)
    requires Reachable(s) && IsStreaming(s, i) && m in s.subs[i].pipe.delivered
    ensures m in s.log && Involves(m, s.subs[i].user)
    ensures forall p | 0 <= p < s.subs[i].storedBefore && p < |s.log| && s.subs[i].start == Some(s.log[p].id) ::
              exists q ::
                && 0 <= q < |s.log| && s.log[q] == m
                && (|| StandsAfter(s, p, q) || s.subs[i].storedBefore <= q
                    || (q < s.subs[i].storedBefore && m.id !in s.subs[i].publishedBefore))
  {
    ReachableInv(s);
    var sub := s.subs[i];
    assert SubInv(s, sub);
    StreamIsPrefixOfDue(s, sub);
    assert m in Due(s, sub);
    DueIsOwn(s, i, m);
    forall p | 0 <= p < sub.storedBefore && p < |s.log| && sub.start == Some(s.log[p].id)
      ensures exists q ::
                && 0 <= q < |s.log| && s.log[q] == m
                && (StandsAfter(s, p, q) || sub.storedBefore <= q || (q < sub.storedBefore && m.id !in sub.publishedBefore))
    {
      HistoryMembers(s, i, p, m);
      var q :| 0 <= q < |s.log| && s.log[q] == m;
      if m in sub.history {
        var q' :| 0 <= q' < sub.fetched && q' < |s.log| && s.log[q'] == m && StandsAfter(s, p, q');
      }
    }
  }

  // Receivers and the map

  /** Every live receiver of a user is on the one channel that the map holds for that user. */
  lemma ReceiversShareTheRoute(s: State, i: nat)
    requires Reachable(s) && i < |s.subs| && Attached(s.subs[i])
    ensures s.subs[i].user in s.routes && s.routes[s.subs[i].user] == s.subs[i].channel
    ensures forall u | u in s.routes && s.routes[u] == s.subs[i].channel :: u == s.subs[i].user
    ensures !Enabled(s, SeeChannelClosed(i))
  {
    ReachableInv(s);
    assert SubInv(s, s.subs[i]);
    assert s.routes[s.subs[i].user] in s.routes.Values;
  }

  /** Cleanup removes exactly the users without a live receiver, and disconnects nobody. */
  lemma CleanupIsExact(s: State, user: UserId)
    requires Reachable(s) && Enabled(s, Cleanup)
    ensures var t := Apply(s, Cleanup);
            && t.subs == s.subs
            && (user in t.routes <==> exists i :: 0 <= i < |s.subs| && Attached(s.subs[i]) && s.subs[i].user == user)
            && (user in t.routes ==> user in s.routes && t.routes[user] == s.routes[user])
  {
    ReachableInv(s);
    var t := Apply(s, Cleanup);
    if i :| 0 <= i < |s.subs| && Attached(s.subs[i]) && s.subs[i].user == user {
      assert SubInv(s, s.subs[i]);
    }
    if user in t.routes {
      var i :| 0 <= i < |s.subs| && Attached(s.subs[i]) && s.subs[i].channel == s.routes[user];
      assert SubInv(s, s.subs[i]);
      assert s.subs[i].user == user;
    }
  }

  // No gaps

  /**
   * The stored message is one the subscription should get: stored after the registration, or after its
   * starting point by the order of the store.
   */
  predicate Owed(s: State, sub: Subscription, q: nat)
    requires q < |s.log|
  {
    && Involves(s.log[q], sub.user)
    && (sub.storedBefore <= q || AfterStart(s, sub, q))
  }

  /** The starting point was stored by the time the history was read, and the message is after it. */
  predicate AfterStart(s: State, sub: Subscription, q: nat)
    requires q < |s.log|
  {
    exists p :: 0 <= p < sub.fetched && p < |s.log| && sub.start == Some(s.log[p].id) && StandsAfter(s, p, q)
  }

  /** The message is after the starting point and was stored by the time the history was read. */
  predicate Reached(s: State, sub: Subscription, q: nat)
    requires q < |s.log|
  {
    q < sub.fetched && AfterStart(s, sub, q)
  }

  /** Publishing was abandoned at the sender's channel before this user's channel was tried. */
  ghost predicate LostFor(s: State, sub: Subscription, m: Message) {
    SendIs(s, m.id, CutShort) && m.from != sub.user
  }

  /**
   * For a live receiver, a message of the user whose publishing is over is due, in the history or on
   * the channel, exactly if the history reached it, or it was not yet published when the receiver
   * was created and its publishing was not cut short.
   */
  lemma DueExactly(s: State, i: nat, q: nat)
    requires Inv(s) && IsStreaming(s, i) && Attached(s.subs[i])
    requires q < |s.log| && Involves(s.log[q], s.subs[i].user)
    requires SendIs(s, s.log[q].id, Completed) || SendIs(s, s.log[q].id, CutShort)
    ensures s.log[q] in Due(s, s.subs[i]) <==>
            || Reached(s, s.subs[i], q)
            || (s.log[q].id !in s.subs[i].publishedBefore && !LostFor(s, s.subs[i], s.log[q]))
  {
    var sub, m := s.subs[i], s.log[q];
    assert SubInv(s, sub) && LoggedBy(s.sends, m);
    var sent := s.channels[sub.channel].sent[sub.joined..];
    HistoryOrNot(s, i, q);
    UnsentMembers(sent, Ids(sub.history), m);
    SentMeansPublished(s, i, m);
    assert Attempted(s.sends[m.id], sub.user);
    assert CoveredBy(s, sub, m.id);
    if m.id in Ids(sub.history) {
      IdsIdentify(s, i, m);
    }
  }

  /** An owed message that the history did not reach was not yet published when the receiver was created. */
  lemma OwedIsUnpublished(s: State, i: nat, q: nat)
    requires Inv(s) && IsStreaming(s, i)
    requires q < |s.log| && Owed(s, s.subs[i], q)
    ensures Reached(s, s.subs[i], q) || s.log[q].id !in s.subs[i].publishedBefore
  {
  }

  lemma SentMeansPublished(s: State, i: nat, m: Message)
    requires Inv(s) && IsStreaming(s, i)
    ensures m in s.channels[s.subs[i].channel].sent[s.subs[i].joined..] ==>
              SentBy(s.sends, s.subs[i].user, m) && m.id !in s.subs[i].publishedBefore
  {
  }

  lemma HistoryOrNot(s: State, i: nat, q: nat)
    requires Inv(s) && IsStreaming(s, i) && q < |s.log| && Involves(s.log[q], s.subs[i].user)
    ensures s.log[q] in s.subs[i].history <==> Reached(s, s.subs[i], q)
  {
    var sub := s.subs[i];
    if p :| 0 <= p < |s.log| && sub.start == Some(s.log[p].id) {
      HistoryMembers(s, i, p, s.log[q]);
    } else {
      assert SubInv(s, sub);
      if sub.start.Some? {
        forall m | m in s.log[..sub.fetched]
          ensures m.id != sub.start.value
        {
          var k :| 0 <= k < sub.fetched && s.log[k] == m;
        }
        AnswerToUnknown(s.backend, s.log[..sub.fetched], sub.user, sub.start.value, sub.history);
      }
    }
  }

  lemma IdsIdentify(s: State, i: nat, m: Message)
    requires Inv(s) && IsStreaming(s, i) && m in s.log && m.id in Ids(s.subs[i].history)
    ensures m in s.subs[i].history
  {
    HistorySound(s, i);
    var h :| h in s.subs[i].history && h.id == m.id;
    var a :| 0 <= a < |s.log| && s.log[a] == h;
    var b :| 0 <= b < |s.log| && s.log[b] == m;
  }

  /** Nothing is left to receive or to forward. */
  ghost predicate Drained(s: State, i: nat) {
    && IsStreaming(s, i) && Attached(s.subs[i]) && Open(s.subs[i].pipe)
    && Behind(s, s.subs[i]) == 0
    && forall j | 0 <= j < |s.subs[i].pipe.queues| :: s.subs[i].pipe.queues[j] == []
  }

  /**
   * Once the pipeline has drained, a message of the user whose publishing is over has been delivered
   * exactly if the history reached it, or it was not yet published when the receiver was created and
   * its publishing was not cut short.
   */
  lemma DeliveredExactly(s: State, i: nat, q: nat)
    requires Reachable(s) && Drained(s, i)
    requires q < |s.log| && Involves(s.log[q], s.subs[i].user)
    requires SendIs(s, s.log[q].id, Completed) || SendIs(s, s.log[q].id, CutShort)
    ensures s.log[q] in s.subs[i].pipe.delivered <==>
            || Reached(s, s.subs[i], q)
            || (s.log[q].id !in s.subs[i].publishedBefore && !LostFor(s, s.subs[i], s.log[q]))
    ensures DistinctIds(s.subs[i].pipe.delivered)
  {
    ReachableInv(s);
    DueExactly(s, i, q);
    assert SubInv(s, s.subs[i]);
    StreamIsPrefixOfDue(s, s.subs[i]);
    BacklogEmpty(s.subs[i].pipe.queues, 0);
    assert s.subs[i].pipe.delivered == Due(s, s.subs[i]);
    NoDuplicates(s, i);
  }

  /**
   * No gaps: of the messages stored after the registration or after the starting point, a drained
   * pipeline has delivered every one whose publishing is over, except those that were cut short at
   * their sender's channel and that the history did not reach; those it has not delivered.
   */
  lemma NoGaps(s: State, i: nat, q: nat)
    requires Reachable(s) && Drained(s, i)
    requires q < |s.log| && Owed(s, s.subs[i], q)
    requires SendIs(s, s.log[q].id, Completed) || SendIs(s, s.log[q].id, CutShort)
    ensures s.log[q] in s.subs[i].pipe.delivered <==>
            Reached(s, s.subs[i], q) || !LostFor(s, s.subs[i], s.log[q])
  {
    ReachableInv(s);
    DeliveredExactly(s, i, q);
    OwedIsUnpublished(s, i, q);
  }

  /**
   * On a log stored in the order of its timestamps, either store makes the same delivery: the history
   * reaches a message exactly if the starting point was stored before it and it before the reading.
   */
  lemma ChronologicalDelivery(s: State, i: nat, q: nat)
    requires Reachable(s) && Drained(s, i) && Chronological(s.log)
    requires q < |s.log| && Involves(s.log[q], s.subs[i].user)
    requires SendIs(s, s.log[q].id, Completed) || SendIs(s, s.log[q].id, CutShort)
    ensures s.log[q] in s.subs[i].pipe.delivered <==>
            || (q < s.subs[i].fetched && exists p :: 0 <= p < q && s.subs[i].start == Some(s.log[p].id))
            || (s.log[q].id !in s.subs[i].publishedBefore && !LostFor(s, s.subs[i], s.log[q]))
  {
    DeliveredExactly(s, i, q);
    forall p: nat | p < |s.log|
      ensures StandsAfter(s, p, q) <==> p < q
    {
      BeyondAgrees(s.log, p, q);
    }
  }

  // The skipped recipient

  /** A publish is cut short exactly when the sender's channel is still in the map and has lost its receivers. */
  lemma CutShortExactly(s: State, id: MessageId)
    requires Reachable(s) && Enabled(s, PublishToSender(id))
    ensures var t := Apply(s, PublishToSender(id));
            var m := s.sends[id].message;
            && (SendIs(t, id, CutShort) <==>
                  m.from in s.routes &&
                  forall i | 0 <= i < |s.subs| && Attached(s.subs[i]) :: s.subs[i].user != m.from)
            && (SendIs(t, id, CutShort) ==> t.channels == s.channels)
  {
    ReachableInv(s);
    var m := s.sends[id].message;
    if m.from in s.routes {
      var c := s.routes[m.from];
      assert HasReceivers(s, c) <==> exists i :: 0 <= i < |s.subs| && Attached(s.subs[i]) && s.subs[i].user == m.from by {
        forall i | 0 <= i < |s.subs| && Attached(s.subs[i])
          ensures s.subs[i].channel == c <==> s.subs[i].user == m.from
        {
          assert SubInv(s, s.subs[i]);
        }
      }
    }
  }

  lemma {:induction false} CutShortForever(s: State, steps: seq<Step>, id: MessageId)
    requires Inv(s) && Legal(s, steps) && SendIs(s, id, CutShort)
    ensures var t := Run(s, steps); SendIs(t, id, CutShort) && t.sends[id].message == s.sends[id].message
    decreases |steps|
  {
    if steps != [] {
      StepKeepsInv(s, steps[0]);
      CutShortForever(Apply(s, steps[0]), steps[1..], id);
    }
  }

  lemma {:induction false} RunKeepsIdentity(s: State, steps: seq<Step>, i: nat)
    requires Inv(s) && Legal(s, steps) && IsStreaming(s, i)
    ensures var t := Run(s, steps);
            && IsStreaming(t, i) && SameSubscription(s.subs[i], t.subs[i]) && t.subs[i].history == s.subs[i].history
    decreases |steps|
  {
    if steps != [] {
      StepKeepsIdentity(s, steps[0], i);
      StepInv(s, steps[0]);
      assert SubInv(Apply(s, steps[0]), Apply(s, steps[0]).subs[i]);
      RunKeepsIdentity(Apply(s, steps[0]), steps[1..], i);
    }
  }

  /** A message cut short at its sender's channel and missed by the history is never delivered on this subscription. */
  lemma SkippedForGood(s: State, steps: seq<Step>, i: nat, m: Message)
    requires Reachable(s) && Legal(s, steps) && IsStreaming(s, i)
    requires LostFor(s, s.subs[i], m) && s.sends[m.id].message == m && m !in s.subs[i].history
    ensures var t := Run(s, steps); IsStreaming(t, i) && m !in t.subs[i].pipe.delivered
  {
    ReachableInv(s);
    RunKeepsInv(s, steps);
    RunKeepsIdentity(s, steps, i);
    CutShortForever(s, steps, m.id);
    var t := Run(s, steps);
    var sub := t.subs[i];
    assert SubInv(t, sub);
    SentMeansPublished(t, i, m);
    UnsentMembers(t.channels[sub.channel].sent[sub.joined..], Ids(sub.history), m);
    StreamIsPrefixOfDue(t, sub);
    assert sub.pipe.delivered <= Due(t, sub);
    assert m !in Due(t, sub);
  }

  // A run that skips a recipient

  lemma {:induction false} RunConcat(s: State, a: seq<Step>, b: seq<Step>)
    requires Legal(s, a) && Legal(Run(s, a), b)
    ensures Legal(s, a + b) && Run(s, a + b) == Run(Run(s, a), b)
    decreases |a|
  {
    if a == [] {
      assert a + b == b;
    } else {
      assert (a + b)[1..] == a[1..] + b;
      RunConcat(Apply(s, a[0]), a[1..], b);
    }
  }

  lemma RunOne(s: State, a: Step)
    requires Enabled(s, a)
    ensures Legal(s, [a]) && Run(s, [a]) == Apply(s, a)
  {
  }

  lemma RunTwo(s: State, a: Step, b: Step)
    requires Enabled(s, a) && Enabled(Apply(s, a), b)
    ensures Legal(s, [a, b]) && Run(s, [a, b]) == Apply(Apply(s, a), b)
  {
    RunOne(s, a);
    RunOne(Apply(s, a), b);
    RunConcat(s, [a], [b]);
    assert [a] + [b] == [a, b];
  }

  /** User 1's failed subscription leaves a stale channel behind, and user 2 listens. */
  ghost predicate StaleAndListening(s: State) {
    && Shaped(s) && s.log == [] && s.sends == map[] && s.routes == map[1 := 0, 2 := 1]
    && |s.channels| == |s.subs| == 2
    && s.subs[0].progress.Abandoned?
    && s.subs[1].user == 2 && s.subs[1].channel == 1
    && s.subs[1].storedBefore == 0 && s.subs[1].joined == 0
    && s.channels[1].sent == []
  }

  ghost predicate Stale(s: State) {
    && Shaped(s) && s.log == [] && s.sends == map[]
    && s.routes == map[1 := 0] && s.channels == [Channel(1, [])]
    && |s.subs| == 1 && s.subs[0].progress.Abandoned?
  }

  lemma ReachStale(backend: Backend, capacity: nat) returns (steps: seq<Step>)
    requires capacity >= 1
    ensures Legal(Init(backend, capacity), steps) && Stale(Run(Init(backend, capacity), steps))
  {
    var s0 := Init(backend, capacity);
    var s1 := Apply(s0, Register(1, Some(0)));
    assert s1.channels == [Channel(1, [])] && |s1.subs| == 1;
    steps := [Register(1, Some(0)), Abandon(0)];
    RunTwo(s0, Register(1, Some(0)), Abandon(0));
  }

  lemma RegisterBesideStale(s: State)
    requires Stale(s)
    ensures Enabled(s, Register(2, None))
    ensures var t := Apply(s, Register(2, None));
            StaleAndListening(t) && t.subs[1].progress.Registered? && t.subs[1].start == None && t.subs[1].next == 0
  {
  }

  lemma OpenBesideStale(s: State)
    requires StaleAndListening(s) && s.subs[1].progress.Registered? && s.subs[1].start == None
    ensures Enabled(s, OpenStream(1, []))
    ensures var t := Apply(s, OpenStream(1, []));
            StaleAndListening(t) && IsStreaming(t, 1) && Attached(t.subs[1]) && t.subs[1].history == []
  {
  }

  lemma ListenBesideStale(s: State) returns (steps: seq<Step>)
    requires Stale(s)
    ensures Legal(s, steps) && StaleAndListening(Run(s, steps))
    ensures var t := Run(s, steps); IsStreaming(t, 1) && Attached(t.subs[1]) && t.subs[1].history == []
  {
    RegisterBesideStale(s);
    OpenBesideStale(Apply(s, Register(2, None)));
    steps := [Register(2, None), OpenStream(1, [])];
    RunTwo(s, Register(2, None), OpenStream(1, []));
  }

  lemma SendIntoStale(s: State, m: Message) returns (steps: seq<Step>)
    requires StaleAndListening(s) && IsStreaming(s, 1) && Attached(s.subs[1])
    requires m.from == 1 && m.to == 2
    ensures Legal(s, steps)
    ensures var t := Run(s, steps);
            && t.subs == s.subs && t.channels == s.channels
            && t.log == [m] && SendIs(t, m.id, CutShort) && t.sends[m.id].message == m
  {
    var s1 := Apply(s, Create(m));
    RunTwo(s, Create(m), Persist(m.id));
    var s2 := Apply(s1, Persist(m.id));
    assert !HasReceivers(s2, 0);
    var s3 := Apply(s2, PublishToSender(m.id));
    RunOne(s2, PublishToSender(m.id));
    steps := [Create(m), Persist(m.id)] + [PublishToSender(m.id)];
    RunConcat(s, [Create(m), Persist(m.id)], [PublishToSender(m.id)]);
  }

  /**
   * Without the exception for cut-short publishes the no-gap property is false: user 1 fails to
   * subscribe and, before the next cleanup, writes to the listening user 2.
   */
  lemma SkippedRecipient(backend: Backend, capacity: nat, m: Message) returns (s: State)
    requires capacity >= 1 && m.from == 1 && m.to == 2
    ensures Reachable(s)
    ensures IsStreaming(s, 1) && Attached(s.subs[1]) && s.subs[1].user == m.to
    ensures s.log == [m] && Owed(s, s.subs[1], 0) && LostFor(s, s.subs[1], m) && m !in Due(s, s.subs[1])
  {
    var first := ReachStale(backend, capacity);
    var stale := Run(Init(backend, capacity), first);
    var second := ListenBesideStale(stale);
    RunConcat(Init(backend, capacity), first, second);
    var listening := Run(stale, second);
    var third := SendIntoStale(listening, m);
    RunConcat(Init(backend, capacity), first + second, third);
    s := Run(listening, third);
    assert Legal(Init(backend, capacity), first + second + third);
    assert s.channels[1].sent[0..] == [];
  }
}
