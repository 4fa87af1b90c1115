/**
 * Two connections of one user, the second resumed from the last message received on the first, under
 * every interleaving of sends: exactly which messages come on neither.
 */
module Resumption {
  import opened Wrappers
  import opened Messages
  import opened Histories
  import opened Orders
  import opened Pipelines
  import opened Delivery
  import opened DeliveryInvariants
  import opened DeliveryTheorems
  import opened DeliveryLiveness

  // Order on a channel

  lemma {:induction false} UnsentPrecedes(sent: seq<Message>, known: set<MessageId>, x: Message, y: Message)
    ensures Precedes(Unsent(sent, known), x, y) <==> Precedes(sent, x, y) && x.id !in known && y.id !in known
  {
    if sent != [] {
      var front, last := sent[..|sent| - 1], sent[|sent| - 1];
      assert sent == front + [last];
      UnsentPrecedes(front, known, x, y);
      UnsentMembers(front, known, x);
      PrecedesConcat(Unsent(front, known), if last.id in known then [] else [last], x, y);
      PrecedesConcat(front, [last], x, y);
    }
  }

  // What has come on a connection by a message

  /** The client has got this beginning of what connection i wrote, up to log message p. */
  ghost predicate Got(s: State, i: nat, got: seq<Message>, p: nat) {
    && IsStreaming(s, i) && p < |s.log|
    && got <= s.subs[i].pipe.delivered && got != [] && got[|got| - 1] == s.log[p]
  }

  /** The channel accepted log message q before log message p, after the subscription registered. */
  ghost predicate SentBefore(s: State, sub: Subscription, q: nat, p: nat)
    requires SubShaped(s, sub) && p < |s.log| && q < |s.log|
  {
    Precedes(s.channels[sub.channel].sent[sub.joined..], s.log[q], s.log[p])
  }

  /** Log message q comes on the subscription no later than log message p. */
  ghost predicate ComesBy(s: State, sub: Subscription, q: nat, p: nat)
    requires SubShaped(s, sub) && p < |s.log| && q < |s.log|
  {
    || q == p
    || if Reached(s, sub, p) then Precedes(sub.history, s.log[q], s.log[p])
       else Reached(s, sub, q) || SentBefore(s, sub, q, p)
  }

  lemma LivePrecedes(s: State, i: nat, q: nat, p: nat)
    requires Inv(s) && IsStreaming(s, i) && q < |s.log| && p < |s.log| && !Reached(s, s.subs[i], p)
    requires Involves(s.log[q], s.subs[i].user) && Involves(s.log[p], s.subs[i].user)
    ensures var live := Unsent(s.channels[s.subs[i].channel].sent[s.subs[i].joined..], Ids(s.subs[i].history));
            Precedes(live, s.log[q], s.log[p]) <==> !Reached(s, s.subs[i], q) && SentBefore(s, s.subs[i], q, p)
  {
    var sub := s.subs[i];
    UnsentPrecedes(s.channels[sub.channel].sent[sub.joined..], Ids(sub.history), s.log[q], s.log[p]);
    forall x: nat | x == q || x == p
      ensures s.log[x].id in Ids(sub.history) <==> Reached(s, sub, x)
    {
      HistoryOrNot(s, i, x);
      if s.log[x].id in Ids(sub.history) {
        IdsIdentify(s, i, s.log[x]);
      }
    }
  }

  lemma DuePrecedes(s: State, i: nat, q: nat, p: nat)
    requires Inv(s) && IsStreaming(s, i) && q < |s.log| && p < |s.log| && s.log[p] in Due(s, s.subs[i])
    requires Involves(s.log[q], s.subs[i].user) && Involves(s.log[p], s.subs[i].user)
    ensures s.log[q] == s.log[p] || Precedes(Due(s, s.subs[i]), s.log[q], s.log[p]) <==> ComesBy(s, s.subs[i], q, p)
  {
    var sub := s.subs[i];
    var live := Unsent(s.channels[sub.channel].sent[sub.joined..], Ids(sub.history));
    assert DistinctIds(s.log);
    HistoryOrNot(s, i, q);
    HistoryOrNot(s, i, p);
    PrecedesConcat(sub.history, live, s.log[q], s.log[p]);
    if Reached(s, sub, p) {
      UnsentMembers(s.channels[sub.channel].sent[sub.joined..], Ids(sub.history), s.log[p]);
      assert s.log[p].id in Ids(sub.history);
      assert !Precedes(live, s.log[q], s.log[p]);
    } else {
      LivePrecedes(s, i, q, p);
      assert !Precedes(sub.history, s.log[q], s.log[p]);
    }
  }

  /**
   * A client that has got a beginning of what a connection wrote, up to message p, has got exactly the
   * messages that come on the connection no later: of the history what stands before p in it, else
   * the whole history and what the channel accepted before p.
   */
  lemma GotExactly(s: State, i: nat, got: seq<Message>, p: nat, q: nat)
    requires Reachable(s) && Got(s, i, got, p) && q < |s.log| && Involves(s.log[q], s.subs[i].user)
    ensures s.log[q] in got <==> ComesBy(s, s.subs[i], q, p)
  {
    var due := Due(s, s.subs[i]);
    EndsRatherThanSkips(s, i);
    ReachableInv(s);
    DueIsDistinct(s, i);
    assert got <= due && due[|got| - 1] == s.log[p];
    DueIsOwn(s, i, s.log[p]);
    BeginningMembers(got, due, s.log[q]);
    DuePrecedes(s, i, q, p);
  }

  // The order of a history

  /** The order of the history before the store's choice among equal timestamps. */
  predicate ListedBefore(s: State, q: nat, p: nat)
    requires p < |s.log| && q < |s.log|
  {
    match s.backend
    case InMemory => q < p
    case Relational => s.log[q].timestamp < s.log[p].timestamp
  }

  /** No two stored messages have the same timestamp, or the store does not order by it. */
  ghost predicate OrderIsKnown(s: State) {
    s.backend.InMemory? || forall a, b | 0 <= a < b < |s.log| :: s.log[a].timestamp != s.log[b].timestamp
  }

  lemma RelationalHistoryPrecedes(s: State, i: nat, q: nat, p: nat)
    requires Inv(s) && IsStreaming(s, i) && q < |s.log| && p < |s.log| && s.backend.Relational?
    requires s.log[q] in s.subs[i].history && s.log[p] in s.subs[i].history
    ensures s.log[q].timestamp < s.log[p].timestamp ==> Precedes(s.subs[i].history, s.log[q], s.log[p])
    ensures Precedes(s.subs[i].history, s.log[q], s.log[p]) ==> s.log[q].timestamp <= s.log[p].timestamp
  {
  }

  lemma InMemoryHistoryPrecedes(s: State, i: nat, q: nat, p: nat)
    requires Inv(s) && IsStreaming(s, i) && q < |s.log| && p < |s.log| && s.backend.InMemory?
    requires Reached(s, s.subs[i], p) && Reached(s, s.subs[i], q)
    requires Involves(s.log[q], s.subs[i].user) && Involves(s.log[p], s.subs[i].user)
    ensures Precedes(s.subs[i].history, s.log[q], s.log[p]) <==> q < p
  {
    var sub := s.subs[i];
    assert SubInv(s, sub) && DistinctIds(s.log);
    var r :| 0 <= r < p && sub.start == Some(s.log[r].id);
    var seen := s.log[..sub.fetched];
    assert DistinctIds(seen) && seen[r] == s.log[r] && seen[q] == s.log[q] && seen[p] == s.log[p];
    SincePrecedes(seen, sub.user, r, q, p);
  }

  /** Two messages that the history holds stand in it by the order of the store. */
  lemma HistoryPrecedes(s: State, i: nat, q: nat, p: nat)
    requires Inv(s) && IsStreaming(s, i) && q < |s.log| && p < |s.log| && OrderIsKnown(s)
    requires Reached(s, s.subs[i], p) && Involves(s.log[q], s.subs[i].user) && Involves(s.log[p], s.subs[i].user)
    ensures Precedes(s.subs[i].history, s.log[q], s.log[p]) <==> Reached(s, s.subs[i], q) && ListedBefore(s, q, p)
  {
    HistoryOrNot(s, i, q);
    HistoryOrNot(s, i, p);
    HistorySound(s, i);
    if s.log[q] in s.subs[i].history {
      match s.backend {
        case InMemory => InMemoryHistoryPrecedes(s, i, q, p);
        case Relational => RelationalHistoryPrecedes(s, i, q, p);
      }
    }
  }

  // Two connections

  /**
   * The client came back with log message p, the last it had got from connection i, and connection j,
   * on which it did, has drained and been read.
   */
  ghost predicate Resumed(s: State, i: nat, got: seq<Message>, j: nat, p: nat) {
    && Got(s, i, got, p) && Drained(s, j) && s.subs[j].user == s.subs[i].user
    && s.subs[j].start == Some(s.log[p].id) && p < s.subs[j].storedBefore
  }

  /** The second history holds the message. */
  predicate Refetched(s: State, j: nat, p: nat, q: nat)
    requires j < |s.subs| && p < |s.log| && q < |s.log|
  {
    q < s.subs[j].fetched && StandsAfter(s, p, q)
  }

  lemma AfterResumed(s: State, j: nat, p: nat, q: nat)
    requires Reachable(s) && IsStreaming(s, j) && p < |s.log| && q < |s.log|
    requires s.subs[j].start == Some(s.log[p].id) && p < s.subs[j].storedBefore
    ensures Reached(s, s.subs[j], q) <==> Refetched(s, j, p, q)
    ensures s.log[q].id in s.subs[j].publishedBefore ==> q < s.subs[j].storedBefore <= s.subs[j].fetched
  {
    ReachableInv(s);
    var sub := s.subs[j];
    assert SubInv(s, sub) && DistinctIds(s.log);
    if s.log[q].id in sub.publishedBefore {
      assert LoggedBy(s.sends, s.log[q]);
      var k :| 0 <= k < sub.storedBefore && s.log[k] == s.log[q];
    }
  }

  /**
   * The client has missed a message whose publishing is over exactly if it does not come on the first
   * connection by the last message got there, is not in the second history, and was cut short, or
   * published by the time of the second registration.
   */
  lemma MissedExactly(s: State, i: nat, got: seq<Message>, j: nat, p: nat, q: nat)
    requires Reachable(s) && Resumed(s, i, got, j, p) && q < |s.log| && Involves(s.log[q], s.subs[i].user)
    requires SendIs(s, s.log[q].id, Completed) || SendIs(s, s.log[q].id, CutShort)
    ensures s.log[q] !in got && s.log[q] !in s.subs[j].pipe.delivered <==>
            && !ComesBy(s, s.subs[i], q, p) && !Refetched(s, j, p, q)
            && (LostFor(s, s.subs[j], s.log[q]) || s.log[q].id in s.subs[j].publishedBefore)
  {
    GotExactly(s, i, got, p, q);
    DeliveredExactly(s, j, q);
    AfterResumed(s, j, p, q);
  }

  /**
   * The client gets a message whose publishing is over on both connections exactly if it comes on the
   * first by the last message got there, and is in the second history, or was unpublished at the second
   * registration and not cut short.
   */
  lemma RepeatedExactly(s: State, i: nat, got: seq<Message>, j: nat, p: nat, q: nat)
    requires Reachable(s) && Resumed(s, i, got, j, p) && q < |s.log| && Involves(s.log[q], s.subs[i].user)
    requires SendIs(s, s.log[q].id, Completed) || SendIs(s, s.log[q].id, CutShort)
    ensures s.log[q] in got && s.log[q] in s.subs[j].pipe.delivered <==>
            && ComesBy(s, s.subs[i], q, p)
            && (|| Refetched(s, j, p, q)
                || (s.log[q].id !in s.subs[j].publishedBefore && !LostFor(s, s.subs[j], s.log[q])))
  {
    GotExactly(s, i, got, p, q);
    DeliveredExactly(s, j, q);
    AfterResumed(s, j, p, q);
  }

  /** An earlier connection, what the client has got from it, and the log message that came last. */
  datatype Earlier = Earlier(sub: nat, got: seq<Message>, last: nat)

  ghost predicate Ended(s: State, e: Earlier, user: UserId) {
    Got(s, e.sub, e.got, e.last) && s.subs[e.sub].user == user
  }

  ghost predicate ComesByEnd(s: State, e: Earlier, q: nat)
    requires q < |s.log|
  {
    Got(s, e.sub, e.got, e.last) && ComesBy(s, s.subs[e.sub], q, e.last)
  }

  /** The same as for two, over any number of earlier connections. */
  lemma MissedByAllExactly(s: State, earlier: seq<Earlier>, j: nat, p: nat, q: nat)
    requires Reachable(s) && Drained(s, j)
    requires p < |s.log| && s.subs[j].start == Some(s.log[p].id) && p < s.subs[j].storedBefore
    requires forall x | 0 <= x < |earlier| :: Ended(s, earlier[x], s.subs[j].user)
    requires q < |s.log| && Involves(s.log[q], s.subs[j].user)
    requires SendIs(s, s.log[q].id, Completed) || SendIs(s, s.log[q].id, CutShort)
    ensures (&& s.log[q] !in s.subs[j].pipe.delivered
             && forall x | 0 <= x < |earlier| :: s.log[q] !in earlier[x].got) <==>
            && (forall x | 0 <= x < |earlier| :: !ComesByEnd(s, earlier[x], q))
            && !Refetched(s, j, p, q)
            && (LostFor(s, s.subs[j], s.log[q]) || s.log[q].id in s.subs[j].publishedBefore)
  {
    DeliveredExactly(s, j, q);
    AfterResumed(s, j, p, q);
    forall x | 0 <= x < |earlier|
      ensures s.log[q] in earlier[x].got <==> ComesByEnd(s, earlier[x], q)
    {
      assert Ended(s, earlier[x], s.subs[j].user);
      GotExactly(s, earlier[x].sub, earlier[x].got, earlier[x].last, q);
    }
  }

  /**
   * Of the completed messages, the client has missed exactly the overtaken ones: not after the last
   * message got, by the order of the store, and published by the time of the second registration,
   * but neither in the first history nor, if p came live, accepted by the channel before p.
   */
  lemma OvertakenExactly(s: State, i: nat, got: seq<Message>, j: nat, p: nat, q: nat)
    requires Reachable(s) && Resumed(s, i, got, j, p) && OrderIsKnown(s)
    requires q < |s.log| && Involves(s.log[q], s.subs[i].user) && SendIs(s, s.log[q].id, Completed)
    ensures s.log[q] !in got && s.log[q] !in s.subs[j].pipe.delivered <==>
            && q != p && !StandsAfter(s, p, q) && s.log[q].id in s.subs[j].publishedBefore
            && !Reached(s, s.subs[i], q) && (Reached(s, s.subs[i], p) || !SentBefore(s, s.subs[i], q, p))
  {
    MissedExactly(s, i, got, j, p, q);
    AfterResumed(s, j, p, q);
    ReachableInv(s);
    var sub := s.subs[i];
    if Reached(s, sub, p) {
      LastGotIsOwn(s, i, got, p);
      HistoryPrecedes(s, i, q, p);
    }
  }

  lemma LastGotIsOwn(s: State, i: nat, got: seq<Message>, p: nat)
    requires Reachable(s) && Got(s, i, got, p)
    ensures Involves(s.log[p], s.subs[i].user)
  {
    EndsRatherThanSkips(s, i);
    ReachableInv(s);
    assert s.log[p] in s.subs[i].pipe.delivered;
    DueIsOwn(s, i, s.log[p]);
  }

  // Missed for good

  lemma StepKeepsSub(s: State, step: Step, k: nat)
    requires Enabled(s, step) && k < |s.subs|
    ensures k < |Apply(s, step).subs| && SameSubscription(s.subs[k], Apply(s, step).subs[k])
  {
  }

  lemma {:induction false} RunKeepsSub(s: State, steps: seq<Step>, k: nat)
    requires Inv(s) && Legal(s, steps) && k < |s.subs|
    ensures k < |Run(s, steps).subs| && SameSubscription(s.subs[k], Run(s, steps).subs[k])
    decreases |steps|
  {
    if steps != [] {
      StepInv(s, steps[0]);
      StepKeepsSub(s, steps[0], k);
      RunKeepsSub(Apply(s, steps[0]), steps[1..], k);
    }
  }

  lemma {:induction false} RunKeepsLog(s: State, steps: seq<Step>)
    requires Inv(s) && Legal(s, steps)
    ensures s.log <= Run(s, steps).log && Run(s, steps).backend == s.backend
    decreases |steps|
  {
    if steps != [] {
      StepKeepsInv(s, steps[0]);
      RunKeepsLog(Apply(s, steps[0]), steps[1..]);
    }
  }

  lemma AttemptStays(s: State, step: Step, id: MessageId, user: UserId)
    requires Inv(s) && Enabled(s, step) && WasAttempted(s, id, user)
    ensures WasAttempted(Apply(s, step), id, user)
  {
    StepKeepsInv(s, step);
  }

  lemma NewSubCounts(s: State, step: Step, id: MessageId)
    requires Enabled(s, step) && |Apply(s, step).subs| > |s.subs|
    ensures var t := Apply(s, step);
            |t.subs| == |s.subs| + 1
            && (WasAttempted(s, id, t.subs[|s.subs|].user) ==> id in t.subs[|s.subs|].publishedBefore)
  {
  }

  /** A subscription registered later counts what has been offered to its user so far as published before it. */
  lemma {:induction false} RegisteredLater(s: State, steps: seq<Step>, k: nat, id: MessageId)
    requires Inv(s) && Legal(s, steps) && |s.subs| <= k < |Run(s, steps).subs|
    requires WasAttempted(s, id, Run(s, steps).subs[k].user)
    ensures id in Run(s, steps).subs[k].publishedBefore
    decreases |steps|
  {
    if steps != [] {
      if k < |Apply(s, steps[0]).subs| {
        RegisteredNow(s, steps, k, id);
      } else {
        StepInv(s, steps[0]);
        AttemptStays(s, steps[0], id, Run(s, steps).subs[k].user);
        RegisteredLater(Apply(s, steps[0]), steps[1..], k, id);
      }
    }
  }

  lemma RegisteredNow(s: State, steps: seq<Step>, k: nat, id: MessageId)
    requires Inv(s) && Legal(s, steps) && steps != [] && |s.subs| <= k < |Apply(s, steps[0]).subs|
    requires k < |Run(s, steps).subs| && WasAttempted(s, id, Run(s, steps).subs[k].user)
    ensures id in Run(s, steps).subs[k].publishedBefore
  {
    var t := Apply(s, steps[0]);
    StepInv(s, steps[0]);
    NewSubCounts(s, steps[0], id);
    RunKeepsSub(t, steps[1..], k);
    assert SameSubscription(t.subs[|s.subs|], Run(s, steps).subs[k]);
  }

  /** The connection starts from a stored message that message q is not after, by the order of the store. */
  ghost predicate StartsFrom(s: State, k: nat, q: nat) {
    && k < |s.subs| && q < |s.log|
    && exists p :: 0 <= p < |s.log| && s.subs[k].start == Some(s.log[p].id) && !StandsAfter(s, p, q)
  }

  lemma PublishedBeforeIsGone(s: State, k: nat, q: nat)
    requires Inv(s) && StartsFrom(s, k, q) && s.log[q].id in s.subs[k].publishedBefore
    ensures s.log[q] !in s.subs[k].pipe.delivered
  {
    var sub, m := s.subs[k], s.log[q];
    assert SubInv(s, sub);
    if sub.progress.Streaming? && m in sub.pipe.delivered {
      StreamIsPrefixOfDue(s, sub);
      assert m in Due(s, sub);
      DueIsOwn(s, k, m);
      var p :| 0 <= p < |s.log| && sub.start == Some(s.log[p].id) && !StandsAfter(s, p, q);
      HistoryMembers(s, k, p, m);
    }
  }

  lemma ClosedDeliversNoMore(s: State, steps: seq<Step>, i: nat)
    requires Inv(s) && Legal(s, steps) && IsStreaming(s, i) && !Open(s.subs[i].pipe)
    ensures i < |Run(s, steps).subs| && Run(s, steps).subs[i].pipe.delivered == s.subs[i].pipe.delivered
  {
    RunIsPipeRun(s, steps, i);
    assert SubInv(s, s.subs[i]);
    RunConserves(s.subs[i].pipe, Projection(s, steps, i));
  }

  lemma MissedIsGoneFromResumed(s: State, i: nat, got: seq<Message>, j: nat, p: nat, q: nat, steps: seq<Step>)
    requires Reachable(s) && Resumed(s, i, got, j, p) && q < |s.log| && Involves(s.log[q], s.subs[i].user)
    requires SendIs(s, s.log[q].id, Completed) || SendIs(s, s.log[q].id, CutShort)
    requires s.log[q] !in got && s.log[q] !in s.subs[j].pipe.delivered && Legal(s, steps)
    ensures j < |Run(s, steps).subs| && s.log[q] !in Run(s, steps).subs[j].pipe.delivered
  {
    MissedExactly(s, i, got, j, p, q);
    AfterResumed(s, j, p, q);
    ReachableInv(s);
    RunKeepsSub(s, steps, j);
    if LostFor(s, s.subs[j], s.log[q]) {
      assert s.sends[s.log[q].id].message == s.log[q] by {
        assert LoggedBy(s.sends, s.log[q]);
      }
      HistoryOrNot(s, j, q);
      SkippedForGood(s, steps, j, s.log[q]);
    } else {
      RunKeepsInv(s, steps);
      RunKeepsLog(s, steps);
      var t := Run(s, steps);
      assert t.log[q] == s.log[q] && t.log[p] == s.log[p];
      PublishedBeforeIsGone(t, j, q);
    }
  }

  /** A message whose publishing is over never comes on a later connection that starts where it is not after. */
  lemma GoneFromLater(s: State, q: nat, steps: seq<Step>, k: nat)
    requires Inv(s) && Legal(s, steps) && q < |s.log| && |s.subs| <= k < |Run(s, steps).subs|
    requires SendIs(s, s.log[q].id, Completed) || SendIs(s, s.log[q].id, CutShort)
    requires Involves(s.log[q], Run(s, steps).subs[k].user) && StartsFrom(Run(s, steps), k, q)
    ensures s.log[q] !in Run(s, steps).subs[k].pipe.delivered
  {
    assert LoggedBy(s.sends, s.log[q]);
    RunKeepsInv(s, steps);
    RunKeepsLog(s, steps);
    assert Run(s, steps).log[q] == s.log[q];
    RegisteredLater(s, steps, k, s.log[q].id);
    PublishedBeforeIsGone(Run(s, steps), k, q);
  }

  /**
   * Whatever happens next, a missed message never comes on the second connection, nor on any later one
   * that starts from a message it is not after, nor on the first if that is closed without it.
   */
  lemma MissedForGood(s: State, i: nat, got: seq<Message>, j: nat, p: nat, q: nat, steps: seq<Step>, k: nat)
    requires Reachable(s) && Resumed(s, i, got, j, p)
    requires q < |s.log| && Involves(s.log[q], s.subs[i].user)
    requires SendIs(s, s.log[q].id, Completed) || SendIs(s, s.log[q].id, CutShort)
    requires s.log[q] !in got && s.log[q] !in s.subs[j].pipe.delivered && Legal(s, steps) && k < |Run(s, steps).subs|
    requires var t := Run(s, steps);
             || k == j || (|s.subs| <= k && t.subs[k].user == s.subs[i].user && StartsFrom(t, k, q))
             || (k == i && !Open(s.subs[i].pipe) && s.log[q] !in s.subs[i].pipe.delivered)
    ensures s.log[q] !in Run(s, steps).subs[k].pipe.delivered
  {
    ReachableInv(s);
    if k == j {
      MissedIsGoneFromResumed(s, i, got, j, p, q, steps);
    } else if k == i {
      ClosedDeliversNoMore(s, steps, i);
    } else {
      GoneFromLater(s, q, steps, k);
    }
  }
}
