/** The subscriptions handler as an object: the critical sections that the delivery system takes as steps. */
module Handler {
  import opened Wrappers
  import opened Messages
  import opened Pipelines
  import opened Delivery
  import opened DeliveryInvariants

  /** The sending end of a broadcast channel: a send with no receivers is an error and stores nothing. */
  class Sender {
    var sent: seq<Message>
    var receivers: nat

    constructor ()
      ensures sent == [] && receivers == 0
    {
      sent, receivers := [], 0;
    }

    method Send(m: Message) returns (ok: bool)
      modifies this
      ensures ok == (old(receivers) > 0) && receivers == old(receivers)
      ensures sent == old(sent) + (if ok then [m] else [])
    {
      ok := receivers > 0;
      if ok {
        sent := sent + [m];
      }
    }

    /** A new receiver starts at the current end of the channel. */
    method Subscribe() returns (position: nat)
      modifies this
      ensures sent == old(sent) && receivers == old(receivers) + 1 && position == |sent|
    {
      receivers := receivers + 1;
      position := |sent|;
    }
  }

  /** What the map holds for one user: the channel's contents, and whether anybody receives them. */
  datatype Entry = Entry(sent: seq<Message>, live: bool)

  type Table = map<UserId, Entry>

  function Offer(table: Table, user: UserId, m: Message): Table {
    if user in table && table[user].live then table[user := table[user].(sent := table[user].sent + [m])] else table
  }

  /** The sender's own channel is in the map without a receiver. */
  predicate StaleFor(table: Table, user: UserId) {
    user in table && !table[user].live
  }

  function Publish(table: Table, m: Message): Table {
    if StaleFor(table, m.from) then table
    else
      var offered := Offer(table, m.from, m);
      if m.from == m.to then offered else Offer(offered, m.to, m)
  }

  class SubscriptionsHandler {
    var newMessages: map<UserId, Sender>

    /** No two users share a channel. */
    ghost predicate Valid()
      reads this
    {
      forall u, v | u in newMessages && v in newMessages && u != v :: newMessages[u] != newMessages[v]
    }

    ghost function Contents(): Table
      reads this, newMessages.Values
    {
      map u | u in newMessages :: Entry(newMessages[u].sent, newMessages[u].receivers > 0)
    }

    constructor ()
      ensures Valid() && Contents() == map[]
    {
      newMessages := map[];
    }

    /** Sends to the user's channel, if the map holds one. */
    method SendToSubscribers(user: UserId, m: Message) returns (ok: bool)
      requires Valid()
      modifies newMessages.Values
      ensures Valid() && newMessages == old(newMessages)
      ensures Contents() == Offer(old(Contents()), user, m)
      ensures ok <==> !StaleFor(old(Contents()), user)
    {
      ok := true;
      if user in newMessages {
        assert newMessages[user] in newMessages.Values;
        ok := newMessages[user].Send(m);
        assert forall u | u in newMessages && u != user ::
            newMessages[u].sent == old(newMessages[u].sent) && newMessages[u].receivers == old(newMessages[u].receivers);
      }
      assert Contents().Keys == Offer(old(Contents()), user, m).Keys;
      assert forall u | u in newMessages :: Contents()[u] == Offer(old(Contents()), user, m)[u];
    }

    method HandleNewMessage(m: Message) returns (ok: bool)
      requires Valid()
      modifies newMessages.Values
      ensures Valid() && newMessages == old(newMessages)
      ensures Contents() == Publish(old(Contents()), m)
      ensures ok <==> !StaleFor(old(Contents()), m.from) && (m.from == m.to || !StaleFor(old(Contents()), m.to))
    {
      ok := SendToSubscribers(m.from, m);
      if ok && m.from != m.to {
        ok := SendToSubscribers(m.to, m);
      }
    }

    /** Drops the channels that nobody receives from. */
    method CleanUp()
      requires Valid()
      modifies this
      ensures Valid() && newMessages.Keys <= old(newMessages.Keys)
      ensures Contents() == map u | u in old(Contents()) && old(Contents())[u].live :: old(Contents())[u]
    {
      var all := newMessages;
      var kept: map<UserId, Sender> := map[];
      var left := all.Keys;
      while left != {}
        invariant left <= all.Keys
        invariant kept == map u | u in all && u !in left && all[u].receivers > 0 :: all[u]
        decreases left
      {
        var u :| u in left;
        left := left - {u};
        if all[u].receivers > 0 {
          kept := kept[u := all[u]];
        }
      }
      newMessages := kept;
    }

    /** Finds or creates the user's channel and adds a receiver to it. */
    method Register(user: UserId) returns (position: nat)
      requires Valid()
      modifies this, newMessages.Values
      ensures Valid()
      ensures var before := if user in old(Contents()) then old(Contents())[user].sent else [];
              position == |before| && Contents() == old(Contents())[user := Entry(before, true)]
    {
      if user !in newMessages {
        var channel := new Sender();
        newMessages := newMessages[user := channel];
      }
      assert newMessages[user] in newMessages.Values;
      position := newMessages[user].Subscribe();
    }

    /** Queues the history and remembers its ids. */
    static method QueueHistory(previous: seq<Message>) returns (queue: seq<Message>, sentMessages: set<MessageId>)
      ensures queue == previous && sentMessages == Ids(previous)
    {
      queue, sentMessages := [], {};
      for i := 0 to |previous|
        invariant queue == previous[..i] && sentMessages == Ids(previous[..i])
      {
        sentMessages := sentMessages + {previous[i].id};
        queue := queue + [previous[i]];
        assert previous[..i + 1] == previous[..i] + [previous[i]];
      }
      assert previous[..|previous|] == previous;
    }
  }

  // The steps of the delivery system on the same table

  ghost function TableOf(s: State): Table
    requires Shaped(s)
  {
    map u | u in s.routes :: Entry(s.channels[s.routes[u]].sent, HasReceivers(s, s.routes[u]))
  }

  lemma OfferRefines(s: State, user: UserId, id: MessageId, phase: Phase)
    requires Shaped(s) && RoutesInv(s) && id in s.sends && user in s.routes && HasReceivers(s, s.routes[user])
    ensures var t := SetPhase(Broadcast(s, s.routes[user], s.sends[id].message), id, phase);
            Shaped(t) && RoutesInv(t) && TableOf(t) == Offer(TableOf(s), user, s.sends[id].message)
  {
  }

  lemma SenderOfferRefines(s: State, id: MessageId)
    requires RoutesInv(s) && Enabled(s, PublishToSender(id))
    ensures var t := PublishToSenderStep(s, id);
            var m := s.sends[id].message;
            && Shaped(t) && RoutesInv(t) && id in t.sends && t.sends[id].message == m
            && (if StaleFor(TableOf(s), m.from) then t.sends[id].phase.CutShort? else t.sends[id].phase.Publishing?)
            && TableOf(t) == Offer(TableOf(s), m.from, m)
  {
    var m := s.sends[id].message;
    var t := PublishToSenderStep(s, id);
    if m.from in s.routes && HasReceivers(s, s.routes[m.from]) {
      OfferRefines(s, m.from, id, Publishing);
    } else {
      SamePlaces(s, t);
    }
  }

  lemma ReceiverOfferRefines(s: State, id: MessageId)
    requires RoutesInv(s) && Enabled(s, PublishToReceiver(id))
    ensures var t := PublishToReceiverStep(s, id);
            var m := s.sends[id].message;
            && Shaped(t) && SendIs(t, id, Completed)
            && TableOf(t) == if m.from == m.to then TableOf(s) else Offer(TableOf(s), m.to, m)
  {
    var m := s.sends[id].message;
    var t := PublishToReceiverStep(s, id);
    if m.from != m.to && m.to in s.routes && HasReceivers(s, s.routes[m.to]) {
      OfferRefines(s, m.to, id, Completed);
    } else {
      SamePlaces(s, t);
    }
  }

  lemma SamePlaces(s: State, t: State)
    requires Shaped(s) && t.capacity == s.capacity && t.routes == s.routes && t.channels == s.channels && t.subs == s.subs
    ensures Shaped(t) && TableOf(t) == TableOf(s)
  {
  }

  /** Publishing without interruption is what HandleNewMessage does to the table. */
  lemma PublishRefines(s: State, id: MessageId)
    requires Inv(s) && Enabled(s, PublishToSender(id))
    ensures var offered := Apply(s, PublishToSender(id));
            var m := s.sends[id].message;
            if StaleFor(TableOf(s), m.from)
            then SendIs(offered, id, CutShort) && Shaped(offered) && TableOf(offered) == Publish(TableOf(s), m)
            else
              && Enabled(offered, PublishToReceiver(id))
              && var t := Apply(offered, PublishToReceiver(id));
                 SendIs(t, id, Completed) && Shaped(t) && TableOf(t) == Publish(TableOf(s), m)
  {
    SenderOfferRefines(s, id);
    if !StaleFor(TableOf(s), s.sends[id].message.from) {
      ReceiverOfferRefines(Apply(s, PublishToSender(id)), id);
    }
  }

  /** The Cleanup step does to the table what CleanUp does. */
  lemma CleanupRefines(s: State)
    requires Enabled(s, Cleanup)
    ensures var t := Apply(s, Cleanup);
            Shaped(t) && TableOf(t) == map u | u in TableOf(s) && TableOf(s)[u].live :: TableOf(s)[u]
  {
  }

  lemma RegisterReceivers(s: State, user: UserId, start: Option<MessageId>, c: nat)
    requires Shaped(s) && c < |s.channels|
    ensures var t := RegisterStep(s, user, start);
            |t.subs| == |s.subs| + 1 && (t.subs[|s.subs|].channel != c ==> HasReceivers(t, c) == HasReceivers(s, c))
  {
    var t := RegisterStep(s, user, start);
    if i :| 0 <= i < |t.subs| && Attached(t.subs[i]) && t.subs[i].channel == c {
      assert t.subs[|s.subs|].channel != c ==> t.subs[i] == s.subs[i];
    }
    if i :| 0 <= i < |s.subs| && Attached(s.subs[i]) && s.subs[i].channel == c {
      assert t.subs[i] == s.subs[i];
    }
  }

  /** The Register step does to the table what Register does. */
  lemma RegisterRefines(s: State, user: UserId, start: Option<MessageId>)
    requires Inv(s) && Enabled(s, Delivery.Register(user, start))
    ensures var t := Apply(s, Delivery.Register(user, start));
            var before := if user in TableOf(s) then TableOf(s)[user].sent else [];
            && Shaped(t) && TableOf(t) == TableOf(s)[user := Entry(before, true)]
            && t.subs[|s.subs|].joined == |before|
  {
    assert Shaped(Apply(s, Delivery.Register(user, start))) by {
      StepInv(s, Delivery.Register(user, start));
    }
    RegisterTable(s, user, start);
  }

  lemma RegisterTable(s: State, user: UserId, start: Option<MessageId>)
    requires RoutesInv(s) && Shaped(s) && Shaped(RegisterStep(s, user, start))
    ensures var t := RegisterStep(s, user, start);
            var before := if user in TableOf(s) then TableOf(s)[user].sent else [];
            && TableOf(t) == TableOf(s)[user := Entry(before, true)]
            && t.subs[|s.subs|].joined == |before|
  {
    var t := RegisterStep(s, user, start);
    var n := |s.subs|;
    assert Attached(t.subs[n]) && HasReceivers(t, t.subs[n].channel);
    forall u | u in s.routes && u != user
      ensures HasReceivers(t, t.routes[u]) == HasReceivers(s, s.routes[u])
    {
      RegisterReceivers(s, user, start, s.routes[u]);
    }
  }
}
