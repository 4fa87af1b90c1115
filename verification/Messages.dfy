/** Messages, and the positional queries that the in-memory store answers over its append-only log. */
module Messages {
  import opened Wrappers

  // A UUID is a 128-bit number; only equality and (in the relational store) order matter.
  type UserId = nat
  type MessageId = nat

  datatype Message = Message(id: MessageId, from: UserId, to: UserId, text: string, timestamp: int)

  predicate Involves(m: Message, user: UserId) {
    m.from == user || m.to == user
  }

  /** The messages of the log that `user` sent or receives, in log order. */
  function Inbox(log: seq<Message>, user: UserId): seq<Message> {
    if log == [] then []
    else (if Involves(log[0], user) then [log[0]] else []) + Inbox(log[1..], user)
  }

  /** What follows the first message with that id; nothing when there is none. */
  function After(log: seq<Message>, id: MessageId): (rest: seq<Message>)
    ensures |rest| <= |log|
  {
    if log == [] then []
    else if log[0].id == id then log[1..]
    else After(log[1..], id)
  }

  function Since(log: seq<Message>, user: UserId, start: MessageId): seq<Message> {
    Inbox(After(log, start), user)
  }

  function Ids(log: seq<Message>): set<MessageId> {
    set m | m in log :: m.id
  }

  /** The starting point, if there is one, is in the log. */
  ghost predicate KnownOrAbsent(log: seq<Message>, start: Option<MessageId>) {
    start.Some? ==> exists p :: 0 <= p < |log| && log[p].id == start.value
  }

  ghost predicate DistinctIds(log: seq<Message>) {
    forall i, j | 0 <= i < j < |log| :: log[i].id != log[j].id
  }

  lemma {:induction false} InboxConcat(a: seq<Message>, b: seq<Message>, user: UserId)
    ensures Inbox(a + b, user) == Inbox(a, user) + Inbox(b, user)
  {
    if a == [] {
      assert a + b == b;
    } else {
      assert (a + b)[1..] == a[1..] + b;
      InboxConcat(a[1..], b, user);
    }
  }

  lemma {:induction false} InboxMembers(log: seq<Message>, user: UserId, m: Message)
    ensures m in Inbox(log, user) <==> m in log && Involves(m, user)
  {
    if log != [] {
      assert log == [log[0]] + log[1..];
      InboxMembers(log[1..], user, m);
    }
  }

  /** The since query's filter keeps a message exactly for its two ends. */
  lemma InboxIsOwn(log: seq<Message>, user: UserId, m: Message)
    ensures m in Inbox(log, user) <==> m in log && user in {m.from, m.to}
  {
    InboxMembers(log, user, m);
  }

  lemma {:induction false} InboxDistinct(log: seq<Message>, user: UserId)
    requires DistinctIds(log)
    ensures DistinctIds(Inbox(log, user))
  {
    if log != [] {
      var rest := Inbox(log[1..], user);
      InboxDistinct(log[1..], user);
      forall k | 0 <= k < |rest|
        ensures rest[k].id != log[0].id
      {
        InboxMembers(log[1..], user, rest[k]);
        var i :| 0 <= i < |log[1..]| && log[1..][i] == rest[k];
        assert log[1..][i] == log[i + 1];
      }
    }
  }

  lemma {:induction false} AfterKnown(log: seq<Message>, p: nat)
    requires DistinctIds(log) && p < |log|
    ensures After(log, log[p].id) == log[p + 1..]
  {
    if p > 0 {
      assert log[1..][p - 1] == log[p];
      AfterKnown(log[1..], p - 1);
      assert log[1..][p..] == log[p + 1..];
    }
  }

  lemma {:induction false} AfterUnknown(log: seq<Message>, id: MessageId)
    requires forall m | m in log :: m.id != id
    ensures After(log, id) == []
  {
    if log != [] {
      AfterUnknown(log[1..], id);
    }
  }
}
