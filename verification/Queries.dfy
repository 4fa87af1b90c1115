/** The chat queries of the in-memory store, positional over the log, and what they are worth as sequences. */
module Queries {
  import opened Wrappers
  import opened Messages

  const MESSAGE_LOAD_BUF_SIZE: nat := 50

  function Reverse<T>(s: seq<T>): seq<T> {
    if s == [] then [] else Reverse(s[1..]) + [s[0]]
  }

  predicate InChat(m: Message, a: UserId, b: UserId) {
    (m.from == a && m.to == b) || (m.from == b && m.to == a)
  }

  /** The messages between two users, in the order given. */
  function ChatOf(log: seq<Message>, a: UserId, b: UserId): seq<Message> {
    if log == [] then []
    else (if InChat(log[0], a, b) then [log[0]] else []) + ChatOf(log[1..], a, b)
  }

  function Take<T>(s: seq<T>, n: nat): seq<T> {
    if |s| <= n then s else s[..n]
  }

  /** The latest messages of a chat before the starting point, latest first, one page of them. */
  function LastInChat(log: seq<Message>, a: UserId, b: UserId, start: Option<MessageId>): seq<Message> {
    var backwards := Reverse(log);
    var rest := match start case None => backwards case Some(id) => After(backwards, id);
    Take(ChatOf(rest, a, b), MESSAGE_LOAD_BUF_SIZE)
  }

  // Reversal

  lemma {:induction false} ReverseAt<T>(s: seq<T>, k: nat)
    requires k < |s|
    ensures |Reverse(s)| == |s| && Reverse(s)[k] == s[|s| - 1 - k]
  {
    if |s| > 1 {
      ReverseAt(s[1..], if k < |s| - 1 then k else 0);
    }
  }

  lemma {:induction false} ReverseLength<T>(s: seq<T>)
    ensures |Reverse(s)| == |s|
  {
    if s != [] {
      ReverseLength(s[1..]);
    }
  }

  lemma {:induction false} ReverseConcat<T>(a: seq<T>, b: seq<T>)
    ensures Reverse(a + b) == Reverse(b) + Reverse(a)
  {
    if a == [] {
      assert a + b == b;
    } else {
      assert (a + b)[1..] == a[1..] + b;
      ReverseConcat(a[1..], b);
    }
  }

  lemma ReverseMembers<T>(s: seq<T>, x: T)
    ensures x in Reverse(s) <==> x in s
  {
  }

  lemma {:induction false} ReverseReverse<T>(s: seq<T>)
    ensures Reverse(Reverse(s)) == s
  {
    if s != [] {
      ReverseReverse(s[1..]);
      ReverseConcat(Reverse(s[1..]), [s[0]]);
      assert Reverse([s[0]]) == [s[0]];
    }
  }

  lemma ReverseDistinct(log: seq<Message>)
    requires DistinctIds(log)
    ensures DistinctIds(Reverse(log))
  {
    ReverseLength(log);
    forall i, j | 0 <= i < j < |Reverse(log)|
      ensures Reverse(log)[i].id != Reverse(log)[j].id
    {
      ReverseAt(log, i);
      ReverseAt(log, j);
    }
  }

  /** Cutting a sequence in two cuts its reversal in two. */
  lemma ReverseCut<T>(s: seq<T>, p: nat)
    requires p <= |s|
    ensures |Reverse(s)| == |s|
    ensures Reverse(s)[..|s| - p] == Reverse(s[p..]) && Reverse(s)[|s| - p..] == Reverse(s[..p])
  {
    assert s == s[..p] + s[p..];
    ReverseConcat(s[..p], s[p..]);
    ReverseLength(s[p..]);
    ReverseLength(s);
  }

  /** What the reversed log holds after a known message is the reversed part before it. */
  lemma BeforeKnown(log: seq<Message>, p: nat)
    requires DistinctIds(log) && p < |log|
    ensures After(Reverse(log), log[p].id) == Reverse(log[..p])
  {
    var backwards, k := Reverse(log), |log| - 1 - p;
    ReverseCut(log, p);
    assert |log| - p == k + 1 && backwards[k + 1..] == Reverse(log[..p]);
    ReverseAt(log, k);
    AfterInReverse(log, k);
  }

  lemma AfterInReverse(log: seq<Message>, k: nat)
    requires DistinctIds(log) && k < |Reverse(log)|
    ensures After(Reverse(log), Reverse(log)[k].id) == Reverse(log)[k + 1..]
  {
    ReverseDistinct(log);
    AfterKnown(Reverse(log), k);
  }

  // Chats

  lemma {:induction false} ChatConcat(x: seq<Message>, y: seq<Message>, a: UserId, b: UserId)
    ensures ChatOf(x + y, a, b) == ChatOf(x, a, b) + ChatOf(y, a, b)
  {
    if x == [] {
      assert x + y == y;
    } else {
      var head := if InChat(x[0], a, b) then [x[0]] else [];
      ChatConcat(x[1..], y, a, b);
      assert ChatOf(x + y, a, b) == head + (ChatOf(x[1..], a, b) + ChatOf(y, a, b)) by {
        assert (x + y)[0] == x[0] && (x + y)[1..] == x[1..] + y;
      }
    }
  }

  lemma {:induction false} ChatReverse(log: seq<Message>, a: UserId, b: UserId)
    ensures ChatOf(Reverse(log), a, b) == Reverse(ChatOf(log, a, b))
  {
    if log != [] {
      ChatReverse(log[1..], a, b);
      ChatConcat(Reverse(log[1..]), [log[0]], a, b);
      var head := if InChat(log[0], a, b) then [log[0]] else [];
      assert ChatOf([log[0]], a, b) == head;
      ReverseConcat(head, ChatOf(log[1..], a, b));
      assert Reverse(head) == head;
    }
  }

  lemma {:induction false} ChatMembers(log: seq<Message>, a: UserId, b: UserId, m: Message)
    ensures m in ChatOf(log, a, b) <==> m in log && InChat(m, a, b)
  {
    if log != [] {
      assert log == [log[0]] + log[1..];
      ChatMembers(log[1..], a, b, m);
    }
  }

  /** Where the k-th message of a chat stands in the log. */
  lemma {:induction false} ChatPosition(log: seq<Message>, a: UserId, b: UserId, k: nat) returns (p: nat)
    requires k < |ChatOf(log, a, b)|
    ensures p < |log| && log[p] == ChatOf(log, a, b)[k] && ChatOf(log[..p], a, b) == ChatOf(log, a, b)[..k]
  {
    var head := if InChat(log[0], a, b) then [log[0]] else [];
    if k < |head| {
      p := 0;
    } else {
      var q := ChatPosition(log[1..], a, b, k - |head|);
      p := q + 1;
      assert log[..p][1..] == log[1..][..q];
      assert ChatOf(log, a, b)[..k] == head + ChatOf(log[1..], a, b)[..k - |head|];
    }
  }

  // What a chat is

  /** A chat holds exactly the messages whose two ends are the two users. */
  lemma ChatIsBetween(log: seq<Message>, a: UserId, b: UserId, m: Message)
    ensures m in ChatOf(log, a, b) <==> m in log && {m.from, m.to} == {a, b}
  {
    ChatMembers(log, a, b, m);
    assert m.from in {m.from, m.to} && m.to in {m.from, m.to} && a in {a, b} && b in {a, b};
  }

  lemma {:induction false} ChatIsShared(log: seq<Message>, a: UserId, b: UserId)
    ensures ChatOf(log, a, b) == ChatOf(log, b, a)
  {
    if log != [] {
      ChatIsShared(log[1..], a, b);
    }
  }

  /** Both users of a chat get the same page. */
  lemma PageIsShared(log: seq<Message>, a: UserId, b: UserId, start: Option<MessageId>)
    ensures LastInChat(log, a, b, start) == LastInChat(log, b, a, start)
  {
    var rest := match start case None => Reverse(log) case Some(id) => After(Reverse(log), id);
    ChatIsShared(rest, a, b);
  }

  /** A user's chats are parts of what the since query would return. */
  lemma {:induction false} ChatOfInbox(log: seq<Message>, user: UserId, partner: UserId)
    ensures ChatOf(Inbox(log, user), user, partner) == ChatOf(log, user, partner)
  {
    if log != [] {
      ChatOfInbox(log[1..], user, partner);
      var head := if Involves(log[0], user) then [log[0]] else [];
      ChatConcat(head, Inbox(log[1..], user), user, partner);
    }
  }

  /** A page has fifty messages, or all that there are. */
  lemma PageSize(log: seq<Message>, a: UserId, b: UserId)
    ensures |LastInChat(log, a, b, None)| == if |ChatOf(log, a, b)| < 50 then |ChatOf(log, a, b)| else 50
  {
    ChatReverse(log, a, b);
    ReverseLength(ChatOf(log, a, b));
  }
}
