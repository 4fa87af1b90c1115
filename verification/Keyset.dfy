/**
 * The same questions asked of a relational store: rows without an order, selected by comparing
 * (timestamp, id), ordered by timestamp and limited. The rows are the log as a set.
 */
module Keyset {
  import opened Wrappers
  import opened Messages
  import opened Queries

  /** Messages are stored in the order of their timestamps, no two at the same time. */
  ghost predicate Chronological(log: seq<Message>) {
    forall i, j | 0 <= i < j < |log| :: log[i].timestamp < log[j].timestamp
  }

  function Rows(log: seq<Message>): set<Message> {
    set m | m in log
  }

  /** Every selected row once, the latest first; rows with equal timestamps come in any order. */
  ghost predicate OrderedDescending(r: seq<Message>, rows: set<Message>) {
    && (forall m :: m in r <==> m in rows)
    && (forall i, j | 0 <= i < j < |r| :: r[i] != r[j] && r[i].timestamp >= r[j].timestamp)
  }

  ghost predicate OrderedAscending(r: seq<Message>, rows: set<Message>) {
    && (forall m :: m in r <==> m in rows)
    && (forall i, j | 0 <= i < j < |r| :: r[i] != r[j] && r[i].timestamp <= r[j].timestamp)
  }

  ghost function TimestampOf(table: set<Message>, id: MessageId): Option<int> {
    if exists m :: m in table && m.id == id then
      var m :| m in table && m.id == id;
      Some(m.timestamp)
    else None
  }

  predicate KeyBelow(m: Message, timestamp: int, id: MessageId) {
    m.timestamp < timestamp || (m.timestamp == timestamp && m.id < id)
  }

  predicate KeyAbove(m: Message, timestamp: int, id: MessageId) {
    m.timestamp > timestamp || (m.timestamp == timestamp && m.id > id)
  }

  /** The keys of rows with different ids are in a strict total order: by time, and at the same time by id. */
  lemma KeysAreOrdered(x: Message, y: Message, z: Message)
    requires x.id != y.id
    ensures !KeyAbove(x, x.timestamp, x.id) && !KeyBelow(x, x.timestamp, x.id)
    ensures KeyAbove(x, y.timestamp, y.id) <==> KeyBelow(y, x.timestamp, x.id)
    ensures KeyAbove(x, y.timestamp, y.id) <==> !KeyAbove(y, x.timestamp, x.id)
    ensures KeyAbove(x, y.timestamp, y.id) && KeyAbove(y, z.timestamp, z.id) ==> KeyAbove(x, z.timestamp, z.id)
    ensures x.timestamp > y.timestamp ==> KeyAbove(x, y.timestamp, y.id)
    ensures x.timestamp == y.timestamp && x.id > y.id ==> KeyAbove(x, y.timestamp, y.id)
  {
  }

  /** The rows of a chat before the starting point; an unknown starting point adds no condition. */
  ghost function ChatRows(table: set<Message>, a: UserId, b: UserId, start: Option<MessageId>): set<Message> {
    match start
    case None => set m | m in table && InChat(m, a, b)
    case Some(id) =>
      match TimestampOf(table, id)
      case None => set m | m in table && InChat(m, a, b)
      case Some(t) => set m | m in table && InChat(m, a, b) && KeyBelow(m, t, id)
  }

  ghost predicate SqlLastInChat(table: set<Message>, a: UserId, b: UserId, start: Option<MessageId>, r: seq<Message>) {
    exists full :: OrderedDescending(full, ChatRows(table, a, b, start)) && r == Take(full, MESSAGE_LOAD_BUF_SIZE)
  }

  ghost predicate SqlSince(table: set<Message>, user: UserId, start: MessageId, r: seq<Message>) {
    match TimestampOf(table, start)
    case None => r == []
    case Some(t) => OrderedAscending(r, set m | m in table && Involves(m, user) && KeyAbove(m, t, start))
  }

  // Listings are unique when ranks differ

  /** A listing of a set by strictly falling rank is the only one. */
  lemma {:induction false} RankedListingIsUnique<T(!new)>(a: seq<T>, b: seq<T>, rank: T -> int)
    requires forall x :: x in a <==> x in b
    requires forall i, j | 0 <= i < j < |a| :: rank(a[i]) > rank(a[j])
    requires forall i, j | 0 <= i < j < |b| :: rank(b[i]) > rank(b[j])
    ensures a == b
  {
    assert b != [] ==> b[0] in b;
    if a != [] {
      assert a[0] in a;
      var j :| 0 <= j < |b| && b[j] == a[0];
      assert b[0] in b;
      var i :| 0 <= i < |a| && a[i] == b[0];
      assert rank(a[0]) >= rank(a[i]) && rank(b[0]) >= rank(b[j]);
      assert i == 0 && j == 0;
      forall x
        ensures x in a[1..] <==> x in b[1..]
      {
        TailMembers(a, rank, x);
        TailMembers(b, rank, x);
      }
      RankedListingIsUnique(a[1..], b[1..], rank);
      assert a == [a[0]] + a[1..] && b == [b[0]] + b[1..];
    }
  }

  lemma TailMembers<T(!new)>(a: seq<T>, rank: T -> int, x: T)
    requires a != [] && forall i, j | 0 <= i < j < |a| :: rank(a[i]) > rank(a[j])
    ensures x in a[1..] <==> x in a && x != a[0]
  {
  }

  ghost predicate Falling(s: seq<Message>) {
    forall i, j | 0 <= i < j < |s| :: s[i].timestamp > s[j].timestamp
  }

  lemma FallingListingIsUnique(a: seq<Message>, b: seq<Message>)
    requires Falling(a) && Falling(b) && forall m :: m in a <==> m in b
    ensures a == b
  {
    RankedListingIsUnique(a, b, (m: Message) => m.timestamp);
  }

  lemma RisingListingIsUnique(a: seq<Message>, b: seq<Message>)
    requires Chronological(a) && Chronological(b) && forall m :: m in a <==> m in b
    ensures a == b
  {
    RankedListingIsUnique(a, b, (m: Message) => -m.timestamp);
  }

  lemma OneRowPerTimestamp(log: seq<Message>, x: Message, y: Message)
    requires Chronological(log) && x in log && y in log && x.timestamp == y.timestamp
    ensures x == y
  {
  }

  // The chat query

  lemma {:induction false} ChatFalls(s: seq<Message>, a: UserId, b: UserId)
    requires Falling(s)
    ensures Falling(ChatOf(s, a, b))
  {
    if s != [] {
      ChatFalls(s[1..], a, b);
      var rest := ChatOf(s[1..], a, b);
      forall k | 0 <= k < |rest|
        ensures rest[k].timestamp < s[0].timestamp
      {
        ChatMembers(s[1..], a, b, rest[k]);
        var i :| 0 <= i < |s[1..]| && s[1..][i] == rest[k];
      }
    }
  }

  lemma ReverseFalls(log: seq<Message>)
    requires Chronological(log)
    ensures Falling(Reverse(log))
  {
    ReverseLength(log);
    forall i, j | 0 <= i < j < |Reverse(log)|
      ensures Reverse(log)[i].timestamp > Reverse(log)[j].timestamp
    {
      ReverseAt(log, i);
      ReverseAt(log, j);
    }
  }

  /** Any result of the ordered selection is the chat part of the reversed log, when it selects the same rows. */
  lemma OrderedIsReversed(log: seq<Message>, part: seq<Message>, a: UserId, b: UserId, rows: set<Message>, r: seq<Message>)
    requires Chronological(log) && Chronological(part) && forall m | m in part :: m in log
    requires forall m :: m in rows <==> m in part && InChat(m, a, b)
    ensures OrderedDescending(r, rows) <==> r == ChatOf(Reverse(part), a, b)
  {
    var mine := ChatOf(Reverse(part), a, b);
    ReverseFalls(part);
    ChatFalls(Reverse(part), a, b);
    forall m
      ensures m in mine <==> m in rows
    {
      ChatMembers(Reverse(part), a, b, m);
      ReverseMembers(part, m);
    }
    if OrderedDescending(r, rows) {
      forall i, j | 0 <= i < j < |r|
        ensures r[i].timestamp > r[j].timestamp
      {
        assert r[i] in r && r[j] in r;
        if r[i].timestamp == r[j].timestamp {
          OneRowPerTimestamp(log, r[i], r[j]);
        }
      }
      FallingListingIsUnique(r, mine);
    }
  }

  lemma TimestampOfKnown(log: seq<Message>, p: nat)
    requires DistinctIds(log) && p < |log|
    ensures TimestampOf(Rows(log), log[p].id) == Some(log[p].timestamp)
  {
  }

  lemma KeyBelowIsBefore(log: seq<Message>, p: nat, m: Message)
    requires Chronological(log) && DistinctIds(log) && p < |log|
    ensures m in log && KeyBelow(m, log[p].timestamp, log[p].id) <==> m in log[..p]
  {
  }

  /** Without a starting point, or from a known one, the keyset query returns the positional page and nothing else. */
  lemma ChatQueriesAgree(log: seq<Message>, a: UserId, b: UserId, start: Option<MessageId>, r: seq<Message>)
    requires Chronological(log) && DistinctIds(log) && KnownOrAbsent(log, start)
    ensures SqlLastInChat(Rows(log), a, b, start, r) <==> r == LastInChat(log, a, b, start)
  {
    var part := log;
    if start.Some? {
      var p: nat :| p < |log| && log[p].id == start.value;
      TimestampOfKnown(log, p);
      BeforeKnown(log, p);
      part := log[..p];
      forall m
        ensures m in ChatRows(Rows(log), a, b, start) <==> m in part && InChat(m, a, b)
      {
        KeyBelowIsBefore(log, p, m);
      }
    }
    PageOf(log, part, a, b, ChatRows(Rows(log), a, b, start), r);
  }

  lemma PageOf(log: seq<Message>, part: seq<Message>, a: UserId, b: UserId, rows: set<Message>, r: seq<Message>)
    requires Chronological(log) && Chronological(part) && forall m | m in part :: m in log
    requires forall m :: m in rows <==> m in part && InChat(m, a, b)
    ensures (exists full :: OrderedDescending(full, rows) && r == Take(full, MESSAGE_LOAD_BUF_SIZE))
            <==> r == Take(ChatOf(Reverse(part), a, b), MESSAGE_LOAD_BUF_SIZE)
  {
    OrderedIsReversed(log, part, a, b, rows, ChatOf(Reverse(part), a, b));
    forall full | OrderedDescending(full, rows)
      ensures full == ChatOf(Reverse(part), a, b)
    {
      OrderedIsReversed(log, part, a, b, rows, full);
    }
  }

  /**
   * From an unknown starting point the stores part: the relational one answers with the latest
   * page, the positional one with nothing. They agree exactly when the chat has no messages.
   */
  lemma UnknownStartDiffers(log: seq<Message>, a: UserId, b: UserId, start: Option<MessageId>, r: seq<Message>)
    requires Chronological(log) && DistinctIds(log) && !KnownOrAbsent(log, start)
    ensures SqlLastInChat(Rows(log), a, b, start, r) <==> r == LastInChat(log, a, b, None)
    ensures LastInChat(log, a, b, start) == []
    ensures SqlLastInChat(Rows(log), a, b, start, LastInChat(log, a, b, start)) <==> ChatOf(log, a, b) == []
  {
    assert TimestampOf(Rows(log), start.value).None?;
    var rows := ChatRows(Rows(log), a, b, start);
    PageOf(log, log, a, b, rows, r);
    PageOf(log, log, a, b, rows, []);
    forall m | m in Reverse(log)
      ensures m.id != start.value
    {
      ReverseMembers(log, m);
      var p :| 0 <= p < |log| && log[p] == m;
    }
    AfterUnknown(Reverse(log), start.value);
    ChatReverse(log, a, b);
    ReverseLength(ChatOf(log, a, b));
  }

  // The since query

  lemma {:induction false} InboxRises(s: seq<Message>, user: UserId)
    requires Chronological(s)
    ensures Chronological(Inbox(s, user))
  {
    if s != [] {
      InboxRises(s[1..], user);
      var rest := Inbox(s[1..], user);
      forall k | 0 <= k < |rest|
        ensures s[0].timestamp < rest[k].timestamp
      {
        InboxMembers(s[1..], user, rest[k]);
        var i :| 0 <= i < |s[1..]| && s[1..][i] == rest[k];
      }
    }
  }

  lemma KeyAboveIsAfter(log: seq<Message>, p: nat, m: Message)
    requires Chronological(log) && DistinctIds(log) && p < |log|
    ensures m in log && KeyAbove(m, log[p].timestamp, log[p].id) <==> m in log[p + 1..]
  {
  }

  /** From any starting point, known or not, the keyset query returns what the positional one does. */
  lemma SinceQueriesAgree(log: seq<Message>, user: UserId, start: MessageId, r: seq<Message>)
    requires Chronological(log) && DistinctIds(log)
    ensures SqlSince(Rows(log), user, start, r) <==> r == Since(log, user, start)
  {
    if p: nat :| p < |log| && log[p].id == start {
      TimestampOfKnown(log, p);
      AfterKnown(log, p);
      SinceKnown(log, user, p, r);
    } else {
      assert TimestampOf(Rows(log), start).None?;
      AfterUnknown(log, start);
    }
  }

  lemma SinceKnown(log: seq<Message>, user: UserId, p: nat, r: seq<Message>)
    requires Chronological(log) && DistinctIds(log) && p < |log|
    ensures OrderedAscending(r, set m | m in Rows(log) && Involves(m, user) && KeyAbove(m, log[p].timestamp, log[p].id))
            <==> r == Inbox(log[p + 1..], user)
  {
    var rows := set m | m in Rows(log) && Involves(m, user) && KeyAbove(m, log[p].timestamp, log[p].id);
    var mine := Inbox(log[p + 1..], user);
    InboxRises(log[p + 1..], user);
    forall m
      ensures m in mine <==> m in rows
    {
      InboxMembers(log[p + 1..], user, m);
      KeyAboveIsAfter(log, p, m);
    }
    if OrderedAscending(r, rows) {
      forall i, j | 0 <= i < j < |r|
        ensures r[i].timestamp < r[j].timestamp
      {
        assert r[i] in r && r[j] in r;
        if r[i].timestamp == r[j].timestamp {
          OneRowPerTimestamp(log, r[i], r[j]);
        }
      }
      RisingListingIsUnique(r, mine);
    }
  }
}
