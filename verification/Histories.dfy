/**
 * The messages since a starting point, as either store answers: the in-memory one by position in its
 * log, the relational one by comparing (timestamp, id). A message's timestamp is chosen before it is
 * stored, so the two orders can differ.
 */
module Histories {
  import opened Wrappers
  import opened Messages
  import opened Keyset
  import opened Orders

  datatype Backend = InMemory | Relational

  /** What the store may answer: one sequence, or with equal timestamps one of several. */
  ghost predicate Answers(backend: Backend, log: seq<Message>, user: UserId, start: Option<MessageId>, r: seq<Message>) {
    match start
    case None => r == []
    case Some(id) =>
      match backend
      case InMemory => r == Since(log, user, id)
      case Relational => SqlSince(Rows(log), user, id, r)
  }

  /** Log message q is since log message p: stored after it, or with a greater key. */
  predicate Beyond(backend: Backend, log: seq<Message>, p: nat, q: nat)
    requires p < |log| && q < |log|
  {
    match backend
    case InMemory => p < q
    case Relational => KeyAbove(log[q], log[p].timestamp, log[p].id)
  }

  /** Of two stored messages exactly one is since the other, and none is since itself. */
  lemma OneIsSinceTheOther(backend: Backend, log: seq<Message>, p: nat, q: nat)
    requires DistinctIds(log) && p < |log| && q < |log|
    ensures Beyond(backend, log, p, q) <==> p != q && !Beyond(backend, log, q, p)
    ensures backend.Relational? && log[p].timestamp < log[q].timestamp ==> Beyond(backend, log, p, q)
    ensures backend.Relational? && log[p].timestamp == log[q].timestamp ==>
              (Beyond(backend, log, p, q) <==> log[p].id < log[q].id)
  {
    if p != q {
      assert log[p].id != log[q].id;
      KeysAreOrdered(log[p], log[q], log[p]);
    }
  }

  lemma SliceMembers(log: seq<Message>, from: nat, to: nat, m: Message)
    requires from <= to <= |log|
    ensures m in log[from..to] <==> exists q :: from <= q < to && log[q] == m
  {
  }

  /** An answer from a stored starting point holds exactly the user's messages since it. */
  lemma AnswerMembers(backend: Backend, log: seq<Message>, user: UserId, p: nat, r: seq<Message>, m: Message)
    requires DistinctIds(log) && p < |log| && Answers(backend, log, user, Some(log[p].id), r)
    ensures m in r <==> Involves(m, user) && exists q :: 0 <= q < |log| && log[q] == m && Beyond(backend, log, p, q)
  {
    match backend {
      case InMemory =>
        AfterKnown(log, p);
        InboxMembers(log[p + 1..], user, m);
        assert log[p + 1..] == log[p + 1..|log|];
        SliceMembers(log, p + 1, |log|, m);
      case Relational =>
        TimestampOfKnown(log, p);
    }
  }

  lemma AnswerToUnknown(backend: Backend, log: seq<Message>, user: UserId, id: MessageId, r: seq<Message>)
    requires Answers(backend, log, user, Some(id), r) && forall m | m in log :: m.id != id
    ensures r == []
  {
    AfterUnknown(log, id);
  }

  lemma AnswerSound(backend: Backend, log: seq<Message>, user: UserId, start: Option<MessageId>, r: seq<Message>)
    requires DistinctIds(log) && Answers(backend, log, user, start, r)
    ensures DistinctIds(r) && forall m | m in r :: m in log && Involves(m, user)
  {
    if start.Some? {
      if p: nat :| p < |log| && log[p].id == start.value {
        forall m | m in r
          ensures m in log && Involves(m, user)
        {
          AnswerMembers(backend, log, user, p, r, m);
        }
        AnswerDistinct(backend, log, user, p, r);
      } else {
        AnswerToUnknown(backend, log, user, start.value, r);
      }
    }
  }

  lemma AnswerDistinct(backend: Backend, log: seq<Message>, user: UserId, p: nat, r: seq<Message>)
    requires DistinctIds(log) && p < |log| && Answers(backend, log, user, Some(log[p].id), r)
    requires forall m | m in r :: m in log
    ensures DistinctIds(r)
  {
    match backend {
      case InMemory =>
        AfterKnown(log, p);
        InboxDistinct(log[p + 1..], user);
      case Relational =>
        TimestampOfKnown(log, p);
        forall i, j | 0 <= i < j < |r|
          ensures r[i].id != r[j].id
        {
          assert r[i] in log && r[j] in log && r[i] != r[j];
          var a :| 0 <= a < |log| && log[a] == r[i];
          var b :| 0 <= b < |log| && log[b] == r[j];
        }
    }
  }

  // Where the stores agree

  /** On a log stored in the order of its timestamps, both stores give the same answers. */
  lemma BackendsAgree(log: seq<Message>, user: UserId, start: Option<MessageId>, r: seq<Message>)
    requires Chronological(log) && DistinctIds(log)
    ensures Answers(Relational, log, user, start, r) <==> Answers(InMemory, log, user, start, r)
  {
    if start.Some? {
      SinceQueriesAgree(log, user, start.value, r);
    }
  }

  lemma BeyondAgrees(log: seq<Message>, p: nat, q: nat)
    requires Chronological(log) && p < |log| && q < |log|
    ensures Beyond(Relational, log, p, q) <==> Beyond(InMemory, log, p, q)
  {
  }

  /** The user's messages are stored in the order of their keys, from log message p on. */
  ghost predicate KeysFollow(log: seq<Message>, user: UserId, p: nat)
    requires p < |log|
  {
    && (forall q | 0 <= q < |log| && Involves(log[q], user) :: Beyond(Relational, log, p, q) <==> p < q)
    && (forall a, b | p < a < b < |log| && Involves(log[a], user) && Involves(log[b], user) ::
          log[a].timestamp <= log[b].timestamp)
  }

  /** What follows in the log is an answer of the relational store exactly if the keys follow the log there. */
  lemma PositionAnswersExactly(log: seq<Message>, user: UserId, p: nat)
    requires DistinctIds(log) && p < |log|
    ensures Answers(Relational, log, user, Some(log[p].id), Since(log, user, log[p].id)) <==> KeysFollow(log, user, p)
  {
    var r := Since(log, user, log[p].id);
    TimestampOfKnown(log, p);
    assert Answers(InMemory, log, user, Some(log[p].id), r);
    forall q: nat | q < |log|
      ensures log[q] in r <==> Involves(log[q], user) && p < q
    {
      AnswerMembers(InMemory, log, user, p, r, log[q]);
    }
    forall a: nat, b: nat | a < |log| && b < |log|
      ensures Precedes(r, log[a], log[b]) <==> p < a < b && Involves(log[a], user) && Involves(log[b], user)
    {
      SincePrecedes(log, user, p, a, b);
    }
    AnswerSound(InMemory, log, user, Some(log[p].id), r);
    if Answers(Relational, log, user, Some(log[p].id), r) {
      forall a: nat, b: nat | p < a < b < |log| && Involves(log[a], user) && Involves(log[b], user)
        ensures log[a].timestamp <= log[b].timestamp
      {
        assert Precedes(r, log[a], log[b]);
      }
    }
    if KeysFollow(log, user, p) {
      forall i, j | 0 <= i < j < |r|
        ensures r[i] != r[j] && r[i].timestamp <= r[j].timestamp
      {
        assert r[i] in r && r[j] in r;
        var a: nat :| a < |log| && log[a] == r[i];
        var b: nat :| b < |log| && log[b] == r[j];
        assert Precedes(r, r[i], r[j]);
      }
    }
  }

  /** With the user's messages and the starting point in strict order of their timestamps, the answer is by position. */
  lemma AnswerInOrder(backend: Backend, log: seq<Message>, user: UserId, p: nat, r: seq<Message>)
    requires DistinctIds(log) && p < |log| && Answers(backend, log, user, Some(log[p].id), r)
    requires backend.Relational? ==>
               && (forall q | 0 <= q < p && Involves(log[q], user) :: log[q].timestamp < log[p].timestamp)
               && (forall q | p < q < |log| && Involves(log[q], user) :: log[p].timestamp < log[q].timestamp)
               && (forall a, b | p < a < b < |log| && Involves(log[a], user) && Involves(log[b], user) ::
                     log[a].timestamp < log[b].timestamp)
    ensures r == Inbox(log[p + 1..], user)
  {
    AfterKnown(log, p);
    if backend.Relational? {
      var s := Since(log, user, log[p].id);
      assert Answers(InMemory, log, user, Some(log[p].id), s);
      SinceRises(log, user, p);
      forall m
        ensures m in r <==> m in s
      {
        AnswerMembers(Relational, log, user, p, r, m);
        AnswerMembers(InMemory, log, user, p, s, m);
        if q: nat :| q < |log| && log[q] == m && Involves(m, user) {
          assert Beyond(Relational, log, p, q) <==> p < q;
        }
      }
      AnswerRises(log, user, p, r, s);
      RisingListingIsUnique(r, s);
    }
  }

  lemma SinceRises(log: seq<Message>, user: UserId, p: nat)
    requires DistinctIds(log) && p < |log|
    requires forall a, b | p < a < b < |log| && Involves(log[a], user) && Involves(log[b], user) ::
               log[a].timestamp < log[b].timestamp
    ensures Chronological(Since(log, user, log[p].id))
  {
    var s := Since(log, user, log[p].id);
    AnswerSound(InMemory, log, user, Some(log[p].id), s);
    forall i, j | 0 <= i < j < |s|
      ensures s[i].timestamp < s[j].timestamp
    {
      assert s[i] in s && s[j] in s;
      var a: nat :| a < |log| && log[a] == s[i];
      var b: nat :| b < |log| && log[b] == s[j];
      assert Precedes(s, s[i], s[j]);
      SincePrecedes(log, user, p, a, b);
    }
  }

  lemma AnswerRises(log: seq<Message>, user: UserId, p: nat, r: seq<Message>, s: seq<Message>)
    requires DistinctIds(log) && p < |log| && Answers(Relational, log, user, Some(log[p].id), r)
    requires Chronological(s) && forall m :: m in r <==> m in s
    ensures Chronological(r)
  {
    TimestampOfKnown(log, p);
    forall i, j | 0 <= i < j < |r|
      ensures r[i].timestamp < r[j].timestamp
    {
      assert r[i] in r && r[j] in r && r[i] != r[j] && r[i].timestamp <= r[j].timestamp;
      if r[i].timestamp == r[j].timestamp {
        OneRowPerTimestamp(s, r[i], r[j]);
      }
    }
  }

  lemma SincePrecedes(log: seq<Message>, user: UserId, p: nat, a: nat, b: nat)
    requires DistinctIds(log) && p < |log| && a < |log| && b < |log|
    ensures Precedes(Since(log, user, log[p].id), log[a], log[b]) <==>
            p < a < b && Involves(log[a], user) && Involves(log[b], user)
  {
    AfterKnown(log, p);
    InboxPrecedes(log[p + 1..], user, log[a], log[b]);
    assert log[p + 1..] == log[p + 1..|log|];
    if p < b {
      LogPrecedes(log, p + 1, |log|, a, b);
    } else {
      var rest := log[p + 1..];
      forall k | 0 <= k < |rest|
        ensures rest[k] != log[b]
      {
        assert log[p + 1 + k].id != log[b].id;
      }
    }
  }

  // Every question has an answer

  lemma {:induction false} SomeListing(rows: set<Message>) returns (r: seq<Message>)
    ensures OrderedAscending(r, rows)
    decreases |rows|
  {
    if rows == {} {
      r := [];
    } else {
      var m :| m in rows;
      var rest := SomeListing(rows - {m});
      r := Insert(m, rest, rows - {m});
      assert rows - {m} + {m} == rows;
    }
  }

  lemma {:induction false} Insert(m: Message, s: seq<Message>, rows: set<Message>) returns (r: seq<Message>)
    requires OrderedAscending(s, rows) && m !in rows
    ensures OrderedAscending(r, rows + {m})
  {
    var i := 0;
    while i < |s| && s[i].timestamp <= m.timestamp
      invariant i <= |s| && forall k | 0 <= k < i :: s[k].timestamp <= m.timestamp
    {
      i := i + 1;
    }
    r := s[..i] + [m] + s[i..];
    assert s == s[..i] + s[i..];
    forall a, b | 0 <= a < b < |r|
      ensures r[a] != r[b] && r[a].timestamp <= r[b].timestamp
    {
      InsertedInOrder(m, s, i, r, a, b);
    }
  }

  lemma InsertedInOrder(m: Message, s: seq<Message>, i: nat, r: seq<Message>, a: nat, b: nat)
    requires (forall x, y | 0 <= x < y < |s| :: s[x] != s[y] && s[x].timestamp <= s[y].timestamp) && m !in s
    requires i <= |s| && (forall k | 0 <= k < i :: s[k].timestamp <= m.timestamp)
    requires i < |s| ==> m.timestamp < s[i].timestamp
    requires r == s[..i] + [m] + s[i..] && a < b < |r|
    ensures r[a] != r[b] && r[a].timestamp <= r[b].timestamp
  {
  }

  lemma SomeAnswer(backend: Backend, log: seq<Message>, user: UserId, start: Option<MessageId>) returns (r: seq<Message>)
    ensures Answers(backend, log, user, start, r)
  {
    r := [];
    if start.Some? {
      if backend.InMemory? {
        r := Since(log, user, start.value);
      } else if TimestampOf(Rows(log), start.value).Some? {
        r := SomeListing(set m | m in Rows(log) && Involves(m, user)
                                 && KeyAbove(m, TimestampOf(Rows(log), start.value).value, start.value));
      }
    }
  }
}
