/** The list of a user's chats: a first-seen fold over the reversed log, and its relational form. */
module ChatList {
  import opened Messages
  import opened Queries
  import opened Keyset

  function Partner(m: Message, user: UserId): UserId {
    if m.from == user then m.to else m.from
  }

  /** The partners of the user's messages, in the order given. */
  function Partners(log: seq<Message>, user: UserId): seq<UserId> {
    if log == [] then []
    else (if Involves(log[0], user) then [Partner(log[0], user)] else []) + Partners(log[1..], user)
  }

  /** Keeps the first occurrence of everything. */
  function FirstSeen<T(==)>(s: seq<T>): seq<T> {
    if s == [] then []
    else
      var seen, last := FirstSeen(s[..|s| - 1]), s[|s| - 1];
      if last in seen then seen else seen + [last]
  }

  function Chats(log: seq<Message>, user: UserId): seq<UserId> {
    FirstSeen(Partners(Reverse(log), user))
  }

  function Without<T(==)>(s: seq<T>, x: T): seq<T> {
    if s == [] then [] else (if s[0] == x then [] else [s[0]]) + Without(s[1..], x)
  }

  // Moving to the top

  lemma {:induction false} WithoutConcat<T>(a: seq<T>, b: seq<T>, x: T)
    ensures Without(a + b, x) == Without(a, x) + Without(b, x)
  {
    if a == [] {
      assert a + b == b;
    } else {
      assert (a + b)[1..] == a[1..] + b;
      WithoutConcat(a[1..], b, x);
    }
  }

  lemma {:induction false} WithoutMembers<T>(s: seq<T>, x: T, y: T)
    ensures y in Without(s, x) <==> y in s && y != x
  {
    if s != [] {
      assert s == [s[0]] + s[1..];
      WithoutMembers(s[1..], x, y);
    }
  }

  /** Prepending an element puts it first and removes it further down. */
  lemma {:induction false} FirstSeenPrepend<T>(x: T, s: seq<T>)
    ensures FirstSeen([x] + s) == [x] + Without(FirstSeen(s), x)
    decreases |s|
  {
    if s == [] {
      assert [x] + s == [x];
      assert [x][..0] == [];
    } else {
      var front, last := s[..|s| - 1], s[|s| - 1];
      assert ([x] + s)[..|s|] == [x] + front && ([x] + s)[|s|] == last;
      FirstSeenPrepend(x, front);
      FirstSeenLast(x, FirstSeen(front), last);
    }
  }

  lemma FirstSeenLast<T>(x: T, seen: seq<T>, last: T)
    ensures var kept := [x] + Without(seen, x);
            (if last in kept then kept else kept + [last])
            == [x] + Without(if last in seen then seen else seen + [last], x)
  {
    WithoutMembers(seen, x, last);
    if last !in seen {
      WithoutConcat(seen, [last], x);
      assert Without([last], x) == if last == x then [] else [last];
    }
  }

  /** After a new message the recomputed list is its partner followed by the old list without that partner. */
  lemma NewMessageMovesToTop(log: seq<Message>, m: Message, user: UserId)
    ensures Chats(log + [m], user)
         == if Involves(m, user) then [Partner(m, user)] + Without(Chats(log, user), Partner(m, user)) else Chats(log, user)
  {
    ReverseConcat(log, [m]);
    assert Reverse([m]) == [m];
    var backwards := Reverse(log);
    assert ([m] + backwards)[1..] == backwards;
    assert [] + Partners(backwards, user) == Partners(backwards, user);
    FirstSeenPrepend(Partner(m, user), Partners(backwards, user));
  }

  // Each partner once, the latest first

  /** The time of the latest message with a partner. */
  function LatestTime(log: seq<Message>, user: UserId, partner: UserId): int {
    if log == [] then 0
    else
      var last := log[|log| - 1];
      if Involves(last, user) && Partner(last, user) == partner then last.timestamp
      else LatestTime(log[..|log| - 1], user, partner)
  }

  ghost predicate Talked(log: seq<Message>, user: UserId, partner: UserId) {
    exists i :: 0 <= i < |log| && Involves(log[i], user) && Partner(log[i], user) == partner
  }

  lemma {:induction false} LatestTimeIsLatest(log: seq<Message>, user: UserId, partner: UserId)
    requires Chronological(log) && Talked(log, user, partner)
    ensures exists i :: 0 <= i < |log| && Involves(log[i], user) && Partner(log[i], user) == partner
                        && log[i].timestamp == LatestTime(log, user, partner)
    ensures forall i | 0 <= i < |log| && Involves(log[i], user) && Partner(log[i], user) == partner ::
              log[i].timestamp <= LatestTime(log, user, partner)
  {
    var n := |log|;
    var front := log[..n - 1];
    if !(Involves(log[n - 1], user) && Partner(log[n - 1], user) == partner) {
      var i :| 0 <= i < n && Involves(log[i], user) && Partner(log[i], user) == partner;
      assert front[i] == log[i];
      LatestTimeIsLatest(front, user, partner);
      var k :| 0 <= k < |front| && Involves(front[k], user) && Partner(front[k], user) == partner
               && front[k].timestamp == LatestTime(front, user, partner);
      assert log[k] == front[k];
      forall j | 0 <= j < n && Involves(log[j], user) && Partner(log[j], user) == partner
        ensures log[j].timestamp <= LatestTime(log, user, partner)
      {
        assert front[j] == log[j];
      }
    }
  }

  ghost predicate ChatOrder(log: seq<Message>, user: UserId, chats: seq<UserId>) {
    && (forall k :: k in chats <==> Talked(log, user, k))
    && (forall i, j | 0 <= i < j < |chats| :: LatestTime(log, user, chats[i]) > LatestTime(log, user, chats[j]))
  }

  lemma {:induction false} WithoutKeepsOrder(s: seq<UserId>, x: UserId, rank: UserId -> int)
    requires forall i, j | 0 <= i < j < |s| :: rank(s[i]) > rank(s[j])
    ensures forall i, j | 0 <= i < j < |Without(s, x)| :: rank(Without(s, x)[i]) > rank(Without(s, x)[j])
  {
    if s != [] {
      var rest := Without(s[1..], x);
      WithoutKeepsOrder(s[1..], x, rank);
      forall j | 0 <= j < |rest|
        ensures rank(s[0]) > rank(rest[j])
      {
        WithoutMembers(s[1..], x, rest[j]);
        var k :| 0 <= k < |s[1..]| && s[1..][k] == rest[j];
      }
    }
  }

  lemma TalkedMore(log: seq<Message>, m: Message, user: UserId, k: UserId)
    ensures Talked(log + [m], user, k) <==> Talked(log, user, k) || (Involves(m, user) && Partner(m, user) == k)
  {
    var all := log + [m];
    if i :| 0 <= i < |all| && Involves(all[i], user) && Partner(all[i], user) == k {
      assert i < |log| ==> log[i] == all[i];
    }
    if i :| 0 <= i < |log| && Involves(log[i], user) && Partner(log[i], user) == k {
      assert all[i] == log[i];
    }
    assert all[|log|] == m;
  }

  lemma EarlierTalkIsEarlier(log: seq<Message>, user: UserId, k: UserId, m: Message)
    requires Chronological(log + [m]) && Talked(log, user, k)
    ensures LatestTime(log, user, k) < m.timestamp
  {
    var all := log + [m];
    assert forall i | 0 <= i < |log| :: log[i] == all[i] && all[i].timestamp < all[|log|].timestamp;
    LatestTimeIsLatest(log, user, k);
  }

  /** The first-seen list holds every partner once, ordered by the latest message. */
  lemma {:induction false} ChatsAreOrdered(log: seq<Message>, user: UserId)
    requires Chronological(log)
    ensures ChatOrder(log, user, Chats(log, user))
  {
    if log != [] {
      var front, m := log[..|log| - 1], log[|log| - 1];
      assert log == front + [m];
      ChatsAreOrdered(front, user);
      NewMessageMovesToTop(front, m, user);
      AppendKeepsOrder(front, m, user, Chats(front, user));
    }
  }

  lemma AppendKeepsOrder(log: seq<Message>, m: Message, user: UserId, earlier: seq<UserId>)
    requires Chronological(log + [m]) && ChatOrder(log, user, earlier)
    ensures ChatOrder(log + [m], user,
                      if Involves(m, user) then [Partner(m, user)] + Without(earlier, Partner(m, user)) else earlier)
  {
    var all := log + [m];
    assert all[..|log|] == log && all[|log|] == m;
    var p := Partner(m, user);
    var chats := if Involves(m, user) then [p] + Without(earlier, p) else earlier;
    forall k
      ensures k in chats <==> Talked(all, user, k)
    {
      TalkedMore(log, m, user, k);
      WithoutMembers(earlier, p, k);
    }
    if Involves(m, user) {
      var rest := Without(earlier, p);
      WithoutKeepsOrder(earlier, p, (k: UserId) => LatestTime(log, user, k));
      forall j | 0 <= j < |rest|
        ensures LatestTime(all, user, rest[j]) == LatestTime(log, user, rest[j]) < m.timestamp
      {
        WithoutMembers(earlier, p, rest[j]);
        assert Talked(log, user, rest[j]);
        EarlierTalkIsEarlier(log, user, rest[j], m);
      }
    }
  }

  // The relational form

  /** A row of one of the two grouped selects: a partner with the time of the latest message in that direction. */
  ghost predicate GroupedRow(table: set<Message>, sender: UserId, receiver: UserId, t: int) {
    && (exists m :: m in table && m.from == sender && m.to == receiver && m.timestamp == t)
    && (forall m | m in table && m.from == sender && m.to == receiver :: m.timestamp <= t)
  }

  /** The group of a direction has one row, with the time of its latest message, if it has a message. */
  lemma GroupedOnce(table: set<Message>, sender: UserId, receiver: UserId, t: int, u: int)
    requires GroupedRow(table, sender, receiver, t) && GroupedRow(table, sender, receiver, u)
    ensures t == u
    ensures exists m :: m in table && m.from == sender && m.to == receiver && m.timestamp == t
  {
  }

  /** A row of the union of the selects over received and over sent messages. */
  ghost predicate UnionRow(table: set<Message>, user: UserId, partner: UserId, t: int) {
    GroupedRow(table, partner, user, t) || GroupedRow(table, user, partner, t)
  }

  /** A row of the union grouped by partner. */
  ghost predicate ChatRow(table: set<Message>, user: UserId, partner: UserId, t: int) {
    && UnionRow(table, user, partner, t)
    && (forall t' | UnionRow(table, user, partner, t') :: t' <= t)
  }

  /** Every partner once, ordered by time, the latest first; equal times in any order. */
  ghost predicate SqlChats(table: set<Message>, user: UserId, r: seq<UserId>) {
    && (forall k :: k in r <==> exists t :: ChatRow(table, user, k, t))
    && (forall i, j | 0 <= i < j < |r| :: r[i] != r[j])
    && (forall i, j, ti, tj |
          0 <= i < j < |r| && ChatRow(table, user, r[i], ti) && ChatRow(table, user, r[j], tj) :: ti >= tj)
  }

  /** The grouped maximum of a partner is the time of the latest message with that partner. */
  lemma ChatRowIsLatest(log: seq<Message>, user: UserId, k: UserId, t: int)
    requires Chronological(log)
    ensures ChatRow(Rows(log), user, k, t) <==> Talked(log, user, k) && t == LatestTime(log, user, k)
  {
    var table := Rows(log);
    if Talked(log, user, k) {
      LatestTimeIsLatest(log, user, k);
      var latest := LatestTime(log, user, k);
      forall m | m in table && Involves(m, user) && Partner(m, user) == k
        ensures m.timestamp <= latest
      {
        var i :| 0 <= i < |log| && log[i] == m;
      }
      var i :| 0 <= i < |log| && Involves(log[i], user) && Partner(log[i], user) == k && log[i].timestamp == latest;
      assert log[i] in table;
      assert GroupedRow(table, log[i].from, log[i].to, latest);
      assert UnionRow(table, user, k, latest);
    }
    if ChatRow(table, user, k, t) {
      var m :| m in table && m.timestamp == t && ((m.from == k && m.to == user) || (m.from == user && m.to == k));
      var i :| 0 <= i < |log| && log[i] == m;
      assert Involves(log[i], user) && Partner(log[i], user) == k;
    }
  }

  lemma SameMessageSamePartner(log: seq<Message>, user: UserId, a: UserId, b: UserId)
    requires Chronological(log) && Talked(log, user, a) && Talked(log, user, b)
    requires LatestTime(log, user, a) == LatestTime(log, user, b)
    ensures a == b
  {
    LatestTimeIsLatest(log, user, a);
    LatestTimeIsLatest(log, user, b);
  }

  /** The union, group-by-maximum, order-by query answers with the first-seen list and nothing else. */
  lemma ChatListsAgree(log: seq<Message>, user: UserId, r: seq<UserId>)
    requires Chronological(log)
    ensures SqlChats(Rows(log), user, r) <==> r == Chats(log, user)
  {
    var mine := Chats(log, user);
    var rank := (k: UserId) => LatestTime(log, user, k);
    ChatsAreOrdered(log, user);
    forall k, t
      ensures ChatRow(Rows(log), user, k, t) <==> Talked(log, user, k) && t == LatestTime(log, user, k)
    {
      ChatRowIsLatest(log, user, k, t);
    }
    forall k
      ensures (exists t :: ChatRow(Rows(log), user, k, t)) <==> Talked(log, user, k)
    {
      assert Talked(log, user, k) ==> ChatRow(Rows(log), user, k, LatestTime(log, user, k));
    }
    if SqlChats(Rows(log), user, r) {
      forall i, j | 0 <= i < j < |r|
        ensures rank(r[i]) > rank(r[j])
      {
        assert r[i] in r && r[j] in r;
        assert ChatRow(Rows(log), user, r[i], rank(r[i])) && ChatRow(Rows(log), user, r[j], rank(r[j]));
        if rank(r[i]) == rank(r[j]) {
          SameMessageSamePartner(log, user, r[i], r[j]);
        }
      }
      RankedListingIsUnique(r, mine, rank);
    }
  }

  // Chats and the chat list

  /** Every message of a user is in the chat with its partner, and in no other chat of the user. */
  lemma MessageIsInPartnersChat(log: seq<Message>, user: UserId, m: Message, partner: UserId)
    requires m in Inbox(log, user)
    ensures m in ChatOf(log, user, partner) <==> partner == Partner(m, user)
    ensures {m.from, m.to} == {user, Partner(m, user)}
  {
    InboxMembers(log, user, m);
    ChatMembers(log, user, partner, m);
  }

  lemma {:induction false} PartnersMembers(log: seq<Message>, user: UserId, partner: UserId)
    ensures partner in Partners(log, user) <==> ChatOf(log, user, partner) != []
  {
    if log != [] {
      PartnersMembers(log[1..], user, partner);
    }
  }

  lemma {:induction false} FirstSeenMembers<T>(s: seq<T>, x: T)
    ensures x in FirstSeen(s) <==> x in s
  {
    if s != [] {
      FirstSeenMembers(s[..|s| - 1], x);
      assert s == s[..|s| - 1] + [s[|s| - 1]];
    }
  }

  /** The list names exactly the partners with whom there is a chat. */
  lemma ListedExactly(log: seq<Message>, user: UserId, partner: UserId)
    ensures partner in Chats(log, user) <==> ChatOf(log, user, partner) != []
  {
    FirstSeenMembers(Partners(Reverse(log), user), partner);
    PartnersMembers(Reverse(log), user, partner);
    ChatReverse(log, user, partner);
    ReverseLength(ChatOf(log, user, partner));
  }
}
