/** What stands before what in a sequence, and in the parts of a log. */
module Orders {
  import opened Messages

  ghost predicate Precedes<T(!new)>(s: seq<T>, x: T, y: T) {
    exists a, b :: 0 <= a < b < |s| && s[a] == x && s[b] == y
  }

  lemma PrecedesConcat<T(!new)>(s: seq<T>, t: seq<T>, x: T, y: T)
    ensures Precedes(s + t, x, y) <==> Precedes(s, x, y) || Precedes(t, x, y) || (x in s && y in t)
  {
    var st := s + t;
    if a, b :| 0 <= a < b < |st| && st[a] == x && st[b] == y {
      if |s| <= a {
        assert t[a - |s|] == x && t[b - |s|] == y;
      } else if b < |s| {
        assert s[a] == x && s[b] == y;
      } else {
        assert t[b - |s|] == y;
      }
    }
    if a, b :| 0 <= a < b < |s| && s[a] == x && s[b] == y {
      assert st[a] == x && st[b] == y;
    }
    if a, b :| 0 <= a < b < |t| && t[a] == x && t[b] == y {
      assert st[|s| + a] == x && st[|s| + b] == y;
    }
    if x in s && y in t {
      var a :| 0 <= a < |s| && s[a] == x;
      var b :| 0 <= b < |t| && t[b] == y;
      assert st[a] == x && st[|s| + b] == y;
    }
  }

  lemma {:induction false} InboxPrecedes(log: seq<Message>, user: UserId, x: Message, y: Message)
    ensures Precedes(Inbox(log, user), x, y) <==> Precedes(log, x, y) && Involves(x, user) && Involves(y, user)
  {
    if log != [] {
      var head := if Involves(log[0], user) then [log[0]] else [];
      assert log == [log[0]] + log[1..];
      InboxPrecedes(log[1..], user, x, y);
      InboxMembers(log[1..], user, y);
      PrecedesConcat(head, Inbox(log[1..], user), x, y);
      PrecedesConcat([log[0]], log[1..], x, y);
    }
  }

  /** A beginning of a listing holds its last element and what precedes that. */
  lemma BeginningMembers(front: seq<Message>, full: seq<Message>, m: Message)
    requires front != [] && front <= full && DistinctIds(full)
    ensures m in front <==> m == front[|front| - 1] || Precedes(full, m, front[|front| - 1])
  {
  }

  lemma LogPrecedes(log: seq<Message>, from: nat, to: nat, q: nat, p: nat)
    requires DistinctIds(log) && from <= p < to <= |log| && q < |log|
    ensures Precedes(log[from..to], log[q], log[p]) <==> from <= q < p
  {
  }
}
