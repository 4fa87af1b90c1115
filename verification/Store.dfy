/** The in-memory store as an object: three tables that its operations update in place. */
module Store {
  import opened Wrappers
  import opened Messages
  import opened Queries
  import opened Keyset
  import opened ChatList
  import opened Accounts

  datatype ChatUser = ChatUser(id: UserId, username: string)

  /** The map from ids to names; of several records with the same id the last one counts. */
  function NamesOf(users: seq<UserRecord>): map<UserId, string> {
    if users == [] then map[]
    else NamesOf(users[..|users| - 1])[users[|users| - 1].id := users[|users| - 1].username]
  }

  function UserOf(names: map<UserId, string>, id: UserId): ChatUser {
    ChatUser(id, if id in names then names[id] else "<unknown user id>")
  }

  function Named(names: map<UserId, string>, ids: seq<UserId>): seq<ChatUser> {
    if ids == [] then [] else Named(names, ids[..|ids| - 1]) + [UserOf(names, ids[|ids| - 1])]
  }

  lemma {:induction false} NamedMembers(names: map<UserId, string>, ids: seq<UserId>, id: UserId)
    ensures UserOf(names, id) in Named(names, ids) <==> id in ids
  {
    if ids != [] {
      var front, last := ids[..|ids| - 1], ids[|ids| - 1];
      assert ids == front + [last];
      NamedMembers(names, front, id);
    }
  }

  /** Dropping repeated users is dropping repeated ids, since a user's name goes with the id. */
  lemma {:induction false} FirstSeenNamed(names: map<UserId, string>, ids: seq<UserId>)
    ensures FirstSeen(Named(names, ids)) == Named(names, FirstSeen(ids))
  {
    if ids != [] {
      var front, last := ids[..|ids| - 1], ids[|ids| - 1];
      FirstSeenNamed(names, front);
      NamedMembers(names, FirstSeen(front), last);
      assert Named(names, ids)[..|Named(names, ids)| - 1] == Named(names, front);
      if last !in FirstSeen(front) {
        assert (FirstSeen(front) + [last])[..|FirstSeen(front)|] == FirstSeen(front);
      }
    }
  }

  /** A user with a record is named as in that record. */
  lemma {:induction false} KnownUsersAreNamed(users: seq<UserRecord>, i: nat)
    requires i < |users| && OneRecordEach(users)
    ensures UserOf(NamesOf(users), users[i].id) == ChatUser(users[i].id, users[i].username)
  {
    var last := |users| - 1;
    if i < last {
      KnownUsersAreNamed(users[..last], i);
      assert users[i].id != users[last].id;
    }
  }

  /** A user without a record is shown under a text that says so. */
  lemma {:induction false} UnknownUsersAreNamed(users: seq<UserRecord>, id: UserId)
    requires !HasRecord(users, id)
    ensures UserOf(NamesOf(users), id) == ChatUser(id, "<unknown user id>")
  {
    if users != [] {
      var front := users[..|users| - 1];
      assert forall i | 0 <= i < |front| :: front[i] == users[i];
      UnknownUsersAreNamed(front, id);
    }
  }

  // The relational chat list with its names

  function UserRows(users: seq<UserRecord>): set<UserRecord> {
    set u | u in users
  }

  ghost predicate OneRecordEach(users: seq<UserRecord>) {
    forall a, b | 0 <= a < b < |users| :: users[a].id != users[b].id
  }

  ghost predicate HasRecord(users: seq<UserRecord>, id: UserId) {
    exists i :: 0 <= i < |users| && users[i].id == id
  }

  /** The ordered chats joined with the users' names; a partner without a row has no name, and then there is no answer. */
  ghost predicate SqlChatUsers(table: set<Message>, users: set<UserRecord>, user: UserId, r: seq<ChatUser>) {
    exists ids :: SqlChats(table, user, ids) && JoinsNames(users, ids, r)
  }

  ghost predicate JoinsNames(users: set<UserRecord>, ids: seq<UserId>, r: seq<ChatUser>) {
    |r| == |ids| && forall k | 0 <= k < |ids| :: r[k].id == ids[k] && UserRecord(ids[k], r[k].username) in users
  }

  lemma {:induction false} NamedAt(names: map<UserId, string>, ids: seq<UserId>, k: nat)
    requires k < |ids|
    ensures |Named(names, ids)| == |ids| && Named(names, ids)[k] == UserOf(names, ids[k])
  {
    if |ids| > 1 {
      NamedAt(names, ids[..|ids| - 1], if k < |ids| - 1 then k else 0);
    }
  }

  /** Joining known users is naming them from the map, and joining an unknown one fails. */
  lemma JoinIsNaming(users: seq<UserRecord>, ids: seq<UserId>, r: seq<ChatUser>)
    requires OneRecordEach(users)
    ensures JoinsNames(UserRows(users), ids, r) <==>
            r == Named(NamesOf(users), ids) && forall k | 0 <= k < |ids| :: HasRecord(users, ids[k])
  {
    var named := Named(NamesOf(users), ids);
    if ids != [] {
      NamedAt(NamesOf(users), ids, 0);
    }
    forall k | 0 <= k < |ids|
      ensures named[k] == UserOf(NamesOf(users), ids[k])
      ensures HasRecord(users, ids[k]) ==> UserRecord(ids[k], named[k].username) in users
      ensures forall name | UserRecord(ids[k], name) in users :: HasRecord(users, ids[k]) && name == named[k].username
    {
      NamedAt(NamesOf(users), ids, k);
      forall i | 0 <= i < |users| && users[i].id == ids[k]
        ensures named[k].username == users[i].username
      {
        KnownUsersAreNamed(users, i);
      }
    }
  }

  /**
   * The relational chat list, with names, answers with the in-memory one and nothing else, exactly if
   * every partner has a row in the users table; otherwise it has no answer.
   */
  lemma ChatUsersAgree(log: seq<Message>, users: seq<UserRecord>, user: UserId, r: seq<ChatUser>)
    requires Chronological(log) && OneRecordEach(users)
    ensures SqlChatUsers(Rows(log), UserRows(users), user, r) <==>
            && r == Named(NamesOf(users), Chats(log, user))
            && forall k | 0 <= k < |Chats(log, user)| :: HasRecord(users, Chats(log, user)[k])
  {
    var ids := Chats(log, user);
    ChatListsAgree(log, user, ids);
    JoinIsNaming(users, ids, r);
    if SqlChatUsers(Rows(log), UserRows(users), user, r) {
      var other :| SqlChats(Rows(log), user, other) && JoinsNames(UserRows(users), other, r);
      ChatListsAgree(log, user, other);
    }
  }

  lemma {:induction false} PartnersConcat(a: seq<Message>, b: seq<Message>, user: UserId)
    ensures Partners(a + b, user) == Partners(a, user) + Partners(b, user)
  {
    if a == [] {
      assert a + b == b;
    } else {
      var head := if Involves(a[0], user) then [Partner(a[0], user)] else [];
      PartnersConcat(a[1..], b, user);
      assert (a + b)[0] == a[0] && (a + b)[1..] == a[1..] + b;
      assert Partners(a + b, user) == head + (Partners(a[1..], user) + Partners(b, user));
      assert Partners(a, user) == head + Partners(a[1..], user);
    }
  }

  // Where the update of a credential happens

  lemma {:induction false} UpdateAuthAt(auth: seq<AuthRecord>, id: UserId, hash: PasswordHash, i: nat)
    requires i <= |auth| && forall j | 0 <= j < i :: auth[j].userId != id
    requires i < |auth| ==> auth[i].userId == id
    ensures i == |auth| ==> UpdateAuth(auth, id, hash) == auth + [AuthRecord(id, hash)] && FetchAuth(auth, id) == None
    ensures i < |auth| ==> && UpdateAuth(auth, id, hash) == auth[i := AuthRecord(id, hash)]
                           && FetchAuth(auth, id) == Some(auth[i].hash)
  {
    if i > 0 {
      UpdateAuthAt(auth[1..], id, hash, i - 1);
    }
  }

  lemma {:induction false} NobodyFound(users: seq<UserRecord>, lower: Lowering, name: string)
    requires forall j | 0 <= j < |users| :: lower(users[j].username) != lower(name)
    ensures FindUser(users, lower, name) == None
  {
    if users != [] {
      NobodyFound(users[1..], lower, name);
    }
  }

  class Db {
    var users: seq<UserRecord>
    var messages: seq<Message>
    var auth: seq<AuthRecord>

    constructor ()
      ensures users == [] && messages == [] && auth == []
    {
      users, messages, auth := [], [], [];
    }

    /** Adds a user unless the name is taken in some case; `id` is the id generated for it. */
    method CreateUser(lower: Lowering, username: string, id: UserId) returns (created: Option<UserId>)
      modifies this`users
      ensures FindUser(old(users), lower, username).Some? ==> created == None && users == old(users)
      ensures FindUser(old(users), lower, username).None? ==>
                created == Some(id) && users == old(users) + [UserRecord(id, username)]
    {
      var i := 0;
      while i < |users|
        invariant i <= |users| && users == old(users)
        invariant forall j | 0 <= j < i :: lower(users[j].username) != lower(username)
      {
        if lower(users[i].username) == lower(username) {
          FindUserFinds(users, lower, username);
          return None;
        }
        i := i + 1;
      }
      NobodyFound(users, lower, username);
      users := users + [UserRecord(id, username)];
      created := Some(id);
    }

    method CreateMessage(m: Message)
      modifies this`messages
      ensures messages == old(messages) + [m]
    {
      messages := messages + [m];
    }

    /** Replaces the user's credential in place, or appends the first one. */
    method UpdateAuthentication(id: UserId, hash: PasswordHash) returns (previous: Option<PasswordHash>)
      modifies this`auth
      ensures auth == UpdateAuth(old(auth), id, hash)
      ensures previous == FetchAuth(old(auth), id)
    {
      for i := 0 to |auth|
        invariant auth == old(auth)
        invariant forall j | 0 <= j < i :: auth[j].userId != id
      {
        if auth[i].userId == id {
          UpdateAuthAt(auth, id, hash, i);
          previous := Some(auth[i].hash);
          auth := auth[i := auth[i].(hash := hash)];
          return;
        }
      }
      UpdateAuthAt(auth, id, hash, |auth|);
      auth := auth + [AuthRecord(id, hash)];
      previous := None;
    }

    /** Folds the reversed messages into the list of distinct partners. */
    method FindUsersChats(user: UserId) returns (res: seq<ChatUser>)
      ensures res == Named(NamesOf(users), Chats(messages, user))
    {
      var names: map<UserId, string> := map[];
      for i := 0 to |users|
        invariant names == NamesOf(users[..i])
      {
        assert users[..i + 1][..i] == users[..i];
        names := names[users[i].id := users[i].username];
      }
      assert users[..|users|] == users;
      res := [];
      var i := |messages|;
      while i > 0
        invariant 0 <= i <= |messages|
        invariant res == FirstSeen(Named(names, Partners(Reverse(messages[i..]), user)))
      {
        i := i - 1;
        var m := messages[i];
        ghost var before := Partners(Reverse(messages[i + 1..]), user);
        assert messages[i..][1..] == messages[i + 1..];
        PartnersConcat(Reverse(messages[i + 1..]), [m], user);
        if m.from == user || m.to == user {
          var chat := UserOf(names, if m.from == user then m.to else m.from);
          assert Partners([m], user) == [Partner(m, user)];
          assert (before + [Partner(m, user)])[..|before|] == before;
          assert (Named(names, before) + [chat])[..|Named(names, before)|] == Named(names, before);
          if chat !in res {
            res := res + [chat];
          }
        } else {
          assert before + [] == before;
        }
      }
      assert messages[0..] == messages;
      FirstSeenNamed(names, Partners(Reverse(messages), user));
    }
  }
}
