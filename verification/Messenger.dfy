/** The messenger as an object over the store and the subscriptions handler: ordered updates of both. */
module Messenger {
  import opened Wrappers
  import opened Messages
  import Accounts
  import Handler
  import Store

  /** What goes wrong outside of the model: a store that refuses a write. */
  datatype Error = StoreFailed

  class Messenger {
    const db: Store.Db
    const handler: Handler.SubscriptionsHandler

    constructor ()
      ensures fresh(db) && fresh(handler)
      ensures db.users == [] && db.messages == [] && db.auth == []
      ensures handler.Valid() && handler.Contents() == map[]
    {
      db := new Store.Db();
      handler := new Handler.SubscriptionsHandler();
    }

    /** Stores the message and then publishes it; an error in publishing is only logged. */
    method SendMessage(m: Message, refused: bool) returns (r: Result<MessageId, Error>)
      requires handler.Valid()
      modifies db`messages, handler.newMessages.Values
      ensures handler.Valid() && handler.newMessages == old(handler.newMessages)
      ensures refused ==> && r == Err(StoreFailed) && db.messages == old(db.messages)
                          && handler.Contents() == old(handler.Contents())
      ensures !refused ==> && r == Ok(m.id) && db.messages == old(db.messages) + [m]
                           && handler.Contents() == Handler.Publish(old(handler.Contents()), m)
    {
      if refused {
        return Err(StoreFailed);
      }
      db.CreateMessage(m);
      var published := handler.HandleNewMessage(m);
      r := Ok(m.id);
    }

    /** Inserts the user and then the credential, which `refused` makes fail. */
    method CreateUser(lower: Accounts.Lowering, login: string, password: string, id: UserId, salt: nat, refused: bool)
      returns (r: Result<Option<UserId>, Error>)
      modifies db`users, db`auth
      ensures Accounts.FindUser(old(db.users), lower, login).Some? ==>
                r == Ok(None) && db.users == old(db.users) && db.auth == old(db.auth)
      ensures Accounts.FindUser(old(db.users), lower, login).None? ==>
                && r == (if refused then Err(StoreFailed) else Ok(Some(id)))
                && db.users == old(db.users) + [Accounts.UserRecord(id, login)]
                && db.auth == if refused then old(db.auth)
                              else Accounts.UpdateAuth(old(db.auth), id, Accounts.PasswordHash(password, salt))
    {
      var created := db.CreateUser(lower, login, id);
      if created.None? {
        return Ok(None);
      }
      if refused {
        return Err(StoreFailed);
      }
      var previous := db.UpdateAuthentication(created.value, Accounts.PasswordHash(password, salt));
      r := Ok(created);
    }

    method VerifyUser(lower: Accounts.Lowering, username: string, password: string) returns (r: Option<UserId>)
      ensures r == Accounts.VerifyUser(db.users, db.auth, lower, username, password)
    {
      var id := Accounts.FindUser(db.users, lower, username);
      if id.None? {
        return None;
      }
      r := if Accounts.PasswordMatches(db.auth, id.value, password) then id else None;
    }
  }

  lemma RunOne(s: Accounts.State, lower: Accounts.Lowering, step: Accounts.Step)
    requires Accounts.Enabled(s, step)
    ensures Accounts.Legal(s, lower, [step]) && Accounts.Run(s, lower, [step]) == Accounts.Apply(s, lower, step)
  {
  }

  /**
   * What `CreateUser` does to the tables, from any state of the account system, is what the account
   * steps do that it stands for: an insertion, and then a stored credential or, when it is refused, a stop.
   */
  lemma CreationIsRun(s: Accounts.State, lower: Accounts.Lowering, login: string, password: string,
                      id: UserId, salt: nat, refused: bool) returns (steps: seq<Accounts.Step>)
    requires Accounts.Enabled(s, Accounts.Insert(login, password, id))
    ensures Accounts.Legal(s, lower, steps)
    ensures var t := Accounts.Run(s, lower, steps);
            var creator := |s.creators|;
            && |t.creators| == creator + 1 && t.creators[..creator] == s.creators
            && t.creators[creator].name == login && t.creators[creator].password == password
            && if Accounts.FindUser(s.users, lower, login).Some?
               then t.users == s.users && t.auth == s.auth && t.creators[creator].progress.Rejected?
               else
                 && t.users == s.users + [Accounts.UserRecord(id, login)]
                 && t.auth == (if refused then s.auth
                               else Accounts.UpdateAuth(s.auth, id, Accounts.PasswordHash(password, salt)))
                 && t.creators[creator].progress == if refused then Accounts.Stopped else Accounts.Created
  {
    var creator := |s.creators|;
    var insert := Accounts.Insert(login, password, id);
    var t := Accounts.Apply(s, lower, insert);
    if Accounts.FindUser(s.users, lower, login).Some? {
      steps := [insert];
      assert steps[1..] == [] && Accounts.Run(t, lower, []) == t;
    } else {
      var last := if refused then Accounts.Stop(creator) else Accounts.StoreCredential(creator, salt);
      var u := Accounts.Apply(t, lower, last);
      steps := [insert, last];
      assert steps[1..] == [last] && [last][1..] == [];
      RunOne(t, lower, last);
      assert Accounts.Run(s, lower, steps) == Accounts.Run(t, lower, steps[1..]);
    }
  }

  lemma {:induction false} FoundLast(users: seq<Accounts.UserRecord>, lower: Accounts.Lowering,
                                     user: Accounts.UserRecord, name: string)
    requires lower(user.username) == lower(name)
    ensures Accounts.FindUser(users + [user], lower, name)
         == if Accounts.FindUser(users, lower, name).Some? then Accounts.FindUser(users, lower, name) else Some(user.id)
  {
    if users != [] {
      assert (users + [user])[1..] == users[1..] + [user];
      FoundLast(users[1..], lower, user, name);
    }
  }

  lemma {:induction false} SameUpToCase(users: seq<Accounts.UserRecord>, lower: Accounts.Lowering, a: string, b: string)
    requires lower(a) == lower(b)
    ensures Accounts.FindUser(users, lower, a) == Accounts.FindUser(users, lower, b)
  {
    if users != [] {
      SameUpToCase(users[1..], lower, a, b);
    }
  }

  /** After a creation in whatever store, a login under the name in any case succeeds with exactly its password. */
  lemma CreatedCanLogIn(users: seq<Accounts.UserRecord>, auth: seq<Accounts.AuthRecord>, lower: Accounts.Lowering,
                        login: string, password: string, id: UserId, salt: nat, name: string, attempt: string)
    requires Accounts.FindUser(users, lower, login).None? && lower(name) == lower(login)
    ensures var hash := Accounts.PasswordHash(password, salt);
            Accounts.VerifyUser(users + [Accounts.UserRecord(id, login)], Accounts.UpdateAuth(auth, id, hash),
                                lower, name, attempt)
            == if attempt == password then Some(id) else None
  {
    SameUpToCase(users, lower, name, login);
    FoundLast(users, lower, Accounts.UserRecord(id, login), name);
    Accounts.UpdateAuthStores(auth, id, Accounts.PasswordHash(password, salt), id);
  }
}
