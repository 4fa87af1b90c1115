/**
 * Account creation and login. Creating an account is two writes, the user and then the credential,
 * and other creators may run, or this one may stop, between them.
 *
 * `lower` stands for the lowering of names, of which nothing is assumed. A stored hash verifies
 * exactly the password it was made from.
 */
module Accounts {
  import opened Wrappers
  import opened Messages

  datatype UserRecord = UserRecord(id: UserId, username: string)
  datatype PasswordHash = PasswordHash(password: string, salt: nat)
  datatype AuthRecord = AuthRecord(userId: UserId, hash: PasswordHash)

  type Lowering = string -> string

  function FindUser(users: seq<UserRecord>, lower: Lowering, name: string): Option<UserId> {
    if users == [] then None
    else if lower(users[0].username) == lower(name) then Some(users[0].id)
    else FindUser(users[1..], lower, name)
  }

  function FetchAuth(auth: seq<AuthRecord>, id: UserId): Option<PasswordHash> {
    if auth == [] then None
    else if auth[0].userId == id then Some(auth[0].hash)
    else FetchAuth(auth[1..], id)
  }

  function UpdateAuth(auth: seq<AuthRecord>, id: UserId, hash: PasswordHash): seq<AuthRecord> {
    if auth == [] then [AuthRecord(id, hash)]
    else if auth[0].userId == id then [AuthRecord(id, hash)] + auth[1..]
    else [auth[0]] + UpdateAuth(auth[1..], id, hash)
  }

  predicate PasswordMatches(auth: seq<AuthRecord>, id: UserId, password: string) {
    match FetchAuth(auth, id)
    case None => false
    case Some(hash) => hash.password == password
  }

  function VerifyUser(users: seq<UserRecord>, auth: seq<AuthRecord>, lower: Lowering, name: string, password: string):
    Option<UserId>
  {
    match FindUser(users, lower, name)
    case None => None
    case Some(id) => if PasswordMatches(auth, id, password) then Some(id) else None
  }

  // Runs of concurrent creators

  datatype Progress = Inserted | Created | Stopped | Rejected
  datatype Creator = Creator(name: string, password: string, id: UserId, progress: Progress)
  datatype State = State(users: seq<UserRecord>, auth: seq<AuthRecord>, creators: seq<Creator>)

  datatype Step =
    | Insert(name: string, password: string, id: UserId)
    | StoreCredential(creator: nat, salt: nat)
    | Stop(creator: nat)

  const EMPTY := State([], [], [])

  ghost predicate Enabled(s: State, step: Step) {
    match step
    case Insert(_, _, id) => forall i | 0 <= i < |s.users| :: s.users[i].id != id
    case StoreCredential(c, _) => c < |s.creators| && s.creators[c].progress.Inserted?
    case Stop(c) => c < |s.creators| && s.creators[c].progress.Inserted?
  }

  ghost function Apply(s: State, lower: Lowering, step: Step): State
    requires Enabled(s, step)
  {
    match step
    case Insert(name, password, id) =>
      if FindUser(s.users, lower, name).Some? then
        s.(creators := s.creators + [Creator(name, password, id, Rejected)])
      else
        s.(users := s.users + [UserRecord(id, name)], creators := s.creators + [Creator(name, password, id, Inserted)])
    case StoreCredential(c, salt) =>
      s.(auth := UpdateAuth(s.auth, s.creators[c].id, PasswordHash(s.creators[c].password, salt)),
         creators := s.creators[c := s.creators[c].(progress := Created)])
    case Stop(c) => s.(creators := s.creators[c := s.creators[c].(progress := Stopped)])
  }

  ghost predicate Legal(s: State, lower: Lowering, steps: seq<Step>)
    decreases |steps|
  {
    steps != [] ==> Enabled(s, steps[0]) && Legal(Apply(s, lower, steps[0]), lower, steps[1..])
  }

  ghost function Run(s: State, lower: Lowering, steps: seq<Step>): State
    requires Legal(s, lower, steps)
    decreases |steps|
  {
    if steps == [] then s else Run(Apply(s, lower, steps[0]), lower, steps[1..])
  }

  // The tables

  lemma {:induction false} FindUserFinds(users: seq<UserRecord>, lower: Lowering, name: string)
    ensures match FindUser(users, lower, name)
            case None => forall i | 0 <= i < |users| :: lower(users[i].username) != lower(name)
            case Some(id) => exists i :: 0 <= i < |users| && users[i].id == id && lower(users[i].username) == lower(name)
  {
    if users != [] && lower(users[0].username) != lower(name) {
      FindUserFinds(users[1..], lower, name);
      assert forall i | 0 < i < |users| :: users[i] == users[1..][i - 1];
      if FindUser(users, lower, name).Some? {
        var i :| 0 <= i < |users[1..]| && users[1..][i].id == FindUser(users, lower, name).value
                 && lower(users[1..][i].username) == lower(name);
        assert users[i + 1] == users[1..][i];
      }
    }
  }

  lemma {:induction false} UpdateAuthStores(auth: seq<AuthRecord>, id: UserId, hash: PasswordHash, other: UserId)
    ensures FetchAuth(UpdateAuth(auth, id, hash), other) == if other == id then Some(hash) else FetchAuth(auth, other)
  {
    if auth != [] && auth[0].userId != id {
      UpdateAuthStores(auth[1..], id, hash, other);
    }
  }

  // Invariants

  ghost predicate NoTwins(s: State, lower: Lowering) {
    forall i, j | 0 <= i < j < |s.users| ::
      s.users[i].id != s.users[j].id && lower(s.users[i].username) != lower(s.users[j].username)
  }

  predicate HasUser(creator: Creator) {
    !creator.progress.Rejected?
  }

  predicate Made(creator: Creator, user: UserRecord) {
    HasUser(creator) && creator.id == user.id && creator.name == user.username
  }

  /** Every user has exactly one creator, and every creator that was not rejected its user. */
  ghost predicate Owned(s: State) {
    && (forall i | 0 <= i < |s.users| :: Creates(s, s.users[i]))
    && (forall c | 0 <= c < |s.creators| && HasUser(s.creators[c]) ::
          UserRecord(s.creators[c].id, s.creators[c].name) in s.users)
    && (forall c, d | 0 <= c < d < |s.creators| && HasUser(s.creators[c]) && HasUser(s.creators[d]) ::
          s.creators[c].id != s.creators[d].id)
  }

  ghost predicate Creates(s: State, user: UserRecord) {
    exists c :: 0 <= c < |s.creators| && Made(s.creators[c], user)
  }

  /** A user has a credential exactly when its creation completed, and it holds that creation's password. */
  ghost predicate Credentialed(s: State) {
    && (forall c | 0 <= c < |s.creators| && HasUser(s.creators[c]) ::
          match FetchAuth(s.auth, s.creators[c].id)
          case None => !s.creators[c].progress.Created?
          case Some(hash) => s.creators[c].progress.Created? && hash.password == s.creators[c].password)
    && (forall id | FetchAuth(s.auth, id).Some? ::
          exists c :: 0 <= c < |s.creators| && HasUser(s.creators[c]) && s.creators[c].id == id)
  }

  ghost predicate Inv(s: State, lower: Lowering) {
    NoTwins(s, lower) && Owned(s) && Credentialed(s)
  }

  lemma InsertKeepsOwned(s: State, lower: Lowering, name: string, password: string, id: UserId)
    requires Owned(s) && Enabled(s, Insert(name, password, id))
    ensures Owned(Apply(s, lower, Insert(name, password, id)))
  {
    var t := Apply(s, lower, Insert(name, password, id));
    var n := |s.creators|;
    assert forall c | 0 <= c < n :: t.creators[c] == s.creators[c];
    forall i | 0 <= i < |t.users|
      ensures Creates(t, t.users[i])
    {
      if i < |s.users| {
        assert Creates(s, s.users[i]);
        var c :| 0 <= c < n && Made(s.creators[c], s.users[i]);
        assert t.creators[c] == s.creators[c];
      } else {
        assert t.creators[n].id == id;
      }
    }
    forall c | 0 <= c < n && HasUser(s.creators[c])
      ensures s.creators[c].id != id
    {
      var i :| 0 <= i < |s.users| && s.users[i] == UserRecord(s.creators[c].id, s.creators[c].name);
    }
  }

  lemma InsertKeepsInv(s: State, lower: Lowering, name: string, password: string, id: UserId)
    requires Inv(s, lower) && Enabled(s, Insert(name, password, id))
    ensures Inv(Apply(s, lower, Insert(name, password, id)), lower)
  {
    FindUserFinds(s.users, lower, name);
    InsertKeepsOwned(s, lower, name, password, id);
    InsertKeepsCredentials(s, lower, name, password, id);
  }

  lemma InsertKeepsCredentials(s: State, lower: Lowering, name: string, password: string, id: UserId)
    requires Inv(s, lower) && Enabled(s, Insert(name, password, id))
    ensures Credentialed(Apply(s, lower, Insert(name, password, id)))
  {
    var t := Apply(s, lower, Insert(name, password, id));
    var n := |s.creators|;
    forall other | FetchAuth(t.auth, other).Some?
      ensures exists c :: 0 <= c < |t.creators| && HasUser(t.creators[c]) && t.creators[c].id == other
    {
      var c :| 0 <= c < n && HasUser(s.creators[c]) && s.creators[c].id == other;
      assert t.creators[c] == s.creators[c];
    }
  }

  /** A step that only moves one creator on, to one of the two final states with a user. */
  lemma AdvanceKeepsOwned(s: State, t: State, c: nat, progress: Progress)
    requires Owned(s) && c < |s.creators| && HasUser(s.creators[c]) && !progress.Rejected?
    requires t.users == s.users && t.creators == s.creators[c := s.creators[c].(progress := progress)]
    ensures Owned(t)
  {
    forall i | 0 <= i < |t.users|
      ensures Creates(t, t.users[i])
    {
      assert Creates(s, s.users[i]);
      var d :| 0 <= d < |s.creators| && Made(s.creators[d], s.users[i]);
      assert Made(t.creators[d], s.users[i]);
    }
  }

  lemma StoreKeepsInv(s: State, lower: Lowering, c: nat, salt: nat)
    requires Inv(s, lower) && Enabled(s, StoreCredential(c, salt))
    ensures Inv(Apply(s, lower, StoreCredential(c, salt)), lower)
  {
    var t := Apply(s, lower, StoreCredential(c, salt));
    AdvanceKeepsOwned(s, t, c, Created);
    var hash := PasswordHash(s.creators[c].password, salt);
    forall id
      ensures FetchAuth(t.auth, id) == if id == s.creators[c].id then Some(hash) else FetchAuth(s.auth, id)
    {
      UpdateAuthStores(s.auth, s.creators[c].id, hash, id);
    }
    forall id | FetchAuth(t.auth, id).Some?
      ensures exists d :: 0 <= d < |t.creators| && HasUser(t.creators[d]) && t.creators[d].id == id
    {
      if id == s.creators[c].id {
        assert t.creators[c].id == id;
      } else {
        var d :| 0 <= d < |s.creators| && HasUser(s.creators[d]) && s.creators[d].id == id;
        assert HasUser(t.creators[d]) && t.creators[d].id == id;
      }
    }
  }

  lemma StopKeepsInv(s: State, lower: Lowering, c: nat)
    requires Inv(s, lower) && Enabled(s, Stop(c))
    ensures Inv(Apply(s, lower, Stop(c)), lower)
  {
    var t := Apply(s, lower, Stop(c));
    AdvanceKeepsOwned(s, t, c, Stopped);
    forall id | FetchAuth(t.auth, id).Some?
      ensures exists d :: 0 <= d < |t.creators| && HasUser(t.creators[d]) && t.creators[d].id == id
    {
      var d :| 0 <= d < |s.creators| && HasUser(s.creators[d]) && s.creators[d].id == id;
      assert HasUser(t.creators[d]) && t.creators[d].id == id;
    }
  }

  lemma StepKeepsInv(s: State, lower: Lowering, step: Step)
    requires Inv(s, lower) && Enabled(s, step)
    ensures Inv(Apply(s, lower, step), lower)
  {
    match step {
      case Insert(name, password, id) => InsertKeepsInv(s, lower, name, password, id);
      case StoreCredential(c, salt) => StoreKeepsInv(s, lower, c, salt);
      case Stop(c) => StopKeepsInv(s, lower, c);
    }
  }

  lemma {:induction false} RunKeepsInv(s: State, lower: Lowering, steps: seq<Step>)
    requires Inv(s, lower) && Legal(s, lower, steps)
    ensures Inv(Run(s, lower, steps), lower)
    decreases |steps|
  {
    if steps != [] {
      StepKeepsInv(s, lower, steps[0]);
      RunKeepsInv(Apply(s, lower, steps[0]), lower, steps[1..]);
    }
  }

  lemma EmptyInv(lower: Lowering)
    ensures Inv(EMPTY, lower)
  {
  }

  // Results over whole runs

  /** However creators interleave, no two users ever have names that differ only in case. */
  lemma NamesStayUnique(lower: Lowering, steps: seq<Step>)
    requires Legal(EMPTY, lower, steps)
    ensures NoTwins(Run(EMPTY, lower, steps), lower)
  {
    EmptyInv(lower);
    RunKeepsInv(EMPTY, lower, steps);
  }

  /** A creation under this name, up to case, with this password, that completed with this id. */
  ghost predicate Registered(s: State, lower: Lowering, name: string, password: string, id: UserId) {
    exists c :: 0 <= c < |s.creators| && s.creators[c].progress.Created?
                && lower(s.creators[c].name) == lower(name) && s.creators[c].password == password && s.creators[c].id == id
  }

  lemma LoginWasRegistered(s: State, lower: Lowering, name: string, password: string, id: UserId)
    requires Inv(s, lower) && VerifyUser(s.users, s.auth, lower, name, password) == Some(id)
    ensures Registered(s, lower, name, password, id)
  {
    FindUserFinds(s.users, lower, name);
    var i :| 0 <= i < |s.users| && s.users[i].id == id && lower(s.users[i].username) == lower(name);
    assert Creates(s, s.users[i]);
    var c :| 0 <= c < |s.creators| && Made(s.creators[c], s.users[i]);
    assert FetchAuth(s.auth, s.creators[c].id).Some?;
  }

  /** Looking a name up finds the user that a creator under it made, whatever its case. */
  lemma CreatorIsFound(s: State, lower: Lowering, name: string, c: nat)
    requires NoTwins(s, lower) && Owned(s)
    requires c < |s.creators| && HasUser(s.creators[c]) && lower(s.creators[c].name) == lower(name)
    ensures FindUser(s.users, lower, name) == Some(s.creators[c].id)
  {
    FindUserFinds(s.users, lower, name);
    var i :| 0 <= i < |s.users| && s.users[i] == UserRecord(s.creators[c].id, s.creators[c].name);
    var found := FindUser(s.users, lower, name);
    var j :| 0 <= j < |s.users| && s.users[j].id == found.value && lower(s.users[j].username) == lower(name);
    assert i == j;
  }

  lemma VerifyExactly(s: State, lower: Lowering, name: string, password: string, id: UserId)
    requires Inv(s, lower)
    ensures VerifyUser(s.users, s.auth, lower, name, password) == Some(id) <==> Registered(s, lower, name, password, id)
  {
    if VerifyUser(s.users, s.auth, lower, name, password) == Some(id) {
      LoginWasRegistered(s, lower, name, password, id);
    }
    if Registered(s, lower, name, password, id) {
      var c :| 0 <= c < |s.creators| && s.creators[c].progress.Created?
               && lower(s.creators[c].name) == lower(name) && s.creators[c].password == password && s.creators[c].id == id;
      CreatorIsFound(s, lower, name, c);
      assert FetchAuth(s.auth, s.creators[c].id).Some?;
    }
  }

  /**
   * Login succeeds with an id exactly when a completed creation under that name, up to case, and with
   * that password returned it.
   */
  lemma LoginMatchesCreation(lower: Lowering, steps: seq<Step>, name: string, password: string, id: UserId)
    requires Legal(EMPTY, lower, steps)
    ensures var s := Run(EMPTY, lower, steps);
            VerifyUser(s.users, s.auth, lower, name, password) == Some(id) <==> Registered(s, lower, name, password, id)
  {
    EmptyInv(lower);
    RunKeepsInv(EMPTY, lower, steps);
    VerifyExactly(Run(EMPTY, lower, steps), lower, name, password, id);
  }

  // A login whose two reads are apart

  lemma {:induction false} FoundAgain(users: seq<UserRecord>, more: seq<UserRecord>, lower: Lowering, name: string)
    requires FindUser(users, lower, name).Some?
    ensures FindUser(users + more, lower, name) == FindUser(users, lower, name)
  {
    assert (users + more)[0] == users[0];
    if lower(users[0].username) != lower(name) {
      assert (users + more)[1..] == users[1..] + more;
      FoundAgain(users[1..], more, lower, name);
    }
  }

  /** Users are only ever added, and a completed creation stays one. */
  lemma {:induction false} RunOnlyAdds(s: State, lower: Lowering, steps: seq<Step>)
    requires Legal(s, lower, steps)
    ensures var t := Run(s, lower, steps);
            && s.users <= t.users && |s.creators| <= |t.creators|
            && forall c | 0 <= c < |s.creators| && s.creators[c].progress.Created? :: t.creators[c] == s.creators[c]
    decreases |steps|
  {
    if steps != [] {
      var next := Apply(s, lower, steps[0]);
      assert s.users <= next.users;
      assert forall c | 0 <= c < |s.creators| && s.creators[c].progress.Created? :: next.creators[c] == s.creators[c];
      RunOnlyAdds(next, lower, steps[1..]);
    }
  }

  lemma StaysRegistered(s: State, lower: Lowering, steps: seq<Step>, name: string, password: string, id: UserId)
    requires Legal(s, lower, steps) && Registered(s, lower, name, password, id)
    ensures Registered(Run(s, lower, steps), lower, name, password, id)
  {
    RunOnlyAdds(s, lower, steps);
    var c :| 0 <= c < |s.creators| && s.creators[c].progress.Created?
             && lower(s.creators[c].name) == lower(name) && s.creators[c].password == password && s.creators[c].id == id;
    assert Run(s, lower, steps).creators[c] == s.creators[c];
  }

  /**
   * A login looks the name up in one state and the credential up in a later one, and creators may
   * run in between. It succeeds with an id if the creation had completed by the first read, and
   * only if it had completed by the second.
   */
  lemma LoginAmidCreations(lower: Lowering, before: seq<Step>, between: seq<Step>,
                           name: string, password: string, id: UserId)
    requires Legal(EMPTY, lower, before) && Legal(Run(EMPTY, lower, before), lower, between)
    ensures var s := Run(EMPTY, lower, before);
            var t := Run(s, lower, between);
            var result := VerifyUser(s.users, t.auth, lower, name, password);
            && (Registered(s, lower, name, password, id) ==> result == Some(id))
            && (result == Some(id) ==> Registered(t, lower, name, password, id))
  {
    var s := Run(EMPTY, lower, before);
    var t := Run(s, lower, between);
    EmptyInv(lower);
    RunKeepsInv(EMPTY, lower, before);
    RunKeepsInv(s, lower, between);
    RunOnlyAdds(s, lower, between);
    var found := FindUser(s.users, lower, name);
    if found.Some? {
      assert t.users == s.users + t.users[|s.users|..];
      FoundAgain(s.users, t.users[|s.users|..], lower, name);
    }
    VerifyExactly(t, lower, name, password, id);
    if Registered(s, lower, name, password, id) {
      VerifyExactly(s, lower, name, password, id);
      StaysRegistered(s, lower, between, name, password, id);
    }
  }

  lemma {:induction false} StoppedForever(s: State, lower: Lowering, steps: seq<Step>, c: nat)
    requires Legal(s, lower, steps) && c < |s.creators| && s.creators[c].progress.Stopped?
    ensures var t := Run(s, lower, steps); c < |t.creators| && t.creators[c] == s.creators[c]
    decreases |steps|
  {
    if steps != [] {
      StoppedForever(Apply(s, lower, steps[0]), lower, steps[1..], c);
    }
  }

  /**
   * A creation that stopped between its two writes blocks its name for good: nobody can log in
   * under it and nobody can take it.
   */
  lemma HalfCreatedBlocksName(lower: Lowering, before: seq<Step>, after: seq<Step>, c: nat, name: string, password: string)
    requires Legal(EMPTY, lower, before) && Legal(Run(EMPTY, lower, before), lower, after)
    requires var s := Run(EMPTY, lower, before);
             c < |s.creators| && s.creators[c].progress.Stopped? && lower(s.creators[c].name) == lower(name)
    ensures var t := Run(Run(EMPTY, lower, before), lower, after);
            VerifyUser(t.users, t.auth, lower, name, password) == None && FindUser(t.users, lower, name).Some?
  {
    var s := Run(EMPTY, lower, before);
    EmptyInv(lower);
    RunKeepsInv(EMPTY, lower, before);
    RunKeepsInv(s, lower, after);
    StoppedForever(s, lower, after, c);
    var t := Run(s, lower, after);
    CreatorIsFound(t, lower, name, c);
    assert FetchAuth(t.auth, t.creators[c].id).None?;
  }
}
