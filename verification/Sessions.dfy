/** Users, sessions and what revokes them (internal/auth/session.go): one call as a function of the state. */
module Sessions {
  import opened Basics

  type Id = nat

  /** A normalized username. */
  type Key = nat

  /** The hash of a session token. */
  type Token = nat

  type Password = nat

  datatype Role = Owner | Admin | Member

  datatype User = User(key: Key, password: Password, role: Role, active: bool, version: nat, revision: nat,
                       updatedAt: Time, lastLogin: Option<Time>)

  datatype Session = Session(user: Id, role: Role, version: nat, createdAt: Time, seenAt: Time, expires: Time)

  /** The maps of the manager. */
  datatype Auth = Auth(users: map<Id, User>, keys: map<Key, Id>, sessions: map<Token, Session>)

  /** What the store's file holds. */
  datatype Stored = Stored(users: map<Id, User>, sessions: map<Token, Session>)

  const HOUR: Time := 3600000000000

  function Duration(remember: bool): Time {
    if remember then 168 * HOUR else 24 * HOUR
  }

  /** The operations; `valid` tells whether the names, passwords and roles given are well formed, `blank`
      whether the name or the password is blank. */
  datatype Op =
    | Bootstrap(blank: bool, valid: bool, id: Id, key: Key, password: Password)
    | CreateUser(valid: bool, id: Id, key: Key, password: Password, role: Role)
    | CreateSession(id: Id, token: Token, remember: bool)
    | Validate(token: Token)
    | Revoke(token: Token)
    | RevokeAll
    | RevokeUser(id: Id)
    | ChangePassword(valid: bool, id: Id, previous: Password, password: Password)
    | ResetPassword(valid: bool, id: Id, password: Password)
    | SetRole(valid: bool, id: Id, role: Role)
    | Disable(id: Id)
    | Enable(id: Id)
    | DeleteUser(id: Id)

  datatype Result = Fine | Nothing | Invalid | Unauthorized | Expired | NotFound | NameTaken | WrongPassword | LastOwner | SaveFailed

  /** The state after a call, whether it tried to save that state, and what it returned. */
  datatype Effect = Effect(after: Auth, saves: bool, result: Result)

  // ---------------------------------------------------------------- parts of the state

  function Others(sessions: map<Token, Session>, id: Id): map<Token, Session> {
    map t | t in sessions && sessions[t].user != id :: sessions[t]
  }

  function Unexpired(sessions: map<Token, Session>, now: Time): map<Token, Session> {
    map t | t in sessions && now <= sessions[t].expires :: sessions[t]
  }

  predicate ActiveOwner(u: User) {
    u.active && u.role == Owner
  }

  function Owners(users: map<Id, User>): set<Id> {
    set id | id in users && ActiveOwner(users[id])
  }

  // ---------------------------------------------------------------- the calls

  function Outcome(saved: bool): Result {
    if saved then Fine else SaveFailed
  }

  /** Replaces the user and removes its sessions; a failed save leaves the change in memory. */
  function Replace(a: Auth, id: Id, u: User, saved: bool): Effect {
    Effect(a.(users := a.users[id := u], sessions := Others(a.sessions, id)), true, Outcome(saved))
  }

  function NewUser(key: Key, password: Password, role: Role, now: Time): User {
    User(key, password, role, true, 1, 1, now, None)
  }

  function WithUser(a: Auth, id: Id, u: User): Auth {
    a.(users := a.users[id := u], keys := a.keys[u.key := id])
  }

  function NewSession(u: User, id: Id, remember: bool, now: Time): Session {
    Session(id, u.role, u.version, now, now, now + Duration(remember))
  }

  function Validated(a: Auth, token: Token, now: Time): Effect {
    if token !in a.sessions then Effect(a, false, Unauthorized)
    else
      var s := a.sessions[token];
      if now > s.expires || s.user !in a.users || !a.users[s.user].active || s.version != a.users[s.user].version then
        Effect(a.(sessions := Without(a.sessions, token)), true, Expired)
      else Effect(a.(sessions := a.sessions[token := s.(seenAt := now, role := a.users[s.user].role)]), false, Fine)
  }

  function Do(a: Auth, op: Op, now: Time, saved: bool): Effect {
    match op
    case Bootstrap(blank, valid, id, key, password) =>
      if blank then Effect(a, false, Invalid)
      else if a.users != map[] then Effect(a, false, Nothing)
      else if !valid then Effect(a, false, Invalid)
      else Effect(WithUser(a, id, NewUser(key, password, Owner, now)), true, Outcome(saved))
    case CreateUser(valid, id, key, password, role) =>
      if !valid then Effect(a, false, Invalid)
      else if key in a.keys then Effect(a, false, NameTaken)
      else if saved then Effect(WithUser(a, id, NewUser(key, password, role, now)), true, Fine)
      else Effect(a, true, SaveFailed)
    case CreateSession(id, token, remember) =>
      if id !in a.users || !a.users[id].active then Effect(a, false, Unauthorized)
      else
        var u, sessions := a.users[id], Unexpired(a.sessions, now);
        if saved then
          Effect(a.(users := a.users[id := u.(lastLogin := Some(now))], sessions := sessions[token := NewSession(u, id, remember, now)]), true, Fine)
        else Effect(a.(sessions := sessions), true, SaveFailed)
    case Validate(token) => Validated(a, token, now)
    case Revoke(token) => Effect(a.(sessions := Without(a.sessions, token)), true, Outcome(saved))
    case RevokeAll => Effect(a.(sessions := map[]), true, Outcome(saved))
    case RevokeUser(id) =>
      if id !in a.users then Effect(a, false, NotFound)
      else Replace(a, id, a.users[id].(version := a.users[id].version + 1, updatedAt := now), saved)
    case ChangePassword(valid, id, previous, password) =>
      if !valid then Effect(a, false, Invalid)
      else if id !in a.users then Effect(a, false, NotFound)
      else if a.users[id].password != previous then Effect(a, false, WrongPassword)
      else Replace(a, id, Changed(a.users[id].(password := password), now), saved)
    case ResetPassword(valid, id, password) =>
      if !valid then Effect(a, false, Invalid)
      else if id !in a.users then Effect(a, false, NotFound)
      else Replace(a, id, Changed(a.users[id].(password := password), now), saved)
    case SetRole(valid, id, role) =>
      if !valid then Effect(a, false, Invalid)
      else if id !in a.users then Effect(a, false, NotFound)
      else if a.users[id].role == Owner && role != Owner && |Owners(a.users)| <= 1 then Effect(a, false, LastOwner)
      else Replace(a, id, Changed(a.users[id].(role := role), now), saved)
    case Disable(id) =>
      if id !in a.users then Effect(a, false, NotFound)
      else if !a.users[id].active then Effect(a, false, Fine)
      else if a.users[id].role == Owner && |Owners(a.users)| <= 1 then Effect(a, false, LastOwner)
      else Replace(a, id, Changed(a.users[id].(active := false), now), saved)
    case Enable(id) =>
      if id !in a.users then Effect(a, false, NotFound)
      else if a.users[id].active then Effect(a, false, Fine)
      else
        var u := a.users[id];
        Effect(a.(users := a.users[id := u.(active := true, updatedAt := now, revision := u.revision + 1)]), true, Outcome(saved))
    case DeleteUser(id) =>
      if id !in a.users then Effect(a, false, NotFound)
      else if ActiveOwner(a.users[id]) && |Owners(a.users)| <= 1 then Effect(a, false, LastOwner)
      else
        Effect(Auth(Without(a.users, id), Without(a.keys, a.users[id].key), Others(a.sessions, id)), true, Outcome(saved))
  }

  /** A change after which the user's sessions are issued anew. */
  function Changed(u: User, now: Time): User {
    u.(version := u.version + 1, updatedAt := now, revision := u.revision + 1)
  }

  // ---------------------------------------------------------------- what the maps keep

  /** The session's user exists, is active and is still at the version the session was issued for. */
  predicate SessionOk(a: Auth, t: Token) {
    t in a.sessions ==>
      var s := a.sessions[t];
      s.user in a.users && a.users[s.user].active && a.users[s.user].version == s.version
  }

  predicate UserOk(a: Auth, id: Id) {
    id in a.users ==> a.users[id].key in a.keys && a.keys[a.users[id].key] == id
  }

  predicate KeyOk(a: Auth, k: Key) {
    k in a.keys ==> a.keys[k] in a.users && a.users[a.keys[k]].key == k
  }

  ghost predicate Inv(a: Auth) {
    && (forall t {:trigger SessionOk(a, t)} :: SessionOk(a, t))
    && (forall id {:trigger UserOk(a, id)} :: UserOk(a, id))
    && (forall k {:trigger KeyOk(a, k)} :: KeyOk(a, k))
  }

  /** Identifiers of new users are fresh. */
  predicate FreshId(a: Auth, op: Op) {
    op.Bootstrap? || op.CreateUser? ==> op.id !in a.users
  }

  lemma KeepsSessionOk(a: Auth, op: Op, now: Time, saved: bool, t: Token)
    requires Inv(a) && FreshId(a, op)
    ensures SessionOk(Do(a, op, now, saved).after, t)
  {
    assert SessionOk(a, t);
  }

  lemma KeepsUserOk(a: Auth, op: Op, now: Time, saved: bool, id: Id)
    requires Inv(a) && FreshId(a, op)
    ensures UserOk(Do(a, op, now, saved).after, id)
  {
    assert UserOk(a, id);
    if op.DeleteUser? {
      assert UserOk(a, op.id);
    } else if op.Bootstrap? && a.users == map[] {
      assert KeyOk(a, op.key);
    }
  }

  lemma KeepsKeyOk(a: Auth, op: Op, now: Time, saved: bool, k: Key)
    requires Inv(a) && FreshId(a, op)
    ensures KeyOk(Do(a, op, now, saved).after, k)
  {
    assert KeyOk(a, k);
    if op.DeleteUser? {
      assert UserOk(a, op.id);
    }
  }

  /** Every call keeps sessions with active users at their version, and the username index a bijection. */
  lemma CallKeepsInv(a: Auth, op: Op, now: Time, saved: bool)
    requires Inv(a) && FreshId(a, op)
    ensures Inv(Do(a, op, now, saved).after)
  {
    var b := Do(a, op, now, saved).after;
    forall t
      ensures SessionOk(b, t)
    {
      KeepsSessionOk(a, op, now, saved, t);
    }
    forall id
      ensures UserOk(b, id)
    {
      KeepsUserOk(a, op, now, saved, id);
    }
    forall k
      ensures KeyOk(b, k)
    {
      KeepsKeyOk(a, op, now, saved, k);
    }
  }

  /** So a session that is stored is accepted exactly until it expires, with its user's current role. */
  lemma StoredIsAcceptedExactly(a: Auth, token: Token, now: Time)
    requires Inv(a)
    ensures Validated(a, token, now).result == Fine <==> token in a.sessions && now <= a.sessions[token].expires
    ensures Validated(a, token, now).result == Fine ==>
              var s := Validated(a, token, now).after.sessions[token];
              s.user in a.users && s.role == a.users[s.user].role
  {
    assert SessionOk(a, token);
  }

  lemma SingleOwner(users: map<Id, User>, id: Id)
    requires id in users && ActiveOwner(users[id]) && |Owners(users)| > 1
    ensures exists other :: other in users && other != id && ActiveOwner(users[other])
  {
    var rest := Owners(users) - {id};
    assert Owners(users) == rest + {id};
    assert rest != {};
    var other :| other in rest;
  }

  /** No call takes away the last active owner. */
  lemma CallKeepsAnOwner(a: Auth, op: Op, now: Time, saved: bool)
    requires FreshId(a, op) && Owners(a.users) != {}
    ensures Owners(Do(a, op, now, saved).after.users) != {}
  {
    var b := Do(a, op, now, saved).after;
    var owner :| owner in Owners(a.users);
    if owner !in Owners(b.users) {
      SingleOwner(a.users, owner);
      var other :| other in a.users && other != owner && ActiveOwner(a.users[other]);
      assert other in Owners(b.users);
    }
  }

  // ---------------------------------------------------------------- versions and passwords

  lemma VersionsNeverGoBack(a: Auth, op: Op, now: Time, saved: bool, id: Id)
    requires FreshId(a, op) && id in a.users && id in Do(a, op, now, saved).after.users
    ensures a.users[id].version <= Do(a, op, now, saved).after.users[id].version
  {
  }

  /** Whether the name and the password are accepted. */
  predicate Authenticates(a: Auth, key: Key, password: Password) {
    key in a.keys && a.keys[key] in a.users && a.users[a.keys[key]].active && a.users[a.keys[key]].password == password
  }

  /** After a password change that had its effect, the active user gets in with exactly the new password and
      nobody else's access has changed. */
  lemma NewPasswordDecides(a: Auth, op: Op, now: Time, saved: bool, key: Key, password: Password)
    requires Inv(a) && (op.ChangePassword? || op.ResetPassword?) && Do(a, op, now, saved).saves
    ensures Authenticates(Do(a, op, now, saved).after, key, password) <==>
              if key == a.users[op.id].key then a.users[op.id].active && password == op.password
              else Authenticates(a, key, password)
  {
    assert UserOk(a, op.id) && KeyOk(a, key);
  }

  /** Enabling and disabling a user decide only whether that user gets in. */
  lemma ActivityDecides(a: Auth, op: Op, now: Time, saved: bool, key: Key, password: Password)
    requires Inv(a) && (op.Enable? || op.Disable?) && Do(a, op, now, saved).saves
    ensures Authenticates(Do(a, op, now, saved).after, key, password) <==>
              if key == a.users[op.id].key then op.Enable? && a.users[op.id].password == password
              else Authenticates(a, key, password)
  {
    assert UserOk(a, op.id) && KeyOk(a, key);
  }
}
