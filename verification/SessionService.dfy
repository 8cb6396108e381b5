/** The session manager that changes its maps in place (internal/auth/session.go). */
module SessionService {
  import opened Basics
  import opened Sessions

  /** The file after a call. */
  function Written(d: Stored, x: Effect, works: bool): Stored {
    if x.saves && works then Stored(x.after.users, x.after.sessions) else d
  }

  lemma NoOwnersLeft(users: map<Id, User>, seen: set<Id>, id: Id)
    requires id in users && id !in seen
    ensures Owners(Restrict(users, seen + {id})) == Owners(Restrict(users, seen)) + (if ActiveOwner(users[id]) then {id} else {})
  {
  }

  function Restrict(users: map<Id, User>, seen: set<Id>): map<Id, User> {
    map id | id in users && id in seen :: users[id]
  }

  class SessionManager {
    var users: map<Id, User>
    var userKeys: map<Key, Id>
    var sessions: map<Token, Session>
    var file: Stored

    function View(): Auth
      reads this
    {
      Auth(users, userKeys, sessions)
    }

    constructor ()
      ensures View() == Auth(map[], map[], map[]) && file == Stored(map[], map[])
    {
      users, userKeys, sessions, file := map[], map[], map[], Stored(map[], map[]);
    }

    method Save(works: bool) returns (r: Result)
      modifies `file
      ensures r == Outcome(works) && file == if works then Stored(users, sessions) else old(file)
    {
      if works {
        file := Stored(users, sessions);
        return Fine;
      }
      return SaveFailed;
    }

    method RemoveSessionsOf(id: Id)
      modifies `sessions
      ensures sessions == Others(old(sessions), id)
    {
      var all, rest := sessions, sessions.Keys;
      while rest != {}
        invariant rest <= all.Keys
        invariant forall t :: t in sessions <==> t in all && (t in rest || all[t].user != id)
        invariant forall t :: t in sessions ==> sessions[t] == all[t]
        decreases |rest|
      {
        var t :| t in rest;
        rest := rest - {t};
        if all[t].user == id {
          sessions := Without(sessions, t);
        }
      }
    }

    method CleanExpired(now: Time)
      modifies `sessions
      ensures sessions == Unexpired(old(sessions), now)
    {
      var all, rest := sessions, sessions.Keys;
      while rest != {}
        invariant rest <= all.Keys
        invariant forall t :: t in sessions <==> t in all && (t in rest || now <= all[t].expires)
        invariant forall t :: t in sessions ==> sessions[t] == all[t]
        decreases |rest|
      {
        var t :| t in rest;
        rest := rest - {t};
        if now > all[t].expires {
          sessions := Without(sessions, t);
        }
      }
    }

    method CountActiveOwners() returns (count: nat)
      ensures count == |Owners(users)|
    {
      count := 0;
      var rest, seen := users.Keys, {};
      while rest != {}
        invariant rest + seen == users.Keys && rest * seen == {}
        invariant count == |Owners(Restrict(users, seen))|
        decreases |rest|
      {
        var id :| id in rest;
        NoOwnersLeft(users, seen, id);
        assert id !in Owners(Restrict(users, seen));
        rest, seen := rest - {id}, seen + {id};
        if users[id].active && users[id].role == Owner {
          count := count + 1;
        }
      }
      assert Restrict(users, seen) == users;
    }

    method InitAdminBootstrap(blank: bool, valid: bool, id: Id, key: Key, password: Password, now: Time, works: bool) returns (r: Result)
      modifies this
      ensures var x := Do(old(View()), Bootstrap(blank, valid, id, key, password), now, works);
              View() == x.after && r == x.result && file == Written(old(file), x, works)
    {
      if blank {
        return Invalid;
      }
      if users != map[] {
        return Nothing;
      }
      if !valid {
        return Invalid;
      }
      users := users[id := NewUser(key, password, Owner, now)];
      userKeys := userKeys[key := id];
      r := Save(works);
    }

    method CreateUser(valid: bool, id: Id, key: Key, password: Password, role: Role, now: Time, works: bool) returns (r: Result)
      requires FreshId(View(), Op.CreateUser(valid, id, key, password, role))
      modifies this
      ensures var x := Do(old(View()), Op.CreateUser(valid, id, key, password, role), now, works);
              View() == x.after && r == x.result && file == Written(old(file), x, works)
    {
      if !valid {
        return Invalid;
      }
      if key in userKeys {
        return NameTaken;
      }
      users := users[id := NewUser(key, password, role, now)];
      userKeys := userKeys[key := id];
      r := Save(works);
      if r == SaveFailed {
        users := Without(users, id);
        userKeys := Without(userKeys, key);
        assert users == old(users) && userKeys == old(userKeys);
      }
    }

    method AuthenticateUser(key: Key, password: Password) returns (user: Option<User>)
      ensures user.Some? <==> Authenticates(View(), key, password)
      ensures user.Some? ==> user.value == users[userKeys[key]]
    {
      if key !in userKeys {
        return None;
      }
      var id := userKeys[key];
      if id !in users || !users[id].active || users[id].password != password {
        return None;
      }
      return Some(users[id]);
    }

    method CreateUserSession(id: Id, token: Token, remember: bool, now: Time, works: bool) returns (r: Result)
      requires token !in sessions
      modifies this
      ensures var x := Do(old(View()), CreateSession(id, token, remember), now, works);
              View() == x.after && r == x.result && file == Written(old(file), x, works)
    {
      if id !in users || !users[id].active {
        return Unauthorized;
      }
      var u := users[id];
      CleanExpired(now);
      ghost var clean := sessions;
      sessions := sessions[token := NewSession(u, id, remember, now)];
      users := users[id := u.(lastLogin := Some(now))];
      r := Save(works);
      if r == SaveFailed {
        sessions := Without(sessions, token);
        users := users[id := u];
        assert sessions == clean && users == old(users);
      }
    }

    method ValidateSession(token: Token, now: Time, works: bool) returns (r: Result)
      modifies this
      ensures var x := Do(old(View()), Validate(token), now, works);
              View() == x.after && r == x.result && file == Written(old(file), x, works)
    {
      if token !in sessions {
        return Unauthorized;
      }
      var s := sessions[token];
      if now > s.expires {
        sessions := Without(sessions, token);
        var _ := Save(works);
        return Expired;
      }
      if s.user !in users || !users[s.user].active || s.version != users[s.user].version {
        sessions := Without(sessions, token);
        var _ := Save(works);
        return Expired;
      }
      sessions := sessions[token := s.(seenAt := now, role := users[s.user].role)];
      return Fine;
    }

    method RevokeSession(token: Token, now: Time, works: bool) returns (r: Result)
      modifies this
      ensures var x := Do(old(View()), Revoke(token), now, works);
              View() == x.after && r == x.result && file == Written(old(file), x, works)
    {
      sessions := Without(sessions, token);
      r := Save(works);
    }

    method RevokeAllSessions(now: Time, works: bool) returns (r: Result)
      modifies this
      ensures var x := Do(old(View()), RevokeAll, now, works);
              View() == x.after && r == x.result && file == Written(old(file), x, works)
    {
      sessions := map[];
      r := Save(works);
    }

    method RevokeUserSessions(id: Id, now: Time, works: bool) returns (r: Result)
      modifies this
      ensures var x := Do(old(View()), RevokeUser(id), now, works);
              View() == x.after && r == x.result && file == Written(old(file), x, works)
    {
      if id !in users {
        return NotFound;
      }
      users := users[id := users[id].(version := users[id].version + 1, updatedAt := now)];
      RemoveSessionsOf(id);
      r := Save(works);
    }

    method UpdateUserPassword(valid: bool, id: Id, previous: Password, password: Password, now: Time, works: bool) returns (r: Result)
      modifies this
      ensures var x := Do(old(View()), ChangePassword(valid, id, previous, password), now, works);
              View() == x.after && r == x.result && file == Written(old(file), x, works)
    {
      if !valid {
        return Invalid;
      }
      if id !in users {
        return NotFound;
      }
      if users[id].password != previous {
        return WrongPassword;
      }
      users := users[id := Changed(users[id].(password := password), now)];
      RemoveSessionsOf(id);
      r := Save(works);
    }

    method ResetUserPassword(valid: bool, id: Id, password: Password, now: Time, works: bool) returns (r: Result)
      modifies this
      ensures var x := Do(old(View()), ResetPassword(valid, id, password), now, works);
              View() == x.after && r == x.result && file == Written(old(file), x, works)
    {
      if !valid {
        return Invalid;
      }
      if id !in users {
        return NotFound;
      }
      users := users[id := Changed(users[id].(password := password), now)];
      RemoveSessionsOf(id);
      r := Save(works);
    }

    method UpdateUserRole(valid: bool, id: Id, role: Role, now: Time, works: bool) returns (r: Result)
      modifies this
      ensures var x := Do(old(View()), SetRole(valid, id, role), now, works);
              View() == x.after && r == x.result && file == Written(old(file), x, works)
    {
      if !valid {
        return Invalid;
      }
      if id !in users {
        return NotFound;
      }
      if users[id].role == Owner && role != Owner {
        var count := CountActiveOwners();
        if count <= 1 {
          return LastOwner;
        }
      }
      users := users[id := Changed(users[id].(role := role), now)];
      RemoveSessionsOf(id);
      r := Save(works);
    }

    method DisableUser(id: Id, now: Time, works: bool) returns (r: Result)
      modifies this
      ensures var x := Do(old(View()), Disable(id), now, works);
              View() == x.after && r == x.result && file == Written(old(file), x, works)
    {
      if id !in users {
        return NotFound;
      }
      if !users[id].active {
        return Fine;
      }
      if users[id].role == Owner {
        var count := CountActiveOwners();
        if count <= 1 {
          return LastOwner;
        }
      }
      users := users[id := Changed(users[id].(active := false), now)];
      RemoveSessionsOf(id);
      r := Save(works);
    }

    method EnableUser(id: Id, now: Time, works: bool) returns (r: Result)
      modifies this
      ensures var x := Do(old(View()), Enable(id), now, works);
              View() == x.after && r == x.result && file == Written(old(file), x, works)
    {
      if id !in users {
        return NotFound;
      }
      if users[id].active {
        return Fine;
      }
      users := users[id := users[id].(active := true, updatedAt := now, revision := users[id].revision + 1)];
      r := Save(works);
    }

    method DeleteUser(id: Id, now: Time, works: bool) returns (r: Result)
      modifies this
      ensures var x := Do(old(View()), Op.DeleteUser(id), now, works);
              View() == x.after && r == x.result && file == Written(old(file), x, works)
    {
      if id !in users {
        return NotFound;
      }
      var u := users[id];
      if u.role == Owner && u.active {
        var count := CountActiveOwners();
        if count <= 1 {
          return LastOwner;
        }
      }
      users := Without(users, id);
      userKeys := Without(userKeys, u.key);
      RemoveSessionsOf(id);
      r := Save(works);
    }
  }
}
