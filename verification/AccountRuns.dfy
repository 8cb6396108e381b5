/** What each call does to the accounts, and what every run makes of them, with failing writes and restarts
    (internal/auth/session.go). */
module AccountRuns {
  import opened Basics
  import opened Histories
  import opened Sessions
  import opened SessionRuns

  // ---------------------------------------------------------------- when a call takes effect

  predicate IsActiveOwner(users: map<Id, User>, id: Id) {
    id in users && users[id].active && users[id].role == Owner
  }

  ghost predicate TwoOwners(users: map<Id, User>) {
    exists x, y :: x != y && IsActiveOwner(users, x) && IsActiveOwner(users, y)
  }

  lemma TwoOwnersExactly(users: map<Id, User>)
    ensures |Owners(users)| > 1 <==> TwoOwners(users)
  {
    if |Owners(users)| > 1 {
      var x :| x in Owners(users);
      var rest := Owners(users) - {x};
      assert Owners(users) == rest + {x};
      var y :| y in rest;
      assert IsActiveOwner(users, x) && IsActiveOwner(users, y);
    }
    if x, y :| x != y && IsActiveOwner(users, x) && IsActiveOwner(users, y) {
      assert {x, y} <= Owners(users);
      SubsetIsNotLarger({x, y}, Owners(users));
    }
  }

  lemma {:induction false} SubsetIsNotLarger(s: set<Id>, t: set<Id>)
    requires s <= t
    ensures |s| <= |t|
    decreases |s|
  {
    if s != {} {
      var x :| x in s;
      SubsetIsNotLarger(s - {x}, t - {x});
    }
  }

  /** When a call has its effect: in memory, and for the three that add something only if it could be saved too. */
  ghost predicate TakesEffect(a: Auth, op: Op, saved: bool) {
    match op
    case Bootstrap(blank, valid, _, _, _) => !blank && valid && a.users == map[]
    case CreateUser(valid, _, key, _, _) => valid && saved && forall id :: id in a.users ==> a.users[id].key != key
    case CreateSession(id, _, _) => id in a.users && a.users[id].active && saved
    case Validate(token) => token in a.sessions
    case Revoke(_) => true
    case RevokeAll => true
    case RevokeUser(id) => id in a.users
    case ChangePassword(valid, id, previous, _) => valid && id in a.users && a.users[id].password == previous
    case ResetPassword(valid, id, _) => valid && id in a.users
    case SetRole(valid, id, role) => valid && id in a.users && (a.users[id].role == Owner && role != Owner ==> TwoOwners(a.users))
    case Disable(id) => id in a.users && (a.users[id].active && a.users[id].role == Owner ==> TwoOwners(a.users))
    case Enable(id) => id in a.users
    case DeleteUser(id) => id in a.users && (a.users[id].active && a.users[id].role == Owner ==> TwoOwners(a.users))
  }

  /** A call that has no effect on memory says why; one that has says whether it could be saved. */
  lemma EffectExactly(a: Auth, op: Op, now: Time, saved: bool)
    requires Inv(a)
    ensures var x := Do(a, op, now, saved);
            && (!op.Validate? && !op.CreateUser? && !op.CreateSession? ==> (TakesEffect(a, op, saved) <==> x.result == Fine || x.result == SaveFailed))
            && (op.CreateUser? || op.CreateSession? ==> (TakesEffect(a, op, saved) <==> x.result == Fine))
            && (x.result == SaveFailed ==> !saved)
            && (x.saves && x.result == Fine ==> saved)
  {
    TwoOwnersExactly(a.users);
    if op.CreateUser? {
      if id :| id in a.users && a.users[id].key == op.key {
        assert UserOk(a, id);
      }
      assert KeyOk(a, op.key);
    }
  }

  // ---------------------------------------------------------------- one account

  /** What can be said about an account. */
  datatype Aspect = InRole(role: Role) | WithPassword(password: Password) | Named(key: Key) | Enabled

  predicate Shows(users: map<Id, User>, id: Id, x: Aspect) {
    id in users &&
    match x
    case InRole(role) => users[id].role == role
    case WithPassword(password) => users[id].password == password
    case Named(key) => users[id].key == key
    case Enabled => users[id].active
  }

  /** Whether an entry makes this so. A first owner stays in memory when its save fails, another new user does not. */
  predicate Makes(e: Deed, id: Id, x: Aspect) {
    e.Called? &&
    match e.op
    case Bootstrap(_, _, i, key, password) =>
      i == id && Applied(e.result) && (x == InRole(Owner) || x == WithPassword(password) || x == Named(key) || x == Enabled)
    case CreateUser(_, i, key, password, role) =>
      i == id && e.result == Fine && (x == InRole(role) || x == WithPassword(password) || x == Named(key) || x == Enabled)
    case ChangePassword(_, i, _, password) => i == id && Applied(e.result) && x == WithPassword(password)
    case ResetPassword(_, i, password) => i == id && Applied(e.result) && x == WithPassword(password)
    case SetRole(_, i, role) => i == id && Applied(e.result) && x == InRole(role)
    case Enable(i) => i == id && Applied(e.result) && x == Enabled
    case _ => false
  }

  /** Whether an entry ends it. */
  predicate Unmakes(e: Deed, id: Id, x: Aspect) {
    e.Called? && Applied(e.result) &&
    match e.op
    case ChangePassword(_, i, _, password) => i == id && x.WithPassword? && x.password != password
    case ResetPassword(_, i, password) => i == id && x.WithPassword? && x.password != password
    case SetRole(_, i, role) => i == id && x.InRole? && x.role != role
    case Disable(i) => i == id && x == Enabled
    case DeleteUser(i) => i == id
    case _ => false
  }

  /** An entry that was not undone made it so, and every later one that ended it was undone. */
  ghost predicate MadeSince(past: seq<Entry<Deed>>, id: Id, x: Aspect, i: nat) {
    && i < |past| && Makes(past[i].what, id, x) && !Undone(past, i)
    && forall j :: i < j < |past| && Unmakes(past[j].what, id, x) ==> Undone(past, j)
  }

  function AccountMark(e: Entry<Deed>, id: Id, x: Aspect): Entry<Mark> {
    Entry(Mark(Makes(e.what, id, x), Unmakes(e.what, id, x)), e.stored, e.restart)
  }

  function AccountMarks(past: seq<Entry<Deed>>, id: Id, x: Aspect): seq<Entry<Mark>> {
    seq(|past|, i requires 0 <= i < |past| => AccountMark(past[i], id, x))
  }

  lemma AccountMarksAppend(past: seq<Entry<Deed>>, e: Entry<Deed>, id: Id, x: Aspect)
    ensures AccountMarks(past + [e], id, x) == AccountMarks(past, id, x) + [AccountMark(e, id, x)]
  {
  }

  lemma MadeSinceIsLiveAt(past: seq<Entry<Deed>>, id: Id, x: Aspect, i: nat)
    ensures MadeSince(past, id, x, i) <==> LiveAt(AccountMarks(past, id, x), i)
  {
    var marks := AccountMarks(past, id, x);
    forall j: nat
      ensures Undone(past, j) <==> Undone(marks, j)
    {
      UndoneAlike(past, marks, j);
    }
    assert forall j :: 0 <= j < |past| ==> marks[j] == AccountMark(past[j], id, x);
  }

  /** One call shows what its entry makes, and no longer what it ends. */
  predicate ShowsAfter(a: Auth, op: Op, now: Time, saved: bool, id: Id, x: Aspect) {
    var e := EntryOf(a, op, now, saved).what;
    Shows(Do(a, op, now, saved).after.users, id, x) <==> Makes(e, id, x) || (Shows(a.users, id, x) && !Unmakes(e, id, x))
  }

  predicate AddsOrRemoves(op: Op) {
    op.Bootstrap? || op.CreateUser? || op.DeleteUser?
  }

  predicate ChangesOne(op: Op) {
    op.ChangePassword? || op.ResetPassword? || op.SetRole? || op.Disable? || op.Enable?
  }

  lemma AddingChangesAccount(a: Auth, op: Op, now: Time, saved: bool, id: Id, x: Aspect)
    requires FreshId(a, op) && AddsOrRemoves(op)
    ensures ShowsAfter(a, op, now, saved, id, x)
  {
  }

  lemma ChangeChangesAccount(a: Auth, op: Op, now: Time, saved: bool, id: Id, x: Aspect)
    requires ChangesOne(op)
    ensures ShowsAfter(a, op, now, saved, id, x)
  {
  }

  lemma SessionsChangeNoAccount(a: Auth, op: Op, now: Time, saved: bool, id: Id, x: Aspect)
    requires !AddsOrRemoves(op) && !ChangesOne(op)
    ensures ShowsAfter(a, op, now, saved, id, x)
  {
  }

  lemma CallChangesAccount(a: Auth, op: Op, now: Time, saved: bool, id: Id, x: Aspect)
    requires FreshId(a, op)
    ensures ShowsAfter(a, op, now, saved, id, x)
  {
    if AddsOrRemoves(op) {
      AddingChangesAccount(a, op, now, saved, id, x);
    } else if ChangesOne(op) {
      ChangeChangesAccount(a, op, now, saved, id, x);
    } else {
      SessionsChangeNoAccount(a, op, now, saved, id, x);
    }
  }

  ghost predicate Accounted(w: World, id: Id, x: Aspect) {
    && (Shows(w.mem.users, id, x) <==> Live(AccountMarks(w.past, id, x)))
    && (Shows(w.disk.users, id, x) <==> OnDisk(AccountMarks(w.past, id, x)))
  }

  lemma CallKeepsAccounted(w: World, op: Op, now: Time, saved: bool, id: Id, x: Aspect)
    requires FreshId(w.mem, op) && Accounted(w, id, x)
    ensures Accounted(Step(w, Call(op, now, saved)), id, x)
  {
    var e := EntryOf(w.mem, op, now, saved);
    var h, m := AccountMarks(w.past, id, x), AccountMark(e, id, x);
    AccountMarksAppend(w.past, e, id, x);
    CallChangesAccount(w.mem, op, now, saved, id, x);
    LiveAfterCall(h, m);
    if m.stored {
      DiskAfterStored(h, m);
    } else {
      DiskAfterUnstored(h, m);
    }
  }

  lemma RestartKeepsAccounted(w: World, now: Time, id: Id, x: Aspect)
    requires Accounted(w, id, x)
    ensures Accounted(Step(w, Restart(now)), id, x)
  {
    var h, m := AccountMarks(w.past, id, x), AccountMark(RestartEntry(now), id, x);
    AccountMarksAppend(w.past, RestartEntry(now), id, x);
    LiveAfterRestart(h, m);
    DiskAfterUnstored(h, m);
  }

  lemma {:induction false} RunAccounts(events: seq<Event>, id: Id, x: Aspect)
    requires FreshRun(events)
    ensures Accounted(Run(events), id, x)
    decreases |events|
  {
    if events == [] {
      assert AccountMarks([], id, x) == [];
      assert !LiveAt([RESTART], 0);
    } else {
      var init, last := events[..|events| - 1], events[|events| - 1];
      RunAccounts(init, id, x);
      if last.Call? {
        CallKeepsAccounted(Run(init), last.op, last.now, last.saved, id, x);
      } else {
        RestartKeepsAccounted(Run(init), last.now, id, x);
      }
    }
  }

  /** In every run, with failing writes and restarts, a user has a role, a password, a name or access exactly if an entry
      that was not undone gave it and all that took it away since were undone: the last of them that counts decides. */
  lemma AccountIsItsHistory(events: seq<Event>, id: Id, x: Aspect)
    requires FreshRun(events)
    ensures Shows(Run(events).mem.users, id, x) <==> exists i: nat :: MadeSince(Run(events).past, id, x, i)
  {
    RunAccounts(events, id, x);
    var past := Run(events).past;
    forall i: nat
      ensures MadeSince(past, id, x, i) <==> LiveAt(AccountMarks(past, id, x), i)
    {
      MadeSinceIsLiveAt(past, id, x, i);
    }
    if Live(AccountMarks(past, id, x)) {
      var i: nat :| LiveAt(AccountMarks(past, id, x), i);
      assert MadeSince(past, id, x, i);
    }
  }

  /** So a name and a password let somebody in exactly if one enabled user has both. */
  lemma SignInExactly(events: seq<Event>, key: Key, password: Password)
    requires FreshRun(events)
    ensures var users := Run(events).mem.users;
            Authenticates(Run(events).mem, key, password)
            <==> exists id :: Shows(users, id, Named(key)) && Shows(users, id, WithPassword(password)) && Shows(users, id, Enabled)
  {
    RunKeepsWorld(events);
    var a := Run(events).mem;
    if Authenticates(a, key, password) {
      assert KeyOk(a, key);
      assert Shows(a.users, a.keys[key], Named(key));
    }
    if id :| Shows(a.users, id, Named(key)) && Shows(a.users, id, WithPassword(password)) && Shows(a.users, id, Enabled) {
      assert UserOk(a, id);
    }
  }

  /** A user that was made gets in with exactly the given name and password, has the given role, and changes nothing for
      anybody else. */
  lemma NewUserGetsIn(a: Auth, op: Op, now: Time, saved: bool, key: Key, password: Password, other: Id)
    requires Inv(a) && op.CreateUser? && op.id !in a.users && Do(a, op, now, saved).result == Fine
    ensures var b := Do(a, op, now, saved).after;
            && op.id in b.users && b.users[op.id].role == op.role && b.users[op.id].active
            && (Authenticates(b, key, password) <==> if key == op.key then password == op.password else Authenticates(a, key, password))
            && (other != op.id ==> (other in b.users <==> other in a.users) && (other in a.users ==> b.users[other] == a.users[other]))
            && b.sessions == a.sessions
  {
    assert KeyOk(a, key);
  }

  /** A new role is the one asked for; the user must sign in again, and nobody else is touched. */
  lemma NewRoleStands(a: Auth, op: Op, now: Time, saved: bool, other: Id, t: Token)
    requires op.SetRole? && TakesEffect(a, op, saved) && Inv(a)
    ensures var b := Do(a, op, now, saved).after;
            && op.id in b.users && b.users[op.id].role == op.role && b.users[op.id].password == a.users[op.id].password
            && b.users[op.id].active == a.users[op.id].active && b.users[op.id].key == a.users[op.id].key
            && (other != op.id ==> (other in b.users <==> other in a.users) && (other in a.users ==> b.users[other] == a.users[other]))
            && (t in b.sessions <==> t in a.sessions && a.sessions[t].user != op.id)
  {
    EffectExactly(a, op, now, saved);
  }

  /** A new session is the user's, in the user's role, and lasts a week or a day from now; the sign-in is noted, and
      expired sessions are gone. */
  lemma NewSessionIsStamped(a: Auth, op: Op, now: Time, t: Token)
    requires op.CreateSession? && TakesEffect(a, op, true)
    ensures var b := Do(a, op, now, true).after; var u := a.users[op.id];
            && op.token in b.sessions
            && b.sessions[op.token] ==
               Session(op.id, u.role, u.version, now, now, now + (if op.remember then 7 else 1) * 24 * 3600 * 1_000_000_000)
            && (t != op.token ==> (t in b.sessions <==> t in a.sessions && now <= a.sessions[t].expires))
            && (t != op.token && t in b.sessions ==> b.sessions[t] == a.sessions[t])
            && op.id in b.users && b.users[op.id].lastLogin == Some(now)
            && (forall id :: id != op.id ==> (id in b.users <==> id in a.users) && (id in a.users ==> b.users[id] == a.users[id]))
  {
  }

  /** A session that is accepted is seen now, in the user's current role, and lasts no longer than before. */
  lemma AcceptedIsRefreshed(a: Auth, token: Token, now: Time)
    requires Inv(a) && token in a.sessions && now <= a.sessions[token].expires
    ensures var b := Validated(a, token, now).after; var before := a.sessions[token];
            && b.users == a.users && before.user in a.users && a.users[before.user].active
            && b.sessions == a.sessions[token := Session(before.user, a.users[before.user].role, before.version, before.createdAt, now, before.expires)]
  {
    assert SessionOk(a, token);
  }

  /** Every change of a user is numbered and stamped; those after which the user must sign in again raise the version. */
  lemma ChangedUserIsStamped(a: Auth, op: Op, now: Time, saved: bool, id: Id)
    requires id in a.users && TakesEffect(a, op, saved)
    requires (op.SetRole? || op.ChangePassword? || op.ResetPassword? || op.RevokeUser? || op.Enable? || op.Disable?) && op.id == id
    requires (op.Enable? ==> !a.users[id].active) && (op.Disable? ==> a.users[id].active)
    ensures var b := Do(a, op, now, saved).after; var u := a.users[id];
            && id in b.users && b.users[id].updatedAt == now && b.users[id].lastLogin == u.lastLogin
            && b.users[id].revision == u.revision + (if op.RevokeUser? then 0 else 1)
            && b.users[id].version == u.version + (if op.Enable? then 0 else 1)
  {
    TwoOwnersExactly(a.users);
  }
}
