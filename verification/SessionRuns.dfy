/** Sessions over whole runs, with failing writes and restarts (internal/auth/session.go). */
module SessionRuns {
  import opened Basics
  import opened Histories
  import opened Sessions

  /** A call that was made, with what it returned, or a restart. */
  datatype Deed = Called(op: Op, time: Time, result: Result) | Restarted(time: Time)

  /** The manager, its file, and everything that ever happened. */
  datatype World = World(mem: Auth, disk: Stored, past: seq<Entry<Deed>>)

  datatype Event = Call(op: Op, now: Time, saved: bool) | Restart(now: Time)

  function Index(users: map<Id, User>): set<Key> {
    set id | id in users :: users[id].key
  }

  /** The index built from the users when the file is read. */
  ghost function KeysOf(users: map<Id, User>): map<Key, Id> {
    map k | k in Index(users) :: var id :| id in users && users[id].key == k; id
  }

  ghost function Loaded(d: Stored): Auth {
    Auth(d.users, KeysOf(d.users), d.sessions)
  }

  function EntryOf(a: Auth, op: Op, now: Time, saved: bool): Entry<Deed> {
    var x := Do(a, op, now, saved);
    Entry(Called(op, now, x.result), x.saves && saved, false)
  }

  function RestartEntry(now: Time): Entry<Deed> {
    Entry(Restarted(now), false, true)
  }

  ghost function Step(w: World, e: Event): World {
    match e
    case Call(op, now, saved) =>
      var x := Do(w.mem, op, now, saved);
      World(x.after, if x.saves && saved then Stored(x.after.users, x.after.sessions) else w.disk,
            w.past + [EntryOf(w.mem, op, now, saved)])
    case Restart(now) =>
      var a := Loaded(w.disk);
      World(a.(sessions := Unexpired(a.sessions, now)), w.disk, w.past + [RestartEntry(now)])
  }

  ghost function Run(events: seq<Event>): World
    decreases |events|
  {
    if events == [] then World(Auth(map[], map[], map[]), Stored(map[], map[]), [])
    else Step(Run(events[..|events| - 1]), events[|events| - 1])
  }

  // ---------------------------------------------------------------- what the history says about a token

  predicate Issues(e: Deed, t: Token) {
    e.Called? && e.op.CreateSession? && e.op.token == t && e.result == Fine
  }

  /** A week after the sign-in for a remembered one, otherwise a day. */
  function ExpiresAt(e: Deed): Time
    requires e.Called? && e.op.CreateSession?
  {
    e.time + (if e.op.remember then 7 else 1) * 24 * 3600 * 1_000_000_000
  }

  predicate Applied(r: Result) {
    r == Fine || r == SaveFailed
  }

  /** Whether a deed ends a session of the token that was issued for the user until the given time. */
  predicate Ends(e: Deed, t: Token, user: Id, expires: Time) {
    match e
    case Restarted(time) => time > expires
    case Called(op, time, result) =>
      match op
      case Revoke(token) => token == t
      case RevokeAll => true
      case RevokeUser(id) => id == user && Applied(result)
      case ChangePassword(_, id, _, _) => id == user && Applied(result)
      case ResetPassword(_, id, _) => id == user && Applied(result)
      case SetRole(_, id, _) => id == user && Applied(result)
      case Disable(id) => id == user && Applied(result)
      case DeleteUser(id) => id == user && Applied(result)
      case CreateSession(_, token, _) => (Applied(result) && time > expires) || (token == t && result == Fine)
      case Validate(token) => token == t && time > expires
      case Bootstrap(_, _, _, _, _) => false
      case CreateUser(_, _, _, _, _) => false
      case Enable(_) => false
  }

  /** The entry issued the token and was not undone, and whatever has ended its session since was undone by a
      restart that came before anything was written. */
  ghost predicate LiveSince(past: seq<Entry<Deed>>, t: Token, i: nat) {
    && i < |past| && Issues(past[i].what, t) && !Undone(past, i)
    && forall j :: i < j < |past| && Ends(past[j].what, t, past[i].what.op.id, ExpiresAt(past[i].what)) ==> Undone(past, j)
  }

  // ---------------------------------------------------------------- the same, as marks of a history

  function MarkOf(e: Entry<Deed>, t: Token, user: Id, expires: Time): Entry<Mark> {
    var gives := Issues(e.what, t) && e.what.op.id == user && ExpiresAt(e.what) == expires;
    Entry(Mark(gives, Ends(e.what, t, user, expires)), e.stored, e.restart)
  }

  function Marks(past: seq<Entry<Deed>>, t: Token, user: Id, expires: Time): seq<Entry<Mark>> {
    seq(|past|, i requires 0 <= i < |past| => MarkOf(past[i], t, user, expires))
  }

  lemma MarksAppend(past: seq<Entry<Deed>>, e: Entry<Deed>, t: Token, user: Id, expires: Time)
    ensures Marks(past + [e], t, user, expires) == Marks(past, t, user, expires) + [MarkOf(e, t, user, expires)]
  {
  }

  lemma LiveSinceIsLiveAt(past: seq<Entry<Deed>>, t: Token, i: nat)
    requires i < |past| && Issues(past[i].what, t)
    ensures LiveSince(past, t, i) <==> LiveAt(Marks(past, t, past[i].what.op.id, ExpiresAt(past[i].what)), i)
  {
    var user, expires := past[i].what.op.id, ExpiresAt(past[i].what);
    var marks := Marks(past, t, user, expires);
    forall j: nat
      ensures Undone(past, j) <==> Undone(marks, j)
    {
      UndoneAlike(past, marks, j);
    }
    assert forall j :: 0 <= j < |past| ==> (marks[j].what.takes <==> Ends(past[j].what, t, user, expires));
  }

  // ---------------------------------------------------------------- the stored sessions are the live ones

  predicate Holds(sessions: map<Token, Session>, t: Token, user: Id, expires: Time) {
    t in sessions && sessions[t].user == user && sessions[t].expires == expires
  }

  ghost predicate Linked(w: World, t: Token, user: Id, expires: Time) {
    && (Holds(w.mem.sessions, t, user, expires) <==> Live(Marks(w.past, t, user, expires)))
    && (Holds(w.disk.sessions, t, user, expires) <==> OnDisk(Marks(w.past, t, user, expires)))
  }

  ghost predicate WorldInv(w: World) {
    && Inv(w.mem) && Inv(Loaded(w.disk))
    && forall t, user, expires {:trigger Linked(w, t, user, expires)} :: Linked(w, t, user, expires)
  }

  /** Identifiers are fresh when they are made. */
  predicate Fresh(w: World, e: Event) {
    e.Call? ==> FreshId(w.mem, e.op)
  }

  ghost predicate FreshRun(events: seq<Event>)
    decreases |events|
  {
    events == [] || (FreshRun(events[..|events| - 1]) && Fresh(Run(events[..|events| - 1]), events[|events| - 1]))
  }

  /** One call adds the session that its entry issues and removes exactly those that it ends. */
  lemma CallChangesSessions(a: Auth, op: Op, now: Time, saved: bool, t: Token, user: Id, expires: Time)
    requires Inv(a)
    ensures var m := MarkOf(EntryOf(a, op, now, saved), t, user, expires);
            (Holds(Do(a, op, now, saved).after.sessions, t, user, expires)
             <==> m.what.gives || (Holds(a.sessions, t, user, expires) && !m.what.takes))
  {
    assert SessionOk(a, t);
  }

  lemma CallKeepsLink(w: World, op: Op, now: Time, saved: bool, t: Token, user: Id, expires: Time)
    requires Inv(w.mem) && Linked(w, t, user, expires)
    ensures Linked(Step(w, Call(op, now, saved)), t, user, expires)
  {
    var e := EntryOf(w.mem, op, now, saved);
    var h, m := Marks(w.past, t, user, expires), MarkOf(e, t, user, expires);
    MarksAppend(w.past, e, t, user, expires);
    CallChangesSessions(w.mem, op, now, saved, t, user, expires);
    LiveAfterCall(h, m);
    if m.stored {
      DiskAfterStored(h, m);
    } else {
      DiskAfterUnstored(h, m);
    }
  }

  lemma RestartKeepsLink(w: World, now: Time, t: Token, user: Id, expires: Time)
    requires Linked(w, t, user, expires)
    ensures Linked(Step(w, Restart(now)), t, user, expires)
  {
    var h, m := Marks(w.past, t, user, expires), MarkOf(RestartEntry(now), t, user, expires);
    MarksAppend(w.past, RestartEntry(now), t, user, expires);
    LiveAfterRestart(h, m);
    DiskAfterUnstored(h, m);
  }

  /** The index read back from the users is the one that was kept in memory. */
  lemma IndexIsRebuilt(a: Auth)
    requires Inv(a)
    ensures KeysOf(a.users) == a.keys
  {
    forall k
      ensures k in a.keys <==> k in Index(a.users)
    {
      assert KeyOk(a, k);
      if k in a.keys {
        assert a.users[a.keys[k]].key == k;
      }
      if k in Index(a.users) {
        var id :| id in a.users && a.users[id].key == k;
        assert UserOk(a, id);
      }
    }
    forall k | k in a.keys
      ensures KeysOf(a.users)[k] == a.keys[k]
    {
      var id := KeysOf(a.users)[k];
      assert id in a.users && a.users[id].key == k;
      assert UserOk(a, id);
    }
  }

  lemma DropExpiredKeepsInv(a: Auth, now: Time)
    requires Inv(a)
    ensures Inv(a.(sessions := Unexpired(a.sessions, now)))
  {
    var b := a.(sessions := Unexpired(a.sessions, now));
    forall t
      ensures SessionOk(b, t)
    {
      assert SessionOk(a, t);
    }
    forall id
      ensures UserOk(b, id)
    {
      assert UserOk(a, id);
    }
    forall k
      ensures KeyOk(b, k)
    {
      assert KeyOk(a, k);
    }
  }

  lemma StepKeepsMaps(w: World, e: Event)
    requires Inv(w.mem) && Inv(Loaded(w.disk)) && Fresh(w, e)
    ensures Inv(Step(w, e).mem) && Inv(Loaded(Step(w, e).disk))
  {
    match e {
      case Call(op, now, saved) =>
        CallKeepsInv(w.mem, op, now, saved);
        IndexIsRebuilt(Do(w.mem, op, now, saved).after);
      case Restart(now) =>
        DropExpiredKeepsInv(Loaded(w.disk), now);
    }
  }

  lemma StepKeepsWorld(w: World, e: Event)
    requires WorldInv(w) && Fresh(w, e)
    ensures WorldInv(Step(w, e))
  {
    StepKeepsMaps(w, e);
    forall t, user, expires
      ensures Linked(Step(w, e), t, user, expires)
    {
      assert Linked(w, t, user, expires);
      if e.Call? {
        CallKeepsLink(w, e.op, e.now, e.saved, t, user, expires);
      } else {
        RestartKeepsLink(w, e.now, t, user, expires);
      }
    }
  }

  lemma EmptyIsLinked()
    ensures WorldInv(Run([]))
  {
    var w := Run([]);
    assert Loaded(w.disk) == w.mem;
    forall t, user, expires
      ensures Linked(w, t, user, expires)
    {
      assert Marks(w.past, t, user, expires) == [];
      assert !LiveAt([RESTART], 0);
    }
  }

  lemma {:induction false} RunKeepsWorld(events: seq<Event>)
    requires FreshRun(events)
    ensures WorldInv(Run(events))
    decreases |events|
  {
    if events == [] {
      EmptyIsLinked();
    } else {
      RunKeepsWorld(events[..|events| - 1]);
      StepKeepsWorld(Run(events[..|events| - 1]), events[|events| - 1]);
    }
  }

  /** In every run each session belongs to an active user at its version, and names and users match one to one. */
  lemma MapsAgree(events: seq<Event>)
    requires FreshRun(events)
    ensures Inv(Run(events).mem)
  {
    RunKeepsWorld(events);
  }

  // ---------------------------------------------------------------- which tokens are accepted

  lemma StoredIsLiveSince(w: World, t: Token)
    requires WorldInv(w)
    ensures t in w.mem.sessions ==> exists i: nat :: LiveSince(w.past, t, i) && ExpiresAt(w.past[i].what) == w.mem.sessions[t].expires
    ensures forall i: nat :: LiveSince(w.past, t, i) ==> t in w.mem.sessions && ExpiresAt(w.past[i].what) == w.mem.sessions[t].expires
  {
    if t in w.mem.sessions {
      var s := w.mem.sessions[t];
      assert Linked(w, t, s.user, s.expires);
      var i: nat :| LiveAt(Marks(w.past, t, s.user, s.expires), i);
      LiveSinceIsLiveAt(w.past, t, i);
      assert LiveSince(w.past, t, i) && ExpiresAt(w.past[i].what) == s.expires;
    }
    forall i: nat | LiveSince(w.past, t, i)
      ensures t in w.mem.sessions && ExpiresAt(w.past[i].what) == w.mem.sessions[t].expires
    {
      LiveSinceIsLiveAt(w.past, t, i);
      assert Linked(w, t, w.past[i].what.op.id, ExpiresAt(w.past[i].what));
    }
  }

  /** In every run, with failing writes and restarts, a token is accepted exactly when some call issued it, it has
      not expired, and every entry since then that ended its session was forgotten: a restart followed before
      anything was written. */
  lemma AcceptedExactlyWhileLive(events: seq<Event>, token: Token, now: Time)
    requires FreshRun(events)
    ensures var w := Run(events);
            (Validated(w.mem, token, now).result == Fine
             <==> exists i: nat :: LiveSince(w.past, token, i) && now <= ExpiresAt(w.past[i].what))
  {
    var w := Run(events);
    RunKeepsWorld(events);
    StoredIsAcceptedExactly(w.mem, token, now);
    StoredIsLiveSince(w, token);
  }

  /** A revocation that was written stands: a session it ended is never accepted again under this token, unless the
      token is issued anew. */
  lemma WrittenEndingStands(events: seq<Event>, token: Token, now: Time, i: nat, j: nat)
    requires FreshRun(events)
    requires var past := Run(events).past;
             && i < j < |past| && Issues(past[i].what, token) && past[j].stored
             && Ends(past[j].what, token, past[i].what.op.id, ExpiresAt(past[i].what))
             && forall k :: 0 <= k < |past| && k != i ==> !Issues(past[k].what, token)
    ensures Validated(Run(events).mem, token, now).result != Fine
  {
    AcceptedExactlyWhileLive(events, token, now);
    StoredIsNotUndone(Run(events).past, j);
    assert !LiveSince(Run(events).past, token, i);
  }

  /** A revocation that could not be written is undone by a restart: user 1 signs in with token 7, all its sessions
      are revoked but the save fails, and after a restart token 7 is accepted again. */
  lemma UnwrittenRevocationIsUndone()
    ensures var before := [Call(Bootstrap(false, true, 1, 1, 1), 1, true), Call(CreateSession(1, 7, false), 2, true),
                           Call(RevokeUser(1), 3, false)];
            && FreshRun(before + [Restart(4)])
            && Validated(Run(before).mem, 7, 4).result == Unauthorized
            && Validated(Run(before + [Restart(4)]).mem, 7, 4).result == Fine
  {
    var first := Call(Bootstrap(false, true, 1, 1, 1), 1, true);
    var second, third := Call(CreateSession(1, 7, false), 2, true), Call(RevokeUser(1), 3, false);
    RunOne(first);
    RunMore([first], second);
    RunMore([first, second], third);
    RunMore([first, second, third], Restart(4));
    var w := Run([first, second]);
    assert 7 in w.disk.sessions && w.disk.sessions[7] == Session(1, Owner, 1, 2, 2, 2 + Duration(false));
    assert w.disk.users[1] == NewUser(1, 1, Owner, 1).(lastLogin := Some(2));
  }

  lemma RunOne(e: Event)
    ensures Run([e]) == Step(Run([]), e)
    ensures FreshRun([e]) <==> Fresh(Run([]), e)
  {
    assert [e][..0] == [];
  }

  lemma RunMore(events: seq<Event>, e: Event)
    ensures Run(events + [e]) == Step(Run(events), e)
    ensures FreshRun(events + [e]) <==> FreshRun(events) && Fresh(Run(events), e)
  {
    assert (events + [e])[..|events|] == events;
  }

  // ---------------------------------------------------------------- the last owner

  ghost predicate HasOwner(users: map<Id, User>) {
    Owners(users) != {}
  }

  /** Whether the event writes the state to the file. */
  ghost predicate Writes(w: World, e: Event) {
    e.Call? && e.saved && Do(w.mem, e.op, e.now, e.saved).saves
  }

  lemma StepKeepsDurableOwner(w: World, e: Event)
    requires Fresh(w, e) && HasOwner(w.mem.users) && HasOwner(w.disk.users)
    ensures HasOwner(Step(w, e).mem.users) && HasOwner(Step(w, e).disk.users)
  {
    if e.Call? {
      CallKeepsAnOwner(w.mem, e.op, e.now, e.saved);
    }
  }

  lemma {:induction false} FileOwnerIsInMemory(events: seq<Event>)
    requires FreshRun(events)
    ensures HasOwner(Run(events).disk.users) ==> HasOwner(Run(events).mem.users)
    decreases |events|
  {
    if events != [] {
      var init, last := events[..|events| - 1], events[|events| - 1];
      FileOwnerIsInMemory(init);
      if HasOwner(Run(init).disk.users) {
        StepKeepsDurableOwner(Run(init), last);
      }
    }
  }

  lemma {:induction false} FreshPrefix(events: seq<Event>, k: nat)
    requires FreshRun(events) && k <= |events|
    ensures FreshRun(events[..k])
    decreases |events|
  {
    if k == |events| {
      assert events[..k] == events;
    } else {
      assert events[..|events| - 1][..k] == events[..k];
      FreshPrefix(events[..|events| - 1], k);
    }
  }

  /** An active owner that is in the file stays for good, whatever writes fail and however often it restarts. */
  lemma {:induction false} OwnerStays(events: seq<Event>, k: nat)
    requires FreshRun(events) && k <= |events| && HasOwner(Run(events[..k]).disk.users)
    ensures HasOwner(Run(events).mem.users) && HasOwner(Run(events).disk.users)
    decreases |events|
  {
    if k == |events| {
      assert events[..k] == events;
      FileOwnerIsInMemory(events);
    } else {
      var init := events[..|events| - 1];
      assert init[..k] == events[..k];
      OwnerStays(init, k);
      StepKeepsDurableOwner(Run(init), events[|events| - 1]);
    }
  }

  /** There is an active owner after the first j events. */
  ghost predicate OwnedAt(events: seq<Event>, j: nat) {
    j <= |events| && HasOwner(Run(events[..j]).mem.users)
  }

  /** There has been an owner since event k made the first one, and nothing was written from that event on. */
  ghost predicate NeverWritten(events: seq<Event>, k: nat) {
    && k < |events| && !OwnedAt(events, k)
    && (forall j: nat :: k < j <= |events| ==> OwnedAt(events, j))
    && (forall j :: k <= j < |events| ==> !Writes(Run(events[..j]), events[j]))
  }

  lemma PrefixStep(events: seq<Event>, j: nat)
    requires j < |events|
    ensures Run(events[..j + 1]) == Step(Run(events[..j]), events[j])
  {
    assert events[..j + 1][..j] == events[..j];
  }

  lemma {:induction false} UnwrittenFileStays(events: seq<Event>, k: nat)
    requires k <= |events| && forall j :: k <= j < |events| ==> !Writes(Run(events[..j]), events[j])
    ensures Run(events).disk == Run(events[..k]).disk
    decreases |events|
  {
    if k == |events| {
      assert events[..k] == events;
    } else {
      var n := |events| - 1;
      var init := events[..n];
      assert init[..k] == events[..k];
      forall j | k <= j < n
        ensures !Writes(Run(init[..j]), init[j])
      {
        assert init[..j] == events[..j];
      }
      UnwrittenFileStays(init, k);
    }
  }

  lemma {:induction false} OwnedAtPrefix(events: seq<Event>, j: nat)
    requires j < |events|
    ensures OwnedAt(events, j) <==> OwnedAt(events[..|events| - 1], j)
  {
    assert events[..|events| - 1][..j] == events[..j];
  }

  /** The last event before which there was no owner. */
  lemma {:induction false} LastWithoutOwner(events: seq<Event>) returns (k: nat)
    requires HasOwner(Run(events).mem.users)
    ensures k < |events| && !OwnedAt(events, k) && forall j: nat :: k < j <= |events| ==> OwnedAt(events, j)
    decreases |events|
  {
    var init := events[..|events| - 1];
    assert events[..|events|] == events && init[..|init|] == init;
    if HasOwner(Run(init).mem.users) {
      k := LastWithoutOwner(init);
      OwnedAtPrefix(events, k);
      forall j: nat | k < j < |events|
        ensures OwnedAt(events, j)
      {
        OwnedAtPrefix(events, j);
      }
    } else {
      k := |events| - 1;
    }
  }

  lemma WrittenOwnerIsInFile(events: seq<Event>, j: nat)
    requires FreshRun(events) && j < |events| && Writes(Run(events[..j]), events[j]) && OwnedAt(events, j + 1)
    ensures HasOwner(Run(events).disk.users)
  {
    PrefixStep(events, j);
    OwnerStays(events, j + 1);
  }

  lemma UnwrittenIsNotInFile(events: seq<Event>, k: nat)
    requires FreshRun(events) && NeverWritten(events, k)
    ensures !HasOwner(Run(events).disk.users)
  {
    FreshPrefix(events, k);
    UnwrittenFileStays(events, k);
    FileOwnerIsInMemory(events[..k]);
  }

  lemma NotInFileIsUnwritten(events: seq<Event>) returns (k: nat)
    requires FreshRun(events) && HasOwner(Run(events).mem.users) && !HasOwner(Run(events).disk.users)
    ensures NeverWritten(events, k)
  {
    k := LastWithoutOwner(events);
    forall j | k <= j < |events|
      ensures !Writes(Run(events[..j]), events[j])
    {
      assert OwnedAt(events, j + 1);
      if Writes(Run(events[..j]), events[j]) {
        WrittenOwnerIsInFile(events, j);
      }
    }
  }

  lemma RestartReadsUsers(w: World, now: Time)
    ensures Step(w, Restart(now)).mem.users == w.disk.users
  {
  }

  /** The active owners vanish at exactly one kind of event: a restart before anything was written since the event
      that made the first of them. */
  lemma OwnerIsLostExactly(events: seq<Event>, e: Event)
    requires FreshRun(events) && Fresh(Run(events), e) && HasOwner(Run(events).mem.users)
    ensures !HasOwner(Step(Run(events), e).mem.users) <==> e.Restart? && exists k: nat :: NeverWritten(events, k)
  {
    if e.Call? {
      CallKeepsAnOwner(Run(events).mem, e.op, e.now, e.saved);
    } else {
      RestartReadsUsers(Run(events), e.now);
      if HasOwner(Run(events).disk.users) {
        forall k: nat
          ensures !NeverWritten(events, k)
        {
          if NeverWritten(events, k) {
            UnwrittenIsNotInFile(events, k);
          }
        }
      } else {
        var k := NotInFileIsUnwritten(events);
      }
    }
  }

  /** The first owner is lost when its save fails and the process restarts. */
  lemma UnwrittenOwnerIsLost()
    ensures var e := Call(Bootstrap(false, true, 1, 1, 1), 1, false);
            && FreshRun([e, Restart(2)]) && HasOwner(Run([e]).mem.users) && !HasOwner(Run([e, Restart(2)]).mem.users)
  {
    var e := Call(Bootstrap(false, true, 1, 1, 1), 1, false);
    RunOne(e);
    RunMore([e], Restart(2));
    assert [e] + [Restart(2)] == [e, Restart(2)];
    assert 1 in Owners(Run([e]).mem.users);
  }
}
