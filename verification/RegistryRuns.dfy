/** Who sees which device over whole runs, with failing writes and restarts (internal/registry/registry.go). */
module RegistryRuns {
  import opened Basics
  import opened Histories
  import opened Registry

  /** An operation as it turned out: whether it applied, the devices it touched as a group, and the owner before it.
      A restart has none of these. */
  datatype Deed = Did(op: Op, applied: bool, touched: set<DeviceId>, was: UserId) | Restarted

  /** The registry, the copy in its file, and everything that ever happened. */
  datatype World = World(mem: State, disk: State, past: seq<Entry<Deed>>)

  datatype Event = Call(op: Op, written: bool) | Restart

  function Touched(s: State, op: Op): set<DeviceId> {
    match op
    case AdoptOrphans(owner) => set d | d in s.devices && s.devices[d].owner == 0 && owner != 0
    case DeleteByOwner(owner) => set d | d in s.devices && s.devices[d].owner == owner
    case _ => {}
  }

  predicate Applies(s: State, op: Op) {
    match op
    case Save(_, _, written) => written
    case AdoptOrphans(_) => true
    case Delete(id, _) => id in s.devices
    case DeleteByOwner(_) => true
    case SetGrant(id, user, _) => id in s.devices && s.devices[id].owner != user
    case Revoke(id, _) => id in s.devices
    case Transfer(id, _, _, _) => id in s.devices
  }

  /** Whether an operation tries to write at all. */
  predicate TriesToWrite(s: State, op: Op) {
    if op.AdoptOrphans? || op.DeleteByOwner? then Touched(s, op) != {} else op.Save? || Applies(s, op)
  }

  function EntryOf(s: State, op: Op, written: bool): Entry<Deed> {
    var was := if op.Transfer? && op.id in s.devices then s.devices[op.id].owner else 0;
    Entry(Did(op, Applies(s, op), Touched(s, op), was), written && TriesToWrite(s, op), false)
  }

  const RESTARTED: Entry<Deed> := Entry(Restarted, false, true)

  /** Reading the file rebuilds both indexes from the devices and grants that were written. */
  ghost predicate Reads(disk: State, t: State) {
    && t.devices == disk.devices
    && (forall d, u {:trigger GrantOf(t, d, u)} :: GrantOf(t, d, u).Some? <==> GrantOf(disk, d, u).Some?)
    && (forall d, u {:trigger UserGrantOf(t, u, d)} :: UserGrantOf(t, u, d) == GrantOf(t, d, u))
  }

  ghost predicate Step(w: World, e: Event, v: World) {
    match e
    case Call(op, written) =>
      && (op.Save? || op.Delete? ==> op.written == written)
      && Next(w.mem, op, v.mem)
      && v.disk == (if written && TriesToWrite(w.mem, op) then v.mem else w.disk)
      && v.past == w.past + [EntryOf(w.mem, op, written)]
    case Restart => Reads(w.disk, v.mem) && v.disk == w.disk && v.past == w.past + [RESTARTED]
  }

  const EMPTY := State(map[], map[], map[])

  ghost predicate IsRun(worlds: seq<World>, events: seq<Event>) {
    && |worlds| == |events| + 1 && worlds[0] == World(EMPTY, EMPTY, [])
    && forall i :: 0 <= i < |events| ==> Step(worlds[i], events[i], worlds[i + 1])
  }

  // ---------------------------------------------------------------- what the history says

  /** The deed makes the user the owner of the device. */
  predicate SetsOwner(e: Deed, d: DeviceId, u: UserId) {
    e.Did? && match e.op
      case Save(id, device, _) => id == d && e.applied && device.owner == u
      case AdoptOrphans(owner) => d in e.touched && owner == u
      case Transfer(id, owner, _, _) => id == d && e.applied && owner == u
      case _ => false
  }

  /** The deed settles anew who owns the device, or removes it. */
  predicate ChangesOwner(e: Deed, d: DeviceId) {
    e.Did? && match e.op
      case Save(id, _, _) => id == d && e.applied
      case AdoptOrphans(_) => d in e.touched
      case Delete(id, written) => id == d && e.applied && written
      case DeleteByOwner(_) => d in e.touched
      case Transfer(id, _, _, _) => id == d && e.applied
      case _ => false
  }

  /** The deed shares the device with the user. */
  predicate SharesWith(e: Deed, d: DeviceId, u: UserId) {
    e.Did? && match e.op
      case SetGrant(id, user, _) => id == d && user == u && e.applied
      case Transfer(id, owner, retained, _) => id == d && e.applied && retained.Some? && u == e.was && u != 0 && u != owner
      case _ => false
  }

  /** The deed ends the sharing of the device with the user. */
  predicate Unshares(e: Deed, d: DeviceId, u: UserId) {
    e.Did? && match e.op
      case Revoke(id, user) => id == d && user == u && e.applied
      case Delete(id, _) => id == d && e.applied
      case DeleteByOwner(_) => d in e.touched
      case Transfer(id, owner, _, _) => id == d && e.applied && (u == owner || (u == e.was && u != 0))
      case _ => false
  }

  ghost predicate OwnsSince(past: seq<Entry<Deed>>, d: DeviceId, u: UserId, i: nat) {
    && i < |past| && SetsOwner(past[i].what, d, u) && !Undone(past, i)
    && forall j :: i < j < |past| && ChangesOwner(past[j].what, d) ==> Undone(past, j)
  }

  ghost predicate SharedSince(past: seq<Entry<Deed>>, d: DeviceId, u: UserId, i: nat) {
    && i < |past| && SharesWith(past[i].what, d, u) && !Undone(past, i)
    && forall j :: i < j < |past| && Unshares(past[j].what, d, u) ==> Undone(past, j)
  }

  // ---------------------------------------------------------------- the same, as marks of a history

  function OwnerMark(e: Entry<Deed>, d: DeviceId, u: UserId): Entry<Mark> {
    Entry(Mark(SetsOwner(e.what, d, u), ChangesOwner(e.what, d)), e.stored, e.restart)
  }

  function OwnerMarks(past: seq<Entry<Deed>>, d: DeviceId, u: UserId): seq<Entry<Mark>> {
    seq(|past|, i requires 0 <= i < |past| => OwnerMark(past[i], d, u))
  }

  function ShareMark(e: Entry<Deed>, d: DeviceId, u: UserId): Entry<Mark> {
    Entry(Mark(SharesWith(e.what, d, u), Unshares(e.what, d, u)), e.stored, e.restart)
  }

  function ShareMarks(past: seq<Entry<Deed>>, d: DeviceId, u: UserId): seq<Entry<Mark>> {
    seq(|past|, i requires 0 <= i < |past| => ShareMark(past[i], d, u))
  }

  lemma MarksAppend(past: seq<Entry<Deed>>, e: Entry<Deed>, d: DeviceId, u: UserId)
    ensures OwnerMarks(past + [e], d, u) == OwnerMarks(past, d, u) + [OwnerMark(e, d, u)]
    ensures ShareMarks(past + [e], d, u) == ShareMarks(past, d, u) + [ShareMark(e, d, u)]
  {
  }

  lemma OwnsSinceIsLiveAt(past: seq<Entry<Deed>>, d: DeviceId, u: UserId, i: nat)
    ensures OwnsSince(past, d, u, i) <==> LiveAt(OwnerMarks(past, d, u), i)
  {
    var marks := OwnerMarks(past, d, u);
    forall j: nat
      ensures Undone(past, j) <==> Undone(marks, j)
    {
      UndoneAlike(past, marks, j);
    }
    assert forall j :: 0 <= j < |past| ==> (marks[j].what.takes <==> ChangesOwner(past[j].what, d));
  }

  lemma SharedSinceIsLiveAt(past: seq<Entry<Deed>>, d: DeviceId, u: UserId, i: nat)
    ensures SharedSince(past, d, u, i) <==> LiveAt(ShareMarks(past, d, u), i)
  {
    var marks := ShareMarks(past, d, u);
    forall j: nat
      ensures Undone(past, j) <==> Undone(marks, j)
    {
      UndoneAlike(past, marks, j);
    }
    assert forall j :: 0 <= j < |past| ==> (marks[j].what.takes <==> Unshares(past[j].what, d, u));
  }

  // ---------------------------------------------------------------- the state and the history agree

  predicate Owns(s: State, d: DeviceId, u: UserId) {
    d in s.devices && s.devices[d].owner == u
  }

  predicate Shared(s: State, d: DeviceId, u: UserId) {
    GrantOf(s, d, u).Some?
  }

  ghost predicate Linked(w: World, d: DeviceId, u: UserId) {
    && (Owns(w.mem, d, u) <==> Live(OwnerMarks(w.past, d, u)))
    && (Owns(w.disk, d, u) <==> OnDisk(OwnerMarks(w.past, d, u)))
    && (Shared(w.mem, d, u) <==> Live(ShareMarks(w.past, d, u)))
    && (Shared(w.disk, d, u) <==> OnDisk(ShareMarks(w.past, d, u)))
  }

  ghost predicate WorldInv(w: World) {
    && Inv(w.mem) && Inv(w.disk)
    && forall d, u {:trigger Linked(w, d, u)} :: Linked(w, d, u)
  }

  lemma CallChangesOwner(s: State, op: Op, written: bool, t: State, d: DeviceId, u: UserId)
    requires Next(s, op, t) && (op.Save? || op.Delete? ==> op.written == written)
    ensures var m := OwnerMark(EntryOf(s, op, written), d, u).what;
            Owns(t, d, u) <==> m.gives || (Owns(s, d, u) && !m.takes)
  {
  }

  lemma CallChangesSharing(s: State, op: Op, written: bool, t: State, d: DeviceId, u: UserId)
    requires Next(s, op, t)
    ensures var m := ShareMark(EntryOf(s, op, written), d, u).what;
            Shared(t, d, u) <==> m.gives || (Shared(s, d, u) && !m.takes)
  {
    assert GrantOf(t, d, u) == GrantAfter(s, op, d, u);
  }

  lemma CallKeepsLink(w: World, op: Op, written: bool, v: World, d: DeviceId, u: UserId)
    requires Step(w, Call(op, written), v) && Linked(w, d, u)
    ensures Linked(v, d, u)
  {
    var e := EntryOf(w.mem, op, written);
    var owner, share := OwnerMark(e, d, u), ShareMark(e, d, u);
    MarksAppend(w.past, e, d, u);
    CallChangesOwner(w.mem, op, written, v.mem, d, u);
    CallChangesSharing(w.mem, op, written, v.mem, d, u);
    LiveAfterCall(OwnerMarks(w.past, d, u), owner);
    LiveAfterCall(ShareMarks(w.past, d, u), share);
    if e.stored {
      DiskAfterStored(OwnerMarks(w.past, d, u), owner);
      DiskAfterStored(ShareMarks(w.past, d, u), share);
    } else {
      DiskAfterUnstored(OwnerMarks(w.past, d, u), owner);
      DiskAfterUnstored(ShareMarks(w.past, d, u), share);
    }
  }

  lemma RestartKeepsLink(w: World, v: World, d: DeviceId, u: UserId)
    requires Step(w, Restart, v) && Linked(w, d, u)
    ensures Linked(v, d, u)
  {
    var owner, share := OwnerMark(RESTARTED, d, u), ShareMark(RESTARTED, d, u);
    MarksAppend(w.past, RESTARTED, d, u);
    LiveAfterRestart(OwnerMarks(w.past, d, u), owner);
    LiveAfterRestart(ShareMarks(w.past, d, u), share);
    DiskAfterUnstored(OwnerMarks(w.past, d, u), owner);
    DiskAfterUnstored(ShareMarks(w.past, d, u), share);
    assert GrantOf(v.mem, d, u).Some? <==> GrantOf(w.disk, d, u).Some?;
  }

  lemma ReadingKeepsInv(disk: State, t: State)
    requires Inv(disk) && Reads(disk, t)
    ensures Inv(t)
  {
    forall d, u
      ensures PairOk(t, d, u)
    {
      var _ := GrantOf(disk, d, u);
      assert PairOk(disk, d, u);
    }
  }

  lemma StepKeepsWorld(w: World, e: Event, v: World)
    requires WorldInv(w) && Step(w, e, v)
    ensures WorldInv(v)
  {
    if e.Call? {
      NextKeepsInv(w.mem, e.op, v.mem);
    } else {
      ReadingKeepsInv(w.disk, v.mem);
    }
    forall d, u
      ensures Linked(v, d, u)
    {
      assert Linked(w, d, u);
      if e.Call? {
        CallKeepsLink(w, e.op, e.written, v, d, u);
      } else {
        RestartKeepsLink(w, v, d, u);
      }
    }
  }

  lemma EmptyIsLinked()
    ensures WorldInv(World(EMPTY, EMPTY, []))
  {
    var w := World(EMPTY, EMPTY, []);
    assert forall d, u :: PairOk(EMPTY, d, u);
    forall d, u
      ensures Linked(w, d, u)
    {
      assert OwnerMarks([], d, u) == [] && ShareMarks([], d, u) == [];
      assert !LiveAt([RESTART], 0);
    }
  }

  lemma {:induction false} RunKeepsWorld(worlds: seq<World>, events: seq<Event>, k: nat)
    requires IsRun(worlds, events) && k < |worlds|
    ensures WorldInv(worlds[k])
    decreases k
  {
    if k == 0 {
      EmptyIsLinked();
    } else {
      RunKeepsWorld(worlds, events, k - 1);
      StepKeepsWorld(worlds[k - 1], events[k - 1], worlds[k]);
    }
  }

  // ---------------------------------------------------------------- main results

  /** In every run, with failing writes and restarts, a user sees a device exactly if some entry made the user its
      owner and no later one settled the ownership anew, or some entry shared it with the user and no later one ended
      that; entries undone by a restart do not count, neither for nor against. */
  lemma SeesExactlyByHistory(worlds: seq<World>, events: seq<Event>, u: UserId, d: DeviceId)
    requires IsRun(worlds, events)
    ensures var w := worlds[|events|];
            (Visible(w.mem, u, d)
             <==> (exists i: nat :: OwnsSince(w.past, d, u, i)) || (exists i: nat :: SharedSince(w.past, d, u, i)))
  {
    var w := worlds[|events|];
    RunKeepsWorld(worlds, events, |events|);
    assert Linked(w, d, u);
    assert PairOk(w.mem, d, u) by {
      var _ := GrantOf(w.mem, d, u);
    }
    forall i: nat
      ensures OwnsSince(w.past, d, u, i) <==> LiveAt(OwnerMarks(w.past, d, u), i)
      ensures SharedSince(w.past, d, u, i) <==> LiveAt(ShareMarks(w.past, d, u), i)
    {
      OwnsSinceIsLiveAt(w.past, d, u, i);
      SharedSinceIsLiveAt(w.past, d, u, i);
    }
    if Visible(w.mem, u, d) {
      if Owns(w.mem, d, u) {
        var i: nat :| LiveAt(OwnerMarks(w.past, d, u), i);
        assert OwnsSince(w.past, d, u, i);
      } else {
        var i: nat :| LiveAt(ShareMarks(w.past, d, u), i);
        assert SharedSince(w.past, d, u, i);
      }
    }
  }

  /** A revocation that was written takes effect for good, until the device is shared with the user again. */
  lemma WrittenRevocationStands(worlds: seq<World>, events: seq<Event>, u: UserId, d: DeviceId, j: nat)
    requires IsRun(worlds, events)
    requires var past := worlds[|events|].past;
             && j < |past| && past[j].stored && Unshares(past[j].what, d, u)
             && forall k :: j <= k < |past| ==> !SharesWith(past[k].what, d, u)
    ensures !Shared(worlds[|events|].mem, d, u)
  {
    var w := worlds[|events|];
    RunKeepsWorld(worlds, events, |events|);
    assert Linked(w, d, u);
    StoredIsNotUndone(w.past, j);
    forall i: nat
      ensures !LiveAt(ShareMarks(w.past, d, u), i)
    {
      SharedSinceIsLiveAt(w.past, d, u, i);
    }
  }

  lemma SavedThenShared(g: Grant, device: Device)
    requires device.owner == 1
    ensures var saved := State(map[5 := device], map[], map[]);
            && Next(EMPTY, Save(5, device, true), saved)
            && Next(saved, SetGrant(5, 2, g), State(map[5 := device], map[5 := map[2 := g]], map[2 := map[5 := g]]))
  {
  }

  /** A revocation whose write failed is undone by a restart: a device of user 1 is shared with user 2, the
      revocation is not written, and after a restart user 2 sees the device again. */
  lemma UnwrittenRevocationIsUndone(g: Grant, device: Device) returns (worlds: seq<World>)
    requires device.owner == 1
    ensures IsRun(worlds, [Call(Save(5, device, true), true), Call(SetGrant(5, 2, g), true), Call(Revoke(5, 2), false), Restart])
    ensures !Visible(worlds[3].mem, 2, 5) && Visible(worlds[4].mem, 2, 5)
  {
    var save, grant, revoke := Save(5, device, true), SetGrant(5, 2, g), Revoke(5, 2);
    var saved := State(map[5 := device], map[], map[]);
    var shared := State(map[5 := device], map[5 := map[2 := g]], map[2 := map[5 := g]]);
    var revoked := State(map[5 := device], map[], map[]);
    SavedThenShared(g, device);
    assert Next(shared, revoke, revoked) && Reads(shared, shared);
    var w1 := World(saved, saved, [EntryOf(EMPTY, save, true)]);
    var w2 := World(shared, shared, w1.past + [EntryOf(saved, grant, true)]);
    var w3 := World(revoked, shared, w2.past + [EntryOf(shared, revoke, false)]);
    var w4 := World(shared, shared, w3.past + [RESTARTED]);
    assert [] + w1.past == w1.past;
    worlds := [World(EMPTY, EMPTY, []), w1, w2, w3, w4];
  }
}
