/** What uploads leave behind over whole runs with crashes (internal/fileshare/service.go). */
module FileRelayUploads {
  import opened Basics
  import opened FileRelay
  import opened FileRelayProofs
  import opened FileRelayLinks

  /** The upload was asked to finish and its data were synced. */
  ghost predicate WasSynced(past: seq<Event>, u: Id) {
    exists k :: 0 <= k < |past| && Asks(past[k], Finish(u, true))
  }

  /** The file system refused to remove the partial: in the upload's own clean-up or in an opening. */
  ghost predicate WasStuck(past: seq<Event>, u: Id) {
    exists k :: 0 <= k < |past| && (Asks(past[k], Cleanup(u, false)) || (past[k].Open? && u in past[k].stuck))
  }

  predicate Working(up: Upload) {
    up.phase.Streaming? || up.phase.Writing? || up.phase.Synced? || up.phase.Failed?
  }

  ghost predicate Trail(past: seq<Event>, s: Store, u: Id) {
    && (u in s.uploads && s.uploads[u].phase.Synced? ==> WasSynced(past, u))
    && (u in s.meta.files || u in s.disk.meta.files ==> WasSynced(past, u))
    && (u in s.disk.partials ==> (u in s.uploads && Working(s.uploads[u])) || WasStuck(past, u))
  }

  ghost predicate TrailOf(past: seq<Event>, m: Machine, u: Id) {
    match m
    case Up(s) => Trail(past, s, u)
    case Down(_, disk, _, _, _) => u in disk.meta.files ==> WasSynced(past, u)
  }

  lemma PastGrows(past: seq<Event>, e: Event, u: Id)
    ensures WasSynced(past, u) ==> WasSynced(past + [e], u)
    ensures WasStuck(past, u) ==> WasStuck(past + [e], u)
    ensures Asks(e, Finish(u, true)) ==> WasSynced(past + [e], u)
    ensures Asks(e, Cleanup(u, false)) || (e.Open? && u in e.stuck) ==> WasStuck(past + [e], u)
  {
    assert (past + [e])[|past|] == e;
    if WasSynced(past, u) {
      var k :| 0 <= k < |past| && Asks(past[k], Finish(u, true));
      assert (past + [e])[k] == past[k];
    }
    if WasStuck(past, u) {
      var k :| 0 <= k < |past| && (Asks(past[k], Cleanup(u, false)) || (past[k].Open? && u in past[k].stuck));
      assert (past + [e])[k] == past[k];
    }
  }

  lemma UploadActionKeepsTrail(past: seq<Event>, s: Store, a: Action, u: Id)
    requires Shape(s) && Trail(past, s, u) && !a.Commit? && !a.Delete?
    ensures Trail(past + [Act(a)], Step(s, a), u)
  {
    assert IdOk(s, u);
    PastGrows(past, Act(a), u);
  }

  lemma FileActionKeepsTrail(past: seq<Event>, s: Store, a: Action, u: Id)
    requires Trail(past, s, u) && (a.Commit? || a.Delete?)
    ensures Trail(past + [Act(a)], Step(s, a), u)
  {
    PastGrows(past, Act(a), u);
  }

  lemma CrashKeepsTrail(past: seq<Event>, s: Store, a: Action, point: nat, u: Id)
    requires Trail(past, s, u)
    ensures TrailOf(past + [Crash(a, point)], CrashDuring(s, a, point), u)
  {
    PastGrows(past, Crash(a, point), u);
    DiskMetaDuring(s, a, point);
  }

  lemma EventKeepsTrail(past: seq<Event>, m: Machine, e: Event, u: Id)
    requires MachineInv(m) && TrailOf(past, m, u)
    ensures TrailOf(past + [e], MachineStep(m, e), u)
  {
    PastGrows(past, e, u);
    if m.Up? && e.Act? {
      if e.action.Commit? || e.action.Delete? {
        FileActionKeepsTrail(past, m.store, e.action, u);
      } else {
        UploadActionKeepsTrail(past, m.store, e.action, u);
      }
    } else if m.Up? && e.Crash? {
      CrashKeepsTrail(past, m.store, e.during, e.point, u);
    }
  }

  lemma {:induction false} RunKeepsTrail(past: seq<Event>, m: Machine, events: seq<Event>, u: Id)
    requires MachineInv(m) && TrailOf(past, m, u)
    ensures TrailOf(past + events, Run(m, events), u)
    decreases |events|
  {
    if events == [] {
      assert past + events == past;
    } else {
      MachineStepKeeps(m, events[0]);
      EventKeepsTrail(past, m, events[0], u);
      RunKeepsTrail(past + [events[0]], MachineStep(m, events[0]), events[1..], u);
      assert past + [events[0]] + events[1..] == past + events;
    }
  }

  /** In every run of a service that started on an empty directory, only uploads whose data were synced became files. */
  lemma OnlySyncedUploadsAreFiles(quota: nat, days: int, events: seq<Event>, u: Id)
    requires var m := Run(Empty(quota, days), events); m.Up? && u in m.store.meta.files
    ensures exists k :: 0 <= k < |events| && Asks(events[k], Finish(u, true))
  {
    EmptyIsSound(quota, days);
    RunKeepsTrail([], Empty(quota, days), events, u);
    assert [] + events == events;
  }

  /** And no partial outlives its upload unless the file system refused to remove it. */
  lemma PartialsAreRemoved(quota: nat, days: int, events: seq<Event>, u: Id)
    requires var m := Run(Empty(quota, days), events); m.Up? && u in m.store.disk.partials && u !in m.store.uploads
    ensures exists k :: 0 <= k < |events| && (Asks(events[k], Cleanup(u, false)) || (events[k].Open? && u in events[k].stuck))
  {
    EmptyIsSound(quota, days);
    RunKeepsTrail([], Empty(quota, days), events, u);
    assert [] + events == events;
  }

  // ---------------------------------------------------------------- how much a file holds

  /** The bytes of the upload that this event brings into its partial. */
  function BytesOf(m: Machine, e: Event, u: Id): nat {
    if m.Up? && e.Act? && u in m.store.uploads then
      match e.action
      case Settle(v, n) => if v == u && m.store.uploads[u].phase.Writing? && n <= m.store.uploads[u].phase.need then n else 0
      case Stream(v, n) => if v == u && m.store.uploads[u].phase.Streaming? && m.store.uploads[u].expected > 0 then n else 0
      case _ => 0
    else 0
  }

  ghost function Received(m: Machine, events: seq<Event>, u: Id): nat
    decreases |events|
  {
    if events == [] then 0 else BytesOf(m, events[0], u) + Received(MachineStep(m, events[0]), events[1..], u)
  }

  /** So many bytes of the upload are in its partial or in its blob. */
  predicate Weighs(m: Machine, u: Id, n: int) {
    match m
    case Up(s) =>
      && (u !in s.issued ==> n == 0)
      && (u in s.uploads && Uncommitted(s.uploads[u]) ==> s.uploads[u].written == n)
      && (u in s.disk.blobs ==> s.disk.blobs[u] == n)
    case Down(_, disk, issued, _, _) => (u !in issued ==> n == 0) && (u in disk.blobs ==> disk.blobs[u] == n)
  }

  lemma StepWeighs(s: Store, a: Action, u: Id, n: int)
    requires Shape(s) && Weighs(Up(s), u, n)
    ensures Weighs(Up(Step(s, a)), u, n + BytesOf(Up(s), Act(a), u))
  {
    assert IdOk(s, u);
    assert DiskIdOk(s.disk, s.issued, s.acked, s.gone, u);
  }

  lemma CrashWeighs(s: Store, a: Action, point: nat, u: Id, n: int)
    requires Shape(s) && Weighs(Up(s), u, n)
    ensures Weighs(CrashDuring(s, a, point), u, n)
  {
    assert IdOk(s, u);
    assert DiskIdOk(s.disk, s.issued, s.acked, s.gone, u);
  }

  lemma {:induction false} RunWeighs(m: Machine, events: seq<Event>, u: Id, n: int)
    requires MachineInv(m) && Weighs(m, u, n)
    ensures Weighs(Run(m, events), u, n + Received(m, events, u))
    decreases |events|
  {
    if events != [] {
      var e := events[0];
      MachineStepKeeps(m, e);
      if m.Up? && e.Act? {
        StepWeighs(m.store, e.action, u, n);
      } else if m.Up? && e.Crash? {
        CrashWeighs(m.store, e.during, e.point, u, n);
      }
      RunWeighs(MachineStep(m, e), events[1..], u, n + BytesOf(m, e, u));
    }
  }

  /** In every run with crashes a file is exactly as long as the bytes that its upload received. */
  lemma FileHoldsWhatWasReceived(quota: nat, days: int, events: seq<Event>, u: Id)
    requires var m := Run(Empty(quota, days), events); m.Up? && u in m.store.meta.files
    ensures var s := Run(Empty(quota, days), events).store;
            s.meta.files[u].size == Received(Empty(quota, days), events, u)
            && u in s.disk.blobs && s.disk.blobs[u] == Received(Empty(quota, days), events, u)
  {
    EmptyIsSound(quota, days);
    RunKeeps(Empty(quota, days), events);
    RunWeighs(Empty(quota, days), events, u, 0);
    assert IdOk(Run(Empty(quota, days), events).store, u);
  }

  // ---------------------------------------------------------------- uploads that end well

  predicate HasRoomFor(available: Option<int>, n: nat) {
    available.Some? ==> n + 512 * 1024 * 1024 <= available.value
  }

  /** The file is stored, acknowledged and counted, and nothing of the upload is left. */
  predicate StoredAs(s: Store, t: Store, u: Id, n: nat) {
    && u in t.meta.files && t.meta.files[u].size == n && t.meta.files[u].status.Ready?
    && t.disk.meta == t.meta && u in t.disk.blobs && t.disk.blobs[u] == n && u !in t.disk.partials
    && u in t.acked && t.acked[u] == n && t.used == s.used + n && t.reserved == s.reserved && u !in t.uploads
  }

  function Ended(s: Store, u: Id, now: Time): Store {
    Step(Step(Step(s, Commit(u, now, true, true, true, true)), Cleanup(u, true)), Release(u))
  }

  lemma SyncedIsStored(s: Store, u: Id, n: nat, now: Time)
    requires u in s.uploads && s.uploads[u].phase.Synced? && s.uploads[u].written == n && s.used + n <= s.quota
    ensures StoredAs(s.(reserved := s.reserved - s.uploads[u].Held()), Ended(s, u, now), u, n)
  {
  }

  lemma DeclaredArrives(s: Store, u: Id, n: nat, available: Option<int>)
    requires u !in s.issued && 0 < n <= s.quota && s.used + s.reserved + n <= s.quota && HasRoomFor(available, n)
    ensures var partial := Step(Step(s, Begin(u, true, n, available)), OpenPartial(u, true));
            var t := Step(Step(partial, Stream(u, n)), Finish(u, true));
            && partial.reserved == s.reserved + n && u in partial.disk.partials
            && t.reserved == s.reserved + n && t.used == s.used && t.quota == s.quota
            && u in t.uploads && t.uploads[u].phase.Synced? && t.uploads[u].written == n && t.uploads[u].Held() == n
  {
  }

  lemma UndeclaredArrives(s: Store, u: Id, n: nat, available: Option<int>)
    requires u !in s.issued && n <= s.quota && s.used + s.reserved + n <= s.quota && HasRoomFor(available, n)
    ensures var partial := Step(Step(s, Begin(u, true, 0, available)), OpenPartial(u, true));
            var t := Step(Step(Step(partial, Acquire(u, n, available)), Settle(u, n)), Finish(u, true));
            && partial.reserved == s.reserved && u in partial.disk.partials
            && t.reserved == s.reserved + n && t.used == s.used && t.quota == s.quota
            && u in t.uploads && t.uploads[u].phase.Synced? && t.uploads[u].written == n && t.uploads[u].Held() == n
  {
  }

  /** An upload of a declared size that fits, and all of which arrives, is stored. */
  lemma DeclaredUploadIsStored(s: Store, u: Id, n: nat, available: Option<int>, now: Time)
    requires u !in s.issued && 0 < n <= s.quota && s.used + s.reserved + n <= s.quota && 0 <= s.reserved
    requires HasRoomFor(available, n)
    ensures var partial := Step(Step(s, Begin(u, true, n, available)), OpenPartial(u, true));
            StoredAs(s, Ended(Step(Step(partial, Stream(u, n)), Finish(u, true)), u, now), u, n)
  {
    DeclaredArrives(s, u, n, available);
    var partial := Step(Step(s, Begin(u, true, n, available)), OpenPartial(u, true));
    SyncedIsStored(Step(Step(partial, Stream(u, n)), Finish(u, true)), u, n, now);
  }

  /** One whose size was not declared reserves what it needs chunk by chunk. */
  lemma UndeclaredUploadIsStored(s: Store, u: Id, n: nat, available: Option<int>, now: Time)
    requires u !in s.issued && n <= s.quota && s.used + s.reserved + n <= s.quota && 0 <= s.reserved
    requires HasRoomFor(available, n)
    ensures var partial := Step(Step(s, Begin(u, true, 0, available)), OpenPartial(u, true));
            StoredAs(s, Ended(Step(Step(Step(partial, Acquire(u, n, available)), Settle(u, n)), Finish(u, true)), u, now), u, n)
  {
    UndeclaredArrives(s, u, n, available);
    var partial := Step(Step(s, Begin(u, true, 0, available)), OpenPartial(u, true));
    SyncedIsStored(Step(Step(Step(partial, Acquire(u, n, available)), Settle(u, n)), Finish(u, true)), u, n, now);
  }
}
