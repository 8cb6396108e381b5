/** What every interleaving of the file relay keeps, and what survives a crash. */
module FileRelayProofs {
  import opened Basics
  import opened Totals
  import opened FileRelay

  // ---------------------------------------------------------------- totals under one change

  lemma HoldsUpdate(uploads: map<Id, Upload>, u: Id, up: Upload)
    ensures Total(Holds(uploads[u := up]))
         == Total(Holds(uploads)) + up.Held() - (if u in uploads then uploads[u].Held() else 0)
  {
    TotalUpdate(Holds(uploads), u, up.Held());
    assert Holds(uploads[u := up]) == Holds(uploads)[u := up.Held()];
  }

  lemma HoldsWithout(uploads: map<Id, Upload>, u: Id)
    requires u in uploads
    ensures Total(Holds(Without(uploads, u))) == Total(Holds(uploads)) - uploads[u].Held()
  {
    TotalSplit(Holds(uploads), u);
    assert Holds(Without(uploads, u)) == Without(Holds(uploads), u);
  }

  lemma SizesUpdate(files: map<Id, File>, id: Id, f: File)
    ensures Total(Sizes(files[id := f]))
         == Total(Sizes(files)) + f.size - (if id in files then files[id].size else 0)
  {
    TotalUpdate(Sizes(files), id, f.size);
    assert Sizes(files[id := f]) == Sizes(files)[id := f.size];
  }

  lemma SizesWithout(files: map<Id, File>, id: Id)
    requires id in files && forall i :: i in files ==> 0 <= files[i].size
    ensures Total(Sizes(Without(files, id))) == Total(Sizes(files)) - files[id].size
    ensures 0 <= Total(Sizes(Without(files, id)))
  {
    TotalSplit(Sizes(files), id);
    assert Sizes(Without(files, id)) == Without(Sizes(files), id);
    TotalNonNegative(Sizes(Without(files, id)));
  }

  /** A reservation held by one upload is part of the reserved total. */
  lemma HeldWithinReserved(s: Store, u: Id)
    requires Inv(s) && u in s.uploads
    ensures 0 <= s.uploads[u].Held() <= s.reserved
  {
    forall v | v in s.uploads
      ensures 0 <= s.uploads[v].Held()
    {
      assert IdOk(s, v);
    }
    HoldsWithout(s.uploads, u);
    TotalNonNegative(Holds(Without(s.uploads, u)));
  }

  // ---------------------------------------------------------------- one step: the totals

  lemma SizesNonNegative(s: Store)
    requires Shape(s)
    ensures forall id :: id in s.meta.files ==> 0 <= s.meta.files[id].size
  {
    forall id | id in s.meta.files
      ensures 0 <= s.meta.files[id].size
    {
      assert IdOk(s, id) && DiskIdOk(s.disk, s.issued, s.acked, s.gone, id);
    }
  }

  lemma UploadStepConserves(s: Store, a: Action)
    requires Conserved(s) && Enabled(s, a)
    requires a.OpenPartial? || a.Acquire? || a.Settle? || a.Stream? || a.Finish? || a.Cleanup?
    ensures Conserved(Step(s, a))
  {
    HoldsUpdate(s.uploads, a.upload, Step(s, a).uploads[a.upload]);
  }

  lemma BeginConserves(s: Store, u: Id, expected: int)
    requires Conserved(s) && u !in s.uploads
    ensures var up := Upload(expected, expected, 0, 0, 0, Reserved);
            Conserved(s.(reserved := s.reserved + expected, issued := s.issued + {u}, uploads := s.uploads[u := up]))
  {
    HoldsUpdate(s.uploads, u, Upload(expected, expected, 0, 0, 0, Reserved));
  }

  lemma CommitConserves(s: Store, a: Action)
    requires Conserved(s) && a.Commit? && Enabled(s, a) && a.upload !in s.meta.files
    ensures Conserved(Step(s, a))
  {
    var u, up, t := a.upload, s.uploads[a.upload], Step(s, a);
    HoldsUpdate(s.uploads, u, t.uploads[u]);
    assert t.reserved == s.reserved - up.Held() && t.uploads[u].Held() == 0;
    SizesUpdate(s.meta.files, u, NewFile(s, up, a.now));
  }

  lemma ReleaseConserves(s: Store, a: Action)
    requires Conserved(s) && a.Release? && Enabled(s, a)
    ensures Conserved(Step(s, a))
  {
    HoldsWithout(s.uploads, a.upload);
  }

  /** Deleting never drives the used counter below zero, so its clamp has no effect. */
  lemma DeleteConserves(s: Store, a: Action)
    requires Inv(s) && a.Delete?
    ensures Conserved(Step(s, a))
    ensures a.id in s.meta.files && !a.removal.Refused? ==> Step(s, a).used == s.used - s.meta.files[a.id].size
  {
    if a.id in s.meta.files {
      SizesNonNegative(s);
      SizesWithout(s.meta.files, a.id);
      SizesUpdate(s.meta.files, a.id, Kept(s.meta.files[a.id]));
    }
  }

  lemma StepConserves(s: Store, a: Action)
    requires Inv(s)
    ensures Conserved(Step(s, a))
  {
    if Enabled(s, a) {
      match a
      case Begin(u, _, expected, _) =>
        assert IdOk(s, u);
        if u !in s.issued {
          BeginConserves(s, u, expected);
        }
      case Commit(u, _, _, _, _, _) =>
        assert IdOk(s, u);
        CommitConserves(s, a);
      case Release(_) => ReleaseConserves(s, a);
      case Delete(_, _, _) => DeleteConserves(s, a);
      case CreateLink(_, _, _, _, _, _, _) =>
      case RevokeLink(_, _, _) =>
      case _ => UploadStepConserves(s, a);
    }
  }

  // ---------------------------------------------------------------- one step: the rest

  lemma UploadStepKeepsId(s: Store, a: Action, id: Id)
    requires Shape(s) && !(a.Commit? || a.Delete? || a.CreateLink? || a.RevokeLink?)
    ensures IdOk(Step(s, a), id)
  {
    assert IdOk(s, id) && DiskIdOk(s.disk, s.issued, s.acked, s.gone, id);
  }

  lemma StepKeepsId(s: Store, a: Action, id: Id)
    requires Shape(s)
    ensures IdOk(Step(s, a), id)
  {
    if a.Commit? {
      CommitKeepsId(s, a, id);
    } else if a.Delete? || a.CreateLink? || a.RevokeLink? {
      FileStepKeepsId(s, a, id);
    } else {
      UploadStepKeepsId(s, a, id);
    }
  }

  lemma CommitKeepsId(s: Store, a: Action, id: Id)
    requires Shape(s) && a.Commit?
    ensures IdOk(Step(s, a), id)
  {
    assert IdOk(s, id);
  }

  lemma FileStepKeepsId(s: Store, a: Action, id: Id)
    requires Shape(s) && (a.Delete? || a.CreateLink? || a.RevokeLink?)
    ensures IdOk(Step(s, a), id)
  {
    assert IdOk(s, id);
  }

  lemma StepKeepsDiskId(s: Store, a: Action, id: Id)
    requires Shape(s)
    ensures var t := Step(s, a); DiskIdOk(t.disk, t.issued, t.acked, t.gone, id)
  {
    assert IdOk(s, id) && DiskIdOk(s.disk, s.issued, s.acked, s.gone, id);
  }

  lemma StepKeepsLink(s: Store, a: Action, l: Id)
    requires Shape(s)
    ensures LinkOk(Step(s, a).meta, l)
  {
    assert LinkOk(s.meta, l);
    if a.Commit? {
      assert IdOk(s, a.upload);
    }
  }

  /** The disk holds either the old metadata or the metadata now in memory. */
  lemma StepKeepsDiskLink(s: Store, a: Action, l: Id)
    requires Shape(s)
    ensures LinkOk(Step(s, a).disk.meta, l)
  {
    var t := Step(s, a);
    assert t.disk.meta == s.disk.meta || t.disk.meta == t.meta;
    assert LinkOk(s.disk.meta, l);
    StepKeepsLink(s, a, l);
  }

  lemma StepKeepsInv(s: Store, a: Action)
    requires Inv(s)
    ensures Inv(Step(s, a))
  {
    StepConserves(s, a);
    forall id { StepKeepsId(s, a, id); }
    forall id { StepKeepsDiskId(s, a, id); }
    forall l { StepKeepsLink(s, a, l); }
    forall l { StepKeepsDiskLink(s, a, l); }
  }

  // ---------------------------------------------------------------- the quota

  lemma WrittenWithinHeld(s: Store, u: Id)
    requires Inv(s) && u in s.uploads && s.uploads[u].phase.Synced?
    ensures s.uploads[u].written == s.uploads[u].Held()
  {
    assert IdOk(s, u);
  }

  lemma StepKeepsQuota(s: Store, a: Action)
    requires Inv(s) && WithinQuota(s)
    ensures WithinQuota(Step(s, a))
  {
    if a.Delete? {
      DeleteConserves(s, a);
      SizesNonNegative(s);
    } else if a.Commit? && Enabled(s, a) {
      WrittenWithinHeld(s, a.upload);
      assert IdOk(s, a.upload);
    } else if a.Settle? && Enabled(s, a) {
      assert IdOk(s, a.upload);
    } else if a.Release? && Enabled(s, a) {
      assert IdOk(s, a.upload);
    }
  }

  /** The second quota check, made at commit after the bytes were streamed, never refuses an upload. */
  lemma CommitAlwaysFits(s: Store, u: Id, now: Time)
    requires Inv(s) && WithinQuota(s) && u in s.uploads && s.uploads[u].phase.Synced?
    ensures var t := CommitStep(s, u, now, true, true, true, true);
            u in t.meta.files && u in t.acked && t.used == s.used + s.uploads[u].written
  {
    WrittenWithinHeld(s, u);
    HeldWithinReserved(s, u);
  }

  /** Once every call has returned, no reservation is left behind. */
  lemma NothingReservedWhenIdle(s: Store)
    requires Inv(s) && s.uploads == map[]
    ensures s.reserved == 0
  {
    assert Holds(s.uploads) == map[];
  }

  // ---------------------------------------------------------------- crashes

  lemma CrashKeepsDisk(s: Store, a: Action, point: nat)
    requires Inv(s)
    ensures MachineInv(CrashDuring(s, a, point))
  {
    var m := CrashDuring(s, a, point);
    StepKeepsInv(s, a);
    var t := Step(s, a);
    forall l
      ensures LinkOk(m.disk.meta, l)
    {
      assert LinkOk(s.disk.meta, l) && LinkOk(t.disk.meta, l);
    }
    forall id
      ensures DiskIdOk(m.disk, m.issued, m.acked, m.gone, id)
    {
      CrashKeepsDiskId(s, a, point, id);
    }
  }

  lemma CrashKeepsDiskId(s: Store, a: Action, point: nat, id: Id)
    requires Shape(s)
    ensures var m := CrashDuring(s, a, point); DiskIdOk(m.disk, m.issued, m.acked, m.gone, id)
  {
    assert IdOk(s, id) && DiskIdOk(s.disk, s.issued, s.acked, s.gone, id);
    var d := DiskDuring(s, a, point);
    if d == Step(s, a).disk {
      StepKeepsDiskId(s, a, id);
    } else if d != s.disk {
      assert d.meta == s.disk.meta;
    }
  }

  /** The disk serves, at any crash point, the files served before plus at most the one being committed. */
  lemma CrashRecoverableId(s: Store, a: Action, point: nat, id: Id)
    requires Shape(s) && id in Recoverable(DiskDuring(s, a, point))
    ensures var size := Recoverable(DiskDuring(s, a, point))[id];
            || (id in s.meta.files && size == s.meta.files[id].size)
            || (a.Commit? && Enabled(s, a) && id == a.upload && size == s.uploads[id].written)
  {
    assert IdOk(s, id);
  }

  lemma ReservedNonNegative(s: Store)
    requires Inv(s)
    ensures 0 <= s.reserved
  {
    forall u | u in s.uploads
      ensures 0 <= s.uploads[u].Held()
    {
      assert IdOk(s, u);
    }
    TotalNonNegative(Holds(s.uploads));
  }

  lemma CrashKeepsQuota(s: Store, a: Action, point: nat)
    requires Inv(s) && WithinQuota(s)
    ensures Total(Recoverable(DiskDuring(s, a, point))) <= s.quota
  {
    var after := Recoverable(DiskDuring(s, a, point));
    var before := Sizes(s.meta.files);
    SizesNonNegative(s);
    ReservedNonNegative(s);
    forall id | id in after { CrashRecoverableId(s, a, point, id); }
    if a.Commit? && Enabled(s, a) {
      var up := s.uploads[a.upload];
      WrittenWithinHeld(s, a.upload);
      HeldWithinReserved(s, a.upload);
      assert IdOk(s, a.upload);
      TotalUpdate(before, a.upload, up.written);
      TotalMonotone(after, before[a.upload := up.written]);
    } else {
      TotalMonotone(after, before);
    }
  }

  lemma BootKeepsDisk(m: Machine, stuck: set<Id>, unread: set<Id>, persistOk: bool)
    requires m.Down? && MachineInv(m)
    ensures var after := Boot(m, stuck, unread, persistOk);
            DiskOk(if after.Up? then after.store.disk else after.disk, m.issued, Acked(after), m.gone)
  {
    var after := Boot(m, stuck, unread, persistOk);
    var d := if after.Up? then after.store.disk else after.disk;
    forall id
      ensures DiskIdOk(d, m.issued, Acked(after), m.gone, id)
    {
      assert DiskIdOk(m.disk, m.issued, m.acked, m.gone, id);
    }
    forall l
      ensures LinkOk(d.meta, l)
    {
      assert LinkOk(m.disk.meta, l);
    }
  }

  lemma BootKeepsInv(m: Machine, stuck: set<Id>, unread: set<Id>, persistOk: bool)
    requires m.Down? && MachineInv(m)
    ensures MachineInv(Boot(m, stuck, unread, persistOk))
  {
    var after := Boot(m, stuck, unread, persistOk);
    BootKeepsDisk(m, stuck, unread, persistOk);
    if after.Up? {
      forall id
        ensures IdOk(after.store, id)
      {
        assert DiskIdOk(m.disk, m.issued, m.acked, m.gone, id);
      }
      forall l
        ensures LinkOk(after.store.meta, l)
      {
        assert LinkOk(m.disk.meta, l);
      }
      assert Sizes(after.store.meta.files) == Recoverable(Seen(m.disk, unread));
      assert Holds(after.store.uploads) == map[];
    }
  }

  lemma BootKeepsQuota(m: Machine, stuck: set<Id>, unread: set<Id>, persistOk: bool)
    requires m.Down? && MachineInv(m) && MachineFits(m)
    ensures MachineFits(Boot(m, stuck, unread, persistOk))
  {
    forall id | id in Recoverable(m.disk)
      ensures 0 <= Recoverable(m.disk)[id]
    {
      assert DiskIdOk(m.disk, m.issued, m.acked, m.gone, id);
    }
    TotalMonotone(Recoverable(Seen(m.disk, unread)), Recoverable(m.disk));
    TotalMonotone(Recoverable(Swept(m.disk, stuck, unread)), Recoverable(m.disk));
  }

  /** What a recovery leaves: the files served are exactly the blobs whose status it could read, the other blobs are
      those it could not sweep away, no partial that could be removed remains, the used counter is the bytes served
      and nothing is reserved. */
  lemma RecoveredStore(m: Machine, stuck: set<Id>, unread: set<Id>, persistOk: bool)
    requires m.Down? && MachineInv(m) && Boot(m, stuck, unread, persistOk).Up?
    ensures var s := Boot(m, stuck, unread, persistOk).store;
            && (forall id :: id in s.meta.files <==> id in m.disk.meta.files && id in m.disk.blobs && id !in unread)
            && (forall id :: id in s.disk.blobs <==> id in s.meta.files || (id in m.disk.blobs && id in stuck))
            && s.disk.partials == m.disk.partials * stuck
            && s.reserved == 0
    ensures var s := Boot(m, {}, unread, persistOk).store;
            Boot(m, {}, unread, persistOk).Up? ==>
              s.disk.blobs.Keys == s.meta.files.Keys && s.disk.partials == {} && s.used == Total(s.disk.blobs)
  {
    var s := Boot(m, {}, unread, persistOk).store;
    assert s.disk.blobs == Recoverable(Seen(m.disk, unread));
  }

  // ---------------------------------------------------------------- whole runs

  lemma MachineStepKeeps(m: Machine, e: Event)
    requires MachineInv(m)
    ensures MachineInv(MachineStep(m, e))
    ensures MachineFits(m) ==> MachineFits(MachineStep(m, e))
  {
    match e
    case Act(a) =>
      if m.Up? {
        StepKeepsInv(m.store, a);
        if WithinQuota(m.store) { StepKeepsQuota(m.store, a); }
      }
    case Crash(a, point) =>
      if m.Up? {
        CrashKeepsDisk(m.store, a, point);
        if WithinQuota(m.store) { CrashKeepsQuota(m.store, a, point); }
      }
    case Open(stuck, unread, persistOk) =>
      if m.Down? {
        BootKeepsInv(m, stuck, unread, persistOk);
        if MachineFits(m) { BootKeepsQuota(m, stuck, unread, persistOk); }
      }
  }

  lemma EmptyIsSound(quota: nat, retentionDays: int)
    ensures MachineInv(Empty(quota, retentionDays)) && MachineFits(Empty(quota, retentionDays))
  {
    var s := Empty(quota, retentionDays).store;
    assert Sizes(s.meta.files) == map[] && Holds(s.uploads) == map[];
  }

  /** So a service that starts on an empty directory keeps its counters and its quota in every run. */
  lemma EveryRunIsSound(quota: nat, retentionDays: int, events: seq<Event>)
    ensures var m := Run(Empty(quota, retentionDays), events); MachineInv(m) && MachineFits(m)
  {
    EmptyIsSound(quota, retentionDays);
    RunKeeps(Empty(quota, retentionDays), events);
  }

  /** Under any interleaving, with crashes at any disk operation and failed openings, the counters are
      the totals they stand for and the quota, once respected, always is. */
  lemma {:induction false} RunKeeps(m: Machine, events: seq<Event>)
    requires MachineInv(m)
    ensures MachineInv(Run(m, events))
    ensures MachineFits(m) ==> MachineFits(Run(m, events))
    decreases |events|
  {
    if events != [] {
      MachineStepKeeps(m, events[0]);
      RunKeeps(MachineStep(m, events[0]), events[1..]);
    }
  }

  /** An opening of the run gives the file up. */
  predicate Forfeited(m: Machine, e: Event, id: Id) {
    m.Down? && e.Open? && GivesUp(id, e.stuck, e.unread, e.persistOk)
  }

  ghost predicate EverForfeited(m: Machine, events: seq<Event>, id: Id)
    decreases |events|
  {
    events != [] && (Forfeited(m, events[0], id) || EverForfeited(MachineStep(m, events[0]), events[1..], id))
  }

  /** Through any run that does not ask for its deletion an acknowledged upload stays, with its size, exactly unless
      some opening could not read the status of its blob; and what such an opening gave up never comes back. */
  lemma {:induction false} AcknowledgedUploadSurvives(m: Machine, events: seq<Event>, id: Id)
    requires MachineInv(m) && id in Acked(m)
    requires forall e :: e in events ==> !AsksDeletion(e, id)
    ensures id in Acked(Run(m, events)) <==> !EverForfeited(m, events, id)
    ensures id in Acked(Run(m, events)) ==> Acked(Run(m, events))[id] == Acked(m)[id]
    ensures Run(m, events).Up? ==>
              var s := Run(m, events).store;
              && (id in s.meta.files <==> !EverForfeited(m, events, id))
              && (id in s.meta.files ==> s.meta.files[id].size == Acked(m)[id] && id in s.disk.blobs)
    decreases |events|
  {
    if events != [] {
      var next := MachineStep(m, events[0]);
      MachineStepKeeps(m, events[0]);
      AckedStep(m, events[0], id);
      if Forfeited(m, events[0], id) {
        ForfeitedStays(next, events[1..], id);
      } else {
        AcknowledgedUploadSurvives(next, events[1..], id);
      }
    } else if m.Up? {
      assert IdOk(m.store, id) && DiskIdOk(m.store.disk, m.store.issued, m.store.acked, m.store.gone, id);
    }
  }

  /** One acknowledged file on disk: an opening that can read its status serves it, one that cannot removes it. */
  lemma UnreadBlobIsGivenUp(f: File)
    ensures var m := Down(100, Disk(Meta(7, map[1 := f], map[]), map[1 := 5], {}), {1}, map[1 := 5], {});
            var read, unread := MachineStep(m, Open({}, {}, true)), MachineStep(m, Open({}, {1}, true));
            && MachineInv(m) && read.Up? && 1 in read.store.meta.files
            && unread.Up? && unread.store.meta.files == map[] && unread.store.disk.blobs == map[]
  {
    var m := Down(100, Disk(Meta(7, map[1 := f], map[]), map[1 := 5], {}), {1}, map[1 := 5], {});
    forall id
      ensures DiskIdOk(m.disk, m.issued, m.acked, m.gone, id)
    {
    }
    assert 1 in Seen(m.disk, {}).blobs;
    assert 1 in m.disk.meta.files && 1 !in Seen(m.disk, {1}).blobs;
  }

  /** Neither the metadata in memory nor metadata and blob on disk have the file, and no upload can bring it. */
  predicate IsLost(m: Machine, id: Id) {
    match m
    case Up(s) =>
      id in s.issued && id !in s.uploads && id !in s.meta.files && !(id in s.disk.meta.files && id in s.disk.blobs) && id !in s.acked
    case Down(_, disk, issued, acked, _) => id in issued && !(id in disk.meta.files && id in disk.blobs) && id !in acked
  }

  lemma StepKeepsLost(s: Store, a: Action, id: Id)
    requires IsLost(Up(s), id)
    ensures IsLost(Up(Step(s, a)), id)
  {
  }

  lemma CrashKeepsLost(s: Store, a: Action, point: nat, id: Id)
    requires IsLost(Up(s), id)
    ensures IsLost(CrashDuring(s, a, point), id)
  {
    StepKeepsLost(s, a, id);
  }

  lemma {:induction false} ForfeitedStays(m: Machine, events: seq<Event>, id: Id)
    requires IsLost(m, id)
    ensures IsLost(Run(m, events), id)
    decreases |events|
  {
    if events != [] {
      if m.Up? && events[0].Act? {
        StepKeepsLost(m.store, events[0].action, id);
      } else if m.Up? && events[0].Crash? {
        CrashKeepsLost(m.store, events[0].during, events[0].point, id);
      }
      ForfeitedStays(MachineStep(m, events[0]), events[1..], id);
    }
  }

  lemma GoneStep(m: Machine, e: Event, id: Id)
    requires id in Gone(m)
    ensures id in Gone(MachineStep(m, e))
  {
  }

  lemma AckedStep(m: Machine, e: Event, id: Id)
    requires MachineInv(m) && id in Acked(m) && !AsksDeletion(e, id)
    ensures Forfeited(m, e, id) ==> IsLost(MachineStep(m, e), id)
    ensures !Forfeited(m, e, id) ==> id in Acked(MachineStep(m, e)) && Acked(MachineStep(m, e))[id] == Acked(m)[id]
  {
    if m.Up? && e.Act? {
      StepKeepsAcked(m.store, e.action, id);
    } else if m.Down? {
      assert DiskIdOk(m.disk, m.issued, m.acked, m.gone, id);
    }
  }

  lemma StepKeepsAcked(s: Store, a: Action, id: Id)
    requires Shape(s) && id in s.acked && !(a.Delete? && a.id == id)
    ensures id in Step(s, a).acked && Step(s, a).acked[id] == s.acked[id]
  {
    if a.Commit? {
      assert IdOk(s, a.upload);
    }
  }

  /** An acknowledged deletion is never undone, not even by a crash and recovery. */
  lemma {:induction false} AcknowledgedDeletionStands(m: Machine, events: seq<Event>, id: Id)
    requires MachineInv(m) && id in Gone(m)
    ensures id in Gone(Run(m, events))
    ensures Run(m, events).Up? ==> id !in Run(m, events).store.meta.files
    decreases |events|
  {
    if events != [] {
      MachineStepKeeps(m, events[0]);
      GoneStep(m, events[0], id);
      AcknowledgedDeletionStands(MachineStep(m, events[0]), events[1..], id);
    } else if m.Up? {
      assert IdOk(m.store, id) && DiskIdOk(m.store.disk, m.store.issued, m.store.acked, m.store.gone, id);
    }
  }
}
