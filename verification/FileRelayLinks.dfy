/** How long files and download links live, over whole runs with crashes (internal/fileshare/service.go). */
module FileRelayLinks {
  import opened Basics
  import opened FileRelay
  import opened FileRelayProofs

  // ---------------------------------------------------------------- where a file and a link come from

  predicate Asks(e: Event, a: Action) {
    (e.Act? && e.action == a) || (e.Crash? && e.during == a)
  }

  /** A commit that went through at this time: the file expires the retention days after it. */
  ghost predicate CommittedBy(e: Event, id: Id, expires: Time, days: int) {
    exists now, undoOk :: Asks(e, Commit(id, now, true, true, true, undoOk)) && expires == now + days * 24 * 3600 * 1_000_000_000
  }

  /** A link that was asked for at `now` for one of four durations: it expires after it or with its file, whichever is
      first. */
  predicate MadeAt(link: Link, now: Time, duration: Time, fileExpires: Time) {
    && (duration == 600 * 1_000_000_000 || duration == 3600 * 1_000_000_000
        || duration == 24 * 3600 * 1_000_000_000 || duration == 7 * 24 * 3600 * 1_000_000_000)
    && now < fileExpires
    && link.expires <= now + duration && link.expires <= fileExpires
    && (link.expires == now + duration || link.expires == fileExpires)
  }

  ghost predicate CreatedBy(e: Event, l: Id, link: Link, fileExpires: Time) {
    exists now, duration ::
      Asks(e, CreateLink(l, link.file, link.digest, now, duration, true, true)) && MadeAt(link, now, duration, fileExpires)
  }

  ghost predicate FileExplained(past: seq<Event>, m: Meta, days: int, id: Id) {
    id in m.files ==> exists k :: 0 <= k < |past| && CommittedBy(past[k], id, m.files[id].expires, days)
  }

  ghost predicate LinkExplained(past: seq<Event>, m: Meta, l: Id) {
    l in m.links ==>
      m.links[l].file in m.files
      && exists k :: 0 <= k < |past| && CreatedBy(past[k], l, m.links[l], m.files[m.links[l].file].expires)
  }

  ghost predicate Explained(past: seq<Event>, m: Meta, days: int) {
    && m.retentionDays == days
    && (forall id {:trigger FileExplained(past, m, days, id)} :: FileExplained(past, m, days, id))
    && (forall l {:trigger LinkExplained(past, m, l)} :: LinkExplained(past, m, l))
  }

  /** The metadata in memory, and the metadata on disk. */
  ghost predicate AllExplained(past: seq<Event>, m: Machine, days: int) {
    match m
    case Up(s) => Explained(past, s.meta, days) && Explained(past, s.disk.meta, days)
    case Down(_, disk, _, _, _) => Explained(past, disk.meta, days)
  }

  lemma StillExplained(past: seq<Event>, e: Event, m: Meta, days: int)
    requires Explained(past, m, days)
    ensures Explained(past + [e], m, days)
  {
    forall id
      ensures FileExplained(past + [e], m, days, id)
    {
      assert FileExplained(past, m, days, id);
      if k :| id in m.files && 0 <= k < |past| && CommittedBy(past[k], id, m.files[id].expires, days) {
        assert (past + [e])[k] == past[k];
      }
    }
    forall l
      ensures LinkExplained(past + [e], m, l)
    {
      assert LinkExplained(past, m, l);
      if l in m.links {
        var k :| 0 <= k < |past| && CreatedBy(past[k], l, m.links[l], m.files[m.links[l].file].expires);
        assert (past + [e])[k] == past[k];
      }
    }
  }

  /** A file after the action was there before and keeps its expiry, or this action committed it. */
  predicate FileFrom(before: Meta, a: Action, after: Meta, id: Id) {
    id in after.files ==>
      || (id in before.files && before.files[id].expires == after.files[id].expires)
      || (a.Commit? && a.upload == id && a.allowed && a.renameOk && a.persistOk
          && after.files[id].expires == a.now + before.retentionDays * 24 * 3600 * 1_000_000_000)
  }

  /** A link after the action was there before, or this action made it. */
  predicate LinkFrom(before: Meta, a: Action, after: Meta, l: Id) {
    l in after.links ==>
      var link := after.links[l];
      && link.file in after.files && link.file in before.files
      && before.files[link.file].expires == after.files[link.file].expires
      && (|| (l in before.links && link == before.links[l].(revoked := link.revoked))
          || (a.CreateLink? && a.link == l && a.id == link.file && a.digest == link.digest && a.allowed && a.persistOk
              && MadeAt(link, a.now, a.duration, before.files[a.id].expires)))
  }

  lemma StepFile(s: Store, a: Action, id: Id)
    requires Shape(s)
    ensures FileFrom(s.meta, a, Step(s, a).meta, id)
  {
    if a.Commit? {
      assert IdOk(s, a.upload);
    }
  }

  lemma DeleteLinkFrom(s: Store, a: Action, l: Id)
    requires Shape(s) && a.Delete?
    ensures LinkFrom(s.meta, a, Step(s, a).meta, l)
  {
    assert LinkOk(s.meta, l);
  }

  lemma CommitLinkFrom(s: Store, a: Action, l: Id)
    requires Shape(s) && a.Commit?
    ensures LinkFrom(s.meta, a, Step(s, a).meta, l)
  {
    assert LinkOk(s.meta, l);
    assert IdOk(s, a.upload);
  }

  lemma CreateLinkFrom(s: Store, a: Action, l: Id)
    requires Shape(s) && a.CreateLink?
    ensures LinkFrom(s.meta, a, Step(s, a).meta, l)
  {
    assert LinkOk(s.meta, l);
  }

  lemma StepLink(s: Store, a: Action, l: Id)
    requires Shape(s)
    ensures LinkFrom(s.meta, a, Step(s, a).meta, l)
  {
    assert LinkOk(s.meta, l);
    if a.Delete? {
      DeleteLinkFrom(s, a, l);
    } else if a.Commit? {
      CommitLinkFrom(s, a, l);
    } else if a.CreateLink? {
      CreateLinkFrom(s, a, l);
    }
  }

  /** The metadata on disk are those of before or those in memory now. */
  lemma DiskMetaDuring(s: Store, a: Action, point: nat)
    ensures var d := DiskDuring(s, a, point).meta; d == s.disk.meta || d == Step(s, a).meta
    ensures Step(s, a).disk.meta == s.disk.meta || Step(s, a).disk.meta == Step(s, a).meta
    ensures Step(s, a).meta.retentionDays == s.meta.retentionDays
  {
  }

  lemma FileStaysExplained(past: seq<Event>, e: Event, a: Action, before: Meta, after: Meta, days: int, id: Id)
    requires FileExplained(past, before, days, id) && FileFrom(before, a, after, id) && before.retentionDays == days
    requires e == Act(a) || (e.Crash? && e.during == a)
    ensures FileExplained(past + [e], after, days, id)
  {
    if id in after.files {
      if id in before.files && before.files[id].expires == after.files[id].expires {
        var k :| 0 <= k < |past| && CommittedBy(past[k], id, before.files[id].expires, days);
        assert CommittedBy((past + [e])[k], id, after.files[id].expires, days);
      } else {
        assert Asks(e, Commit(id, a.now, true, true, true, a.undoOk));
        assert CommittedBy((past + [e])[|past|], id, after.files[id].expires, days);
      }
    }
  }

  lemma LinkStaysExplained(past: seq<Event>, e: Event, a: Action, before: Meta, after: Meta, l: Id)
    requires LinkExplained(past, before, l) && LinkFrom(before, a, after, l)
    requires e == Act(a) || (e.Crash? && e.during == a)
    ensures LinkExplained(past + [e], after, l)
  {
    if l in after.links {
      var link, end := after.links[l], after.files[after.links[l].file].expires;
      if l in before.links && link == before.links[l].(revoked := link.revoked) {
        var k :| 0 <= k < |past| && CreatedBy(past[k], l, before.links[l], end);
        var now, duration :| Asks(past[k], CreateLink(l, link.file, link.digest, now, duration, true, true))
                             && MadeAt(before.links[l], now, duration, end);
        assert MadeAt(link, now, duration, end);
        assert CreatedBy((past + [e])[k], l, link, end);
      } else {
        assert Asks(e, CreateLink(l, link.file, link.digest, a.now, a.duration, true, true));
        assert CreatedBy((past + [e])[|past|], l, link, end);
      }
    }
  }

  lemma StepStaysExplained(past: seq<Event>, e: Event, s: Store, a: Action, days: int)
    requires Shape(s) && Explained(past, s.meta, days) && (e == Act(a) || (e.Crash? && e.during == a))
    ensures Explained(past + [e], Step(s, a).meta, days)
  {
    DiskMetaDuring(s, a, 0);
    forall id
      ensures FileExplained(past + [e], Step(s, a).meta, days, id)
    {
      assert FileExplained(past, s.meta, days, id);
      StepFile(s, a, id);
      FileStaysExplained(past, e, a, s.meta, Step(s, a).meta, days, id);
    }
    forall l
      ensures LinkExplained(past + [e], Step(s, a).meta, l)
    {
      assert LinkExplained(past, s.meta, l);
      StepLink(s, a, l);
      LinkStaysExplained(past, e, a, s.meta, Step(s, a).meta, l);
    }
  }

  /** Recovery keeps the expiry of what it keeps. */
  lemma RecoveryStaysExplained(past: seq<Event>, d: Disk, unread: set<Id>, days: int)
    requires Explained(past, d.meta, days) && LinksOk(d.meta)
    ensures Explained(past, RecoveredMeta(Seen(d, unread)), days)
  {
    var m := RecoveredMeta(Seen(d, unread));
    forall id
      ensures FileExplained(past, m, days, id)
    {
      assert FileExplained(past, d.meta, days, id);
    }
    forall l
      ensures LinkExplained(past, m, l)
    {
      assert LinkExplained(past, d.meta, l) && LinkOk(d.meta, l);
    }
  }

  lemma EventStaysExplained(past: seq<Event>, m: Machine, e: Event, days: int)
    requires MachineInv(m) && AllExplained(past, m, days)
    ensures AllExplained(past + [e], MachineStep(m, e), days)
  {
    match m
    case Up(s) =>
      StillExplained(past, e, s.meta, days);
      StillExplained(past, e, s.disk.meta, days);
      if e.Act? {
        DiskMetaDuring(s, e.action, 0);
        StepStaysExplained(past, e, s, e.action, days);
      } else if e.Crash? {
        DiskMetaDuring(s, e.during, e.point);
        StepStaysExplained(past, e, s, e.during, days);
      }
    case Down(_, disk, _, _, _) =>
      StillExplained(past, e, disk.meta, days);
      if e.Open? {
        RecoveryStaysExplained(past + [e], disk, e.unread, days);
      }
  }

  lemma {:induction false} RunStaysExplained(past: seq<Event>, m: Machine, events: seq<Event>, days: int)
    requires MachineInv(m) && AllExplained(past, m, days)
    ensures AllExplained(past + events, Run(m, events), days)
    decreases |events|
  {
    if events == [] {
      assert past + events == past;
    } else {
      MachineStepKeeps(m, events[0]);
      EventStaysExplained(past, m, events[0], days);
      RunStaysExplained(past + [events[0]], MachineStep(m, events[0]), events[1..], days);
      assert past + [events[0]] + events[1..] == past + events;
    }
  }

  /** In every run of a service that started on an empty directory: a file expires the retention days after the commit
      that made it. */
  lemma FileExpiresAfterRetention(quota: nat, days: int, events: seq<Event>, id: Id)
    requires var m := Run(Empty(quota, days), events); m.Up? && id in m.store.meta.files
    ensures exists k :: 0 <= k < |events| && CommittedBy(events[k], id, Run(Empty(quota, days), events).store.meta.files[id].expires, days)
  {
    EmptyIsSound(quota, days);
    RunStaysExplained([], Empty(quota, days), events, days);
    assert [] + events == events;
    assert FileExplained(events, Run(Empty(quota, days), events).store.meta, days, id);
  }

  /** A download at this time would be served through this link. */
  predicate LiveLink(s: Store, l: Id, id: Id, digest: string, now: Time) {
    l in s.meta.links && s.meta.links[l].file == id && s.meta.links[l].digest == digest && !s.meta.links[l].revoked && now < s.meta.links[l].expires
  }

  /** In every such run a link that serves a download was asked for, for this file and with this token, for one of the
      four durations, and that duration is not over; nor is the retention of the file. */
  lemma NoDownloadAfterItsTime(quota: nat, days: int, events: seq<Event>, l: Id, id: Id, digest: string, now: Time)
    requires var m := Run(Empty(quota, days), events); m.Up? && LiveLink(m.store, l, id, digest, now)
    ensures exists k, made, duration ::
              0 <= k < |events| && Asks(events[k], CreateLink(l, id, digest, made, duration, true, true)) && now < made + duration
    ensures exists k, committed, undoOk ::
              0 <= k < |events| && Asks(events[k], Commit(id, committed, true, true, true, undoOk)) && now < committed + days * 24 * 3600 * 1_000_000_000
  {
    EmptyIsSound(quota, days);
    RunKeeps(Empty(quota, days), events);
    RunStaysExplained([], Empty(quota, days), events, days);
    assert [] + events == events;
    var meta := Run(Empty(quota, days), events).store.meta;
    assert LinkExplained(events, meta, l) && FileExplained(events, meta, days, id);
    var k :| 0 <= k < |events| && CreatedBy(events[k], l, meta.links[l], meta.files[id].expires);
    var made, duration :| Asks(events[k], CreateLink(l, id, digest, made, duration, true, true)) && MadeAt(meta.links[l], made, duration, meta.files[id].expires);
    assert now < made + duration;
    var j :| 0 <= j < |events| && CommittedBy(events[j], id, meta.files[id].expires, days);
    var committed, undoOk :| Asks(events[j], Commit(id, committed, true, true, true, undoOk)) && meta.files[id].expires == committed + days * 24 * 3600 * 1_000_000_000;
    assert now < committed + days * 24 * 3600 * 1_000_000_000;
  }

  // ---------------------------------------------------------------- a link serves until then

  /** The link stands like this in memory and on disk, and its file was acknowledged. */
  predicate Stands(m: Machine, l: Id, link: Link) {
    match m
    case Up(s) =>
      l in s.meta.links && s.meta.links[l] == link && l in s.disk.meta.links && s.disk.meta.links[l] == link && link.file in s.acked
    case Down(_, disk, _, acked, _) => l in disk.meta.links && disk.meta.links[l] == link && link.file in acked
  }

  predicate AsksRevocation(e: Event, l: Id) {
    (e.Act? && e.action.RevokeLink? && e.action.link == l) || (e.Crash? && e.during.RevokeLink? && e.during.link == l)
  }

  lemma StepKeepsStanding(s: Store, a: Action, l: Id, link: Link)
    requires Shape(s) && Stands(Up(s), l, link)
    requires !(a.Delete? && a.id == link.file) && !(a.RevokeLink? && a.link == l)
    ensures Stands(Up(Step(s, a)), l, link)
  {
    if a.Commit? {
      assert IdOk(s, a.upload);
    }
  }

  lemma EventKeepsStanding(m: Machine, e: Event, l: Id, link: Link)
    requires MachineInv(m) && Stands(m, l, link)
    requires !AsksDeletion(e, link.file) && !AsksRevocation(e, l) && !Forfeited(m, e, link.file)
    ensures Stands(MachineStep(m, e), l, link)
  {
    match m
    case Up(s) =>
      if e.Act? {
        StepKeepsStanding(s, e.action, l, link);
      } else if e.Crash? {
        StepKeepsStanding(s, e.during, l, link);
        DiskMetaDuring(s, e.during, e.point);
      }
    case Down(_, disk, issued, acked, gone) =>
      assert DiskIdOk(disk, issued, acked, gone, link.file);
  }

  /** A link that was made serves downloads at any moment before its expiry, through failing writes, crashes and
      restarts, unless its revocation or the deletion of its file was asked for or an opening gave the file up. */
  lemma {:induction false} LinkServes(m: Machine, events: seq<Event>, l: Id, link: Link, now: Time)
    requires MachineInv(m) && Stands(m, l, link) && !link.revoked
    requires forall e :: e in events ==> !AsksDeletion(e, link.file) && !AsksRevocation(e, l)
    requires !EverForfeited(m, events, link.file)
    ensures Run(m, events).Up? ==> (LiveLink(Run(m, events).store, l, link.file, link.digest, now) <==> now < link.expires)
    decreases |events|
  {
    if events != [] {
      assert events[0] in events;
      MachineStepKeeps(m, events[0]);
      EventKeepsStanding(m, events[0], l, link);
      LinkServes(MachineStep(m, events[0]), events[1..], l, link, now);
    }
  }

  /** A link whose creation ended well stands. */
  lemma CreatedLinkStands(s: Store, l: Id, id: Id, digest: string, now: Time, duration: Time, allowed: bool, persistOk: bool)
    requires l !in s.meta.links && id in s.acked
    ensures var t := Step(s, CreateLink(l, id, digest, now, duration, allowed, persistOk));
            l in t.meta.links ==> Stands(Up(t), l, t.meta.links[l]) && !t.meta.links[l].revoked
                                  && t.meta.links[l].file == id && t.meta.links[l].digest == digest
  {
  }

  // ---------------------------------------------------------------- a revoked link serves nothing

  predicate DeadIn(m: Meta, l: Id) {
    l in m.links ==> m.links[l].revoked
  }

  predicate Dead(m: Machine, l: Id) {
    match m
    case Up(s) => DeadIn(s.meta, l) && DeadIn(s.disk.meta, l)
    case Down(_, disk, _, _, _) => DeadIn(disk.meta, l)
  }

  predicate AsksLink(e: Event, l: Id) {
    (e.Act? && e.action.CreateLink? && e.action.link == l) || (e.Crash? && e.during.CreateLink? && e.during.link == l)
  }

  lemma StepKeepsDead(s: Store, a: Action, l: Id)
    requires DeadIn(s.meta, l) && !(a.CreateLink? && a.link == l)
    ensures DeadIn(Step(s, a).meta, l)
  {
  }

  lemma EventKeepsDead(m: Machine, e: Event, l: Id)
    requires Dead(m, l) && !AsksLink(e, l)
    ensures Dead(MachineStep(m, e), l)
  {
    if m.Up? && e.Act? {
      StepKeepsDead(m.store, e.action, l);
      DiskMetaDuring(m.store, e.action, 0);
    } else if m.Up? && e.Crash? {
      StepKeepsDead(m.store, e.during, l);
      DiskMetaDuring(m.store, e.during, e.point);
    }
  }

  /** A revocation that was written stands for good: the link serves no download any more, whatever follows. */
  lemma {:induction false} RevokedServesNothing(m: Machine, events: seq<Event>, l: Id, id: Id, digest: string, now: Time)
    requires Dead(m, l) && forall e :: e in events ==> !AsksLink(e, l)
    ensures Run(m, events).Up? ==> !LiveLink(Run(m, events).store, l, id, digest, now)
    decreases |events|
  {
    if events != [] {
      assert events[0] in events;
      EventKeepsDead(m, events[0], l);
      RevokedServesNothing(MachineStep(m, events[0]), events[1..], l, id, digest, now);
    }
  }

  lemma WrittenRevocationIsDead(s: Store, l: Id, id: Id)
    requires l in s.meta.links && s.meta.links[l].file == id
    ensures Dead(Up(Step(s, RevokeLink(l, id, true))), l)
  {
  }
}
