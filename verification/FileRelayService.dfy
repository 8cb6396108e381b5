/** The file relay service itself, field by field and critical section by critical section, proved to
    take the steps of the state machine (internal/fileshare/service.go). */
module FileRelayService {
  import opened Basics
  import opened Totals
  import opened FileRelay
  import opened FileRelayProofs
  import opened FileRelayLinks

  datatype Download = NotFound | Expired | Opened(size: int)

  class Service {
    const quota: int
    var used: int
    var reserved: int
    var retentionDays: int
    var files: map<Id, File>
    var links: map<Id, Link>
    var uploads: map<Id, Upload>  // the locals of the upload calls in flight
    var disk: Disk
    ghost var issued: set<Id>
    ghost var acked: map<Id, int>
    ghost var gone: set<Id>

    ghost function View(): Store
      reads this
    {
      Store(quota, used, reserved, Meta(retentionDays, files, links), uploads, disk, issued, acked, gone)
    }

    ghost predicate Valid()
      reads this
    {
      Inv(View())
    }

    method Persist(writeOk: bool) returns (ok: bool)
      modifies this`disk
      ensures ok == writeOk && View() == FileRelay.Persist(old(View()), writeOk)
    {
      ok := writeOk;
      if ok {
        disk := disk.(meta := Meta(retentionDays, files, links));
      }
    }

    /** The admission test of an upload; on success its reservation is held. */
    method BeginUpload(u: Id, validName: bool, expected: int, available: Option<int>) returns (ok: bool)
      requires Valid() && u !in issued
      modifies this
      ensures Valid() && View() == Step(old(View()), Begin(u, validName, expected, available))
      ensures ok <==> validName && 0 <= expected && old(used) + old(reserved) + expected <= quota && expected <= quota
                      && (0 < expected && available.Some? ==> expected + 512 * 1024 * 1024 <= available.value)
      ensures ok <==> u in uploads
      ensures files == old(files) && links == old(links) && used == old(used)
      ensures reserved == old(reserved) + if ok then expected else 0
    {
      StepKeepsInv(View(), Begin(u, validName, expected, available));
      assert IdOk(View(), u);
      if !validName || expected < 0 || expected > quota {
        return false;
      }
      if used + reserved + expected > quota {
        return false;
      }
      if expected > 0 {
        if available.Some? && available.value < expected + DISK_SAFETY_BYTES {
          return false;
        }
      }
      reserved := reserved + expected;
      uploads := uploads[u := Upload(expected, expected, 0, 0, 0, Reserved)];
      issued := issued + {u};
      ok := true;
    }

    /** quotaWriter.Write up to the write itself. */
    method AcquireChunk(u: Id, need: nat, available: Option<int>) returns (ok: bool)
      requires Valid() && Enabled(View(), Acquire(u, need, available))
      modifies this
      ensures Valid() && View() == Step(old(View()), Acquire(u, need, available))
      ensures ok <==> uploads[u].phase.Writing?
      ensures files == old(files) && links == old(links) && used == old(used)
      ensures var up := old(uploads[u]);
              ok <==> old(used) + old(reserved) + need <= quota
                      && (up.acquired == 0 || up.sinceCheck + need >= 16 * 1024 * 1024 ==>
                            available.Some? ==> need + 512 * 1024 * 1024 <= available.value)
      ensures reserved == old(reserved) + if ok then need else 0
    {
      StepKeepsInv(View(), Acquire(u, need, available));
      var up := uploads[u];
      if used + reserved + need > quota {
        uploads := uploads[u := up.(phase := Failed)];
        return false;
      }
      var sinceCheck := up.sinceCheck + need;
      if up.acquired == 0 || sinceCheck >= DISK_CHECK_BYTES {
        if available.Some? && available.value < need + DISK_SAFETY_BYTES {
          uploads := uploads[u := up.(phase := Failed)];
          return false;
        }
        sinceCheck := 0;
      }
      reserved := reserved + need;
      uploads := uploads[u := up.(acquired := up.acquired + need, sinceCheck := sinceCheck, phase := Writing(need))];
      ok := true;
    }

    /** The rest of quotaWriter.Write: what a short write did not use is given back. */
    method SettleChunk(u: Id, n: nat)
      requires Valid() && Enabled(View(), Settle(u, n))
      modifies this
      ensures Valid() && View() == Step(old(View()), Settle(u, n))
    {
      StepKeepsInv(View(), Settle(u, n));
      var up := uploads[u];
      if n < up.phase.need {
        var unused := up.phase.need - n;
        reserved := reserved - unused;
        uploads := uploads[u := up.(written := up.written + n, acquired := up.acquired - unused, phase := Failed)];
      } else {
        uploads := uploads[u := up.(written := up.written + n, phase := Streaming)];
      }
    }

    /** The last critical section of an upload: publish the file or undo everything. */
    method CommitUpload(u: Id, now: Time, allowed: bool, renameOk: bool, persistOk: bool, undoOk: bool)
      returns (ok: bool)
      requires Valid() && Enabled(View(), Commit(u, now, allowed, renameOk, persistOk, undoOk))
      modifies this
      ensures Valid() && View() == Step(old(View()), Commit(u, now, allowed, renameOk, persistOk, undoOk))
      ensures ok <==> u in files
      ensures ok <==> allowed && renameOk && persistOk && old(used) + old(uploads[u].written) <= quota
      ensures files == if ok then old(files)[u := File(old(uploads[u].written), Ready, now + retentionDays * 24 * 3600 * 1_000_000_000, 1)]
                       else old(files)
      ensures ok ==> u in disk.blobs && disk.blobs[u] == old(uploads[u].written) && disk.meta.files == files
      ensures links == old(links) && used == old(used) + if ok then old(uploads[u].written) else 0
    {
      StepKeepsInv(View(), Commit(u, now, allowed, renameOk, persistOk, undoOk));
      assert IdOk(View(), u);
      ok := CommitFields(u, now, allowed, renameOk, persistOk, undoOk);
    }

    method CommitFields(u: Id, now: Time, allowed: bool, renameOk: bool, persistOk: bool, undoOk: bool)
      returns (ok: bool)
      requires Enabled(View(), Commit(u, now, allowed, renameOk, persistOk, undoOk)) && IdOk(View(), u)
      modifies this
      ensures View() == CommitStep(old(View()), u, now, allowed, renameOk, persistOk, undoOk)
      ensures ok <==> u in files
    {
      var up := uploads[u];
      reserved := reserved - up.Held();
      if used + up.written > quota || !allowed || !renameOk {
        uploads := uploads[u := up.(reserve := 0, acquired := 0, phase := Failed)];
        return false;
      }
      ok := Publish(u, up.written, now + retentionDays * DAY, persistOk, undoOk);
      uploads := uploads[u := up.(reserve := 0, acquired := 0, phase := if ok then Committed else Failed)];
      if ok {
        acked := acked[u := up.written];
      }
    }

    /** The commit proper: rename, record, count and persist, undone as far as possible when that fails. */
    method Publish(u: Id, size: int, expires: Time, persistOk: bool, undoOk: bool) returns (ok: bool)
      requires u !in files
      modifies this`disk, this`files, this`used
      ensures ok == persistOk
      ensures used == old(used) + (if ok then size else 0)
      ensures files == if ok then old(files)[u := File(size, Ready, expires, 1)] else old(files)
      ensures disk.partials == old(disk.partials) - {u}
      ensures disk.blobs == if ok || !undoOk then old(disk.blobs)[u := size] else Without(old(disk.blobs)[u := size], u)
      ensures disk.meta == if ok then Meta(retentionDays, files, links) else old(disk.meta)
    {
      ghost var filesBefore := files;
      disk := disk.(blobs := disk.blobs[u := size], partials := disk.partials - {u});
      files := files[u := File(size, Ready, expires, 1)];
      used := used + size;
      ok := Persist(persistOk);
      if !ok {
        files := Without(files, u);
        used := used - size;
        if undoOk {
          disk := disk.(blobs := Without(disk.blobs, u));
        }
        assert files == filesBefore;
      }
    }

    method RemoveLinksTo(id: Id)
      modifies this`links
      ensures links == LinksNotTo(old(links), id)
    {
      var todo := links.Keys;
      while todo != {}
        invariant todo <= old(links).Keys
        invariant links == map l | l in old(links) && (l in todo || old(links)[l].file != id) :: old(links)[l]
        decreases |todo|
      {
        var l :| l in todo;
        if links[l].file == id {
          links := Without(links, l);
        }
        todo := todo - {l};
      }
    }

    method Delete(id: Id, removal: Removal, persistOk: bool) returns (ok: bool)
      requires Valid()
      modifies this
      ensures Valid() && View() == Step(old(View()), FileRelay.Delete(id, removal, persistOk))
      ensures ok <==> id !in old(files) || (!removal.Refused? && persistOk)
      ensures ok ==> id !in files
      ensures id in files ==> files[id].status.DeleteFailed? && used == old(used) && !(exists l :: l in links && links[l].file == id)
      ensures forall x :: x != id ==> (x in files <==> x in old(files)) && (x in files ==> files[x] == old(files)[x])
      ensures forall l :: l in old(links) && old(links)[l].file != id ==> l in links && links[l] == old(links)[l]
    {
      StepKeepsInv(View(), FileRelay.Delete(id, removal, persistOk));
      DeleteConserves(View(), FileRelay.Delete(id, removal, persistOk));
      ok := DeleteFields(id, removal, persistOk);
    }

    method DeleteFields(id: Id, removal: Removal, persistOk: bool) returns (ok: bool)
      modifies this
      ensures View() == DeleteStep(old(View()), id, removal, persistOk)
      ensures ok <==> id !in old(files) || (!removal.Refused? && persistOk)
    {
      if id !in files {
        return true;
      }
      var record := files[id];
      RemoveLinksTo(id);
      acked := Without(acked, id);
      if removal.Refused? {
        files := files[id := record.(status := DeleteFailed, revision := record.revision + 2)];
        ok := Persist(persistOk);
        return false;
      }
      disk := disk.(blobs := Without(disk.blobs, id));
      files := Without(files, id);
      used := Max(0, used - record.size);
      if persistOk {
        gone := gone + {id};
      }
      ok := Persist(persistOk);
    }

    method CreateLink(l: Id, id: Id, digest: string, now: Time, duration: Time, allowed: bool, persistOk: bool)
      returns (ok: bool)
      requires Valid() && l !in links
      modifies this
      ensures Valid() && View() == Step(old(View()), FileRelay.CreateLink(l, id, digest, now, duration, allowed, persistOk))
      ensures ok <==> l in links
      ensures ok <==> id in files && files[id].status.Ready? && now < files[id].expires && allowed && persistOk
                      && (duration == 10 * MINUTE || duration == 60 * MINUTE || duration == 24 * 60 * MINUTE || duration == 7 * 24 * 60 * MINUTE)
      ensures ok ==> links == old(links)[l := links[l]] && links[l].file == id && links[l].digest == digest && !links[l].revoked
      ensures ok ==> links[l].expires <= now + duration && links[l].expires <= files[id].expires
                     && (links[l].expires == now + duration || links[l].expires == files[id].expires)
      ensures !ok ==> links == old(links)
      ensures files == old(files) && used == old(used) && reserved == old(reserved)
    {
      StepKeepsInv(View(), FileRelay.CreateLink(l, id, digest, now, duration, allowed, persistOk));
      if !AllowedDuration(duration) || id !in files || !files[id].status.Ready? || now >= files[id].expires || !allowed {
        return false;
      }
      ghost var linksBefore := links;
      var expires := now + duration;
      if files[id].expires < expires {
        expires := files[id].expires;
      }
      links := links[l := Link(id, digest, expires, false)];
      ok := Persist(persistOk);
      if !ok {
        links := Without(links, l);
        assert links == linksBefore;
      }
    }

    /** Takes a link back. The revocation is in force at once, and for good once it is written. */
    method RevokeLink(l: Id, id: Id, persistOk: bool) returns (found: bool, ok: bool)
      requires Valid()
      modifies this`links, this`disk
      ensures Valid() && View() == Step(old(View()), FileRelay.RevokeLink(l, id, persistOk))
      ensures found <==> l in old(links) && old(links)[l].file == id
      ensures ok <==> found && persistOk
      ensures found ==> l in links && links == old(links)[l := old(links)[l].(revoked := true)]
      ensures ok ==> Dead(Up(View()), l)
    {
      StepKeepsInv(View(), FileRelay.RevokeLink(l, id, persistOk));
      if l !in links || links[l].file != id {
        return false, false;
      }
      if !links[l].revoked {
        links := links[l := links[l].(revoked := true)];
      }
      assert links == old(links)[l := old(links)[l].(revoked := true)];
      ok := Persist(persistOk);
      found := true;
    }

    /** A link that opens its file at this moment. */
    ghost predicate Live(l: Id, id: Id, digest: string, now: Time)
      reads this
    {
      LiveLink(View(), l, id, digest, now)
    }

    ghost predicate Matching(l: Id, id: Id, digest: string)
      reads this
    {
      l in links && links[l].file == id && links[l].digest == digest
    }

    /** A download is served only through a live link to a ready file; it is served whenever every link
        with that token is live. The token decides between "gone" and "not found". */
    method OpenPublicFile(id: Id, digest: string, now: Time) returns (r: Download)
      requires Valid()
      ensures r.Opened? ==> id in files && files[id].status.Ready? && r.size == files[id].size && now < files[id].expires
      ensures r.Opened? ==> exists l :: Live(l, id, digest, now)
      ensures r.Expired? ==> exists l :: Matching(l, id, digest) && !Live(l, id, digest, now)
      ensures r.NotFound? <==> (id in files ==> !files[id].status.Ready?) || !exists l :: Matching(l, id, digest)
    {
      if id !in files || !files[id].status.Ready? {
        return NotFound;
      }
      var record := files[id];
      var todo := links.Keys;
      while todo != {}
        invariant todo <= links.Keys
        invariant forall l :: Matching(l, id, digest) ==> l in todo
        decreases |todo|
      {
        var l :| l in todo;
        if links[l].file == id && links[l].digest == digest {
          assert LinkOk(View().meta, l) && Matching(l, id, digest) && IdOk(View(), id);
          if links[l].revoked || now >= links[l].expires || now >= record.expires {
            assert !Live(l, id, digest, now);
            return Expired;
          }
          assert Live(l, id, digest, now);
          return if id in disk.blobs then Opened(record.size) else NotFound;
        }
        todo := todo - {l};
      }
      r := NotFound;
    }

    /** A deletion as the clean-up sees it: the other files stay as they are. */
    method DeleteListed(id: Id, removal: Removal, persistOk: bool) returns (ok: bool)
      requires Valid()
      modifies this
      ensures Valid() && (ok ==> id !in files)
      ensures forall x :: x in files ==> x in old(files)
      ensures forall x :: x in old(files) && x != id ==> x in files && files[x] == old(files)[x]
    {
      ok := Delete(id, removal, persistOk);
    }

    /** Deletes every file that had expired, or whose deletion had failed, when the pass began. */
    method CleanupExpired(now: Time, outcomes: map<Id, (Removal, bool)>) returns (ok: bool)
      requires Valid() && forall id :: id in files ==> id in outcomes
      modifies this
      ensures Valid()
      ensures forall id :: id in files ==> id in old(files)
      ensures ok ==> forall id :: id in files ==> now < files[id].expires && files[id].status.Ready?
      ensures forall id :: id in old(files) && now < old(files)[id].expires && old(files)[id].status.Ready? ==>
                id in files && files[id] == old(files)[id]
    {
      var ids := set id | id in files && (now >= files[id].expires || files[id].status.DeleteFailed?);
      ok := true;
      ghost var done: set<Id> := {};
      while ids != {}
        invariant Valid()
        invariant ids !! done
        invariant forall id :: id in files ==> id in old(files) && id in outcomes
        invariant forall id :: id in old(files) && id !in done ==> id in files && files[id] == old(files)[id]
        invariant forall id :: id in ids || id in done <==>
                    id in old(files) && (now >= old(files)[id].expires || old(files)[id].status.DeleteFailed?)
        invariant ok ==> forall id :: id in done ==> id !in files
        decreases |ids|
      {
        var id :| id in ids;
        var deleted := DeleteListed(id, outcomes[id].0, outcomes[id].1);
        if !deleted {
          ok := false;
        }
        ids := ids - {id};
        done := done + {id};
      }
    }

    /** The pass of recovery over the records: a record goes, with its links, if the status of its blob cannot be had,
        because there is none or because reading it fails; the others take the size of their blob and are counted. */
    method DropLostFiles(unread: set<Id>) returns (changed: bool)
      requires used == 0 && Meta(retentionDays, files, links) == disk.meta
      modifies this`used, this`files, this`links
      ensures Meta(retentionDays, files, links) == RecoveredMeta(Seen(disk, unread))
      ensures used == Total(Recoverable(Seen(disk, unread)))
      ensures changed <==> FilesWereLost(Seen(disk, unread))
    {
      ghost var meta, seen := disk.meta, Seen(disk, unread);
      changed := false;
      var todo := files.Keys;
      NothingVisited(seen);
      while todo != {}
        invariant todo <= meta.files.Keys
        invariant files == Visited(seen, todo)
        invariant links == LinksVisited(seen, todo)
        invariant changed <==> exists id :: id in meta.files && id !in todo && id !in seen.blobs
        invariant used == Total(Counted(seen, todo))
        decreases |todo|
      {
        var id :| id in todo;
        if id !in disk.blobs || id in unread {
          VisitLost(seen, todo, id);
          files := Without(files, id);
          RemoveLinksTo(id);
          changed := true;
        } else {
          VisitKept(seen, todo, id);
          files := files[id := files[id].(size := disk.blobs[id], status := Ready)];
          used := used + disk.blobs[id];
        }
        todo := todo - {id};
      }
      AllVisited(seen);
    }

    /** The files that recovery removes: every partial, and every blob that has no record any more. */
    method Sweep(stuck: set<Id>, ghost unread: set<Id>)
      requires files == RecoveredFiles(Seen(disk, unread))
      modifies this`disk
      ensures disk == Swept(old(disk), stuck, unread)
    {
      var orphans := set id | id in disk.blobs && id !in files && id !in stuck;
      disk := disk.(partials := disk.partials * stuck, blobs := map id | id in disk.blobs && id !in orphans :: disk.blobs[id]);
      assert disk.blobs == old(Swept(disk, stuck, unread)).blobs;
    }

    /** Opening on an existing disk: the metadata has been loaded and nothing is in flight. */
    method Recover(stuck: set<Id>, unread: set<Id>, persistOk: bool) returns (ok: bool)
      requires DiskOk(disk, issued, acked, gone)
      requires used == 0 && reserved == 0 && uploads == map[]
      requires Meta(retentionDays, files, links) == disk.meta
      modifies this`used, this`files, this`links, this`disk, this`acked
      ensures var down := Down(quota, old(disk), issued, old(acked), gone);
              if ok then Boot(down, stuck, unread, persistOk) == Up(View()) && Valid()
              else Boot(down, stuck, unread, persistOk) == down.(disk := disk, acked := acked)
    {
      BootKeepsInv(Down(quota, disk, issued, acked, gone), stuck, unread, persistOk);
      var changed := DropLostFiles(unread);
      Sweep(stuck, unread);
      acked := NotGivenUp(acked, stuck, unread, persistOk);
      ok := true;
      if changed {
        ok := Persist(persistOk);
      }
    }
  }

  /** The records while some are still to be visited. */
  ghost function Visited(d: Disk, todo: set<Id>): map<Id, File> {
    map id | id in d.meta.files && (id in todo || id in d.blobs) ::
      if id in todo then d.meta.files[id] else d.meta.files[id].(size := d.blobs[id], status := Ready)
  }

  ghost function LinksVisited(d: Disk, todo: set<Id>): map<Id, Link> {
    map l | l in d.meta.links && (d.meta.links[l].file in d.meta.files && d.meta.links[l].file !in todo ==>
                                    d.meta.links[l].file in d.blobs) :: d.meta.links[l]
  }

  lemma NothingVisited(d: Disk)
    ensures var all := d.meta.files.Keys;
            Visited(d, all) == d.meta.files && LinksVisited(d, all) == d.meta.links && Counted(d, all) == map[]
  {
  }

  lemma AllVisited(d: Disk)
    ensures Visited(d, {}) == RecoveredFiles(d) && LinksVisited(d, {}) == RecoveredMeta(d).links
    ensures Counted(d, {}) == Recoverable(d)
  {
  }

  lemma VisitLost(d: Disk, todo: set<Id>, id: Id)
    requires id in todo && id in d.meta.files && id !in d.blobs
    ensures Visited(d, todo - {id}) == Without(Visited(d, todo), id)
    ensures LinksVisited(d, todo - {id}) == LinksNotTo(LinksVisited(d, todo), id)
    ensures Counted(d, todo - {id}) == Counted(d, todo)
  {
  }

  lemma VisitKept(d: Disk, todo: set<Id>, id: Id)
    requires id in todo && id in d.meta.files && id in d.blobs
    ensures Visited(d, todo - {id}) == Visited(d, todo)[id := d.meta.files[id].(size := d.blobs[id], status := Ready)]
    ensures LinksVisited(d, todo - {id}) == LinksVisited(d, todo)
    ensures Total(Counted(d, todo - {id})) == Total(Counted(d, todo)) + d.blobs[id]
  {
    assert Counted(d, todo - {id}) == Counted(d, todo)[id := d.blobs[id]];
    TotalUpdate(Counted(d, todo), id, d.blobs[id]);
  }

  /** The recoverable files already visited, with their sizes. */
  ghost function Counted(d: Disk, todo: set<Id>): map<Id, int> {
    map id | id in d.meta.files && id in d.blobs && id !in todo :: d.blobs[id]
  }
}
