/** The file relay store as a state machine (internal/fileshare/service.go).

    One step is one critical section of the service lock or one file operation made outside it,
    so any interleaving of uploads, deletes and link operations is a sequence of steps. The disk
    is the metadata file, the stored blobs and the partial uploads. A crash keeps the disk only. */
module FileRelay {
  import opened Basics
  import opened Totals

  /** A random identifier; only its being new or known matters. */
  type Id = nat

  const DISK_SAFETY_BYTES: int := 512 * 1024 * 1024
  const DISK_CHECK_BYTES: int := 16 * 1024 * 1024
  const DAY: Time := 24 * 3600 * 1_000_000_000

  datatype Status = Ready | DeleteFailed

  datatype File = File(size: int, status: Status, expires: Time, revision: nat)

  datatype Link = Link(file: Id, digest: string, expires: Time, revoked: bool)

  datatype Meta = Meta(retentionDays: int, files: map<Id, File>, links: map<Id, Link>)

  datatype Disk = Disk(meta: Meta, blobs: map<Id, int>, partials: set<Id>)

  /** Where an upload call stands. A closed upload has dropped its partial file but not yet
      given back its reservation. */
  datatype Phase = Reserved | Streaming | Writing(need: nat) | Synced | Failed | Committed | Closed

  /** The local variables of one upload call. A call is known by the file ID it drew; its partial
      file, which has a random name of its own, goes by the same ID here. */
  datatype Upload = Upload(
    expected: int, reserve: int, acquired: int, sinceCheck: int, written: int, phase: Phase)
  {
    function Held(): int { reserve + acquired }
  }

  /** The running service. The last three fields are history: every file ID ever drawn, the sizes of
      the files whose upload was acknowledged and whose deletion was not yet asked for, and the files
      whose deletion was acknowledged. */
  datatype Store = Store(
    quota: int, used: int, reserved: int, meta: Meta, uploads: map<Id, Upload>, disk: Disk,
    issued: set<Id>, acked: map<Id, int>, gone: set<Id>)

  datatype Removal = Removed | Missing | Refused

  datatype Action =
    | Begin(upload: Id, validName: bool, expected: int, available: Option<int>)
    | OpenPartial(upload: Id, ok: bool)
    | Acquire(upload: Id, need: nat, available: Option<int>)
    | Settle(upload: Id, n: nat)
    | Stream(upload: Id, n: nat)
    | Finish(upload: Id, ok: bool)
    | Commit(upload: Id, now: Time, allowed: bool, renameOk: bool, persistOk: bool, undoOk: bool)
    | Cleanup(upload: Id, ok: bool)
    | Release(upload: Id)
    | Delete(id: Id, removal: Removal, persistOk: bool)
    | CreateLink(link: Id, id: Id, digest: string, now: Time, duration: Time, allowed: bool, persistOk: bool)
    | RevokeLink(link: Id, id: Id, persistOk: bool)

  // ---------------------------------------------------------------- the steps

  function Persist(s: Store, ok: bool): Store {
    if ok then s.(disk := s.disk.(meta := s.meta)) else s
  }

  /** A known disk shortage refuses; an unreadable one does not. */
  predicate DiskHasRoom(available: Option<int>, need: int) {
    available.Some? ==> need + DISK_SAFETY_BYTES <= available.value
  }

  predicate BeginAdmits(s: Store, validName: bool, expected: int, available: Option<int>) {
    && validName
    && 0 <= expected <= s.quota
    && s.used + s.reserved + expected <= s.quota
    && (0 < expected ==> DiskHasRoom(available, expected))
  }

  function BeginStep(s: Store, u: Id, validName: bool, expected: int, available: Option<int>): Store {
    if !BeginAdmits(s, validName, expected, available) || u in s.issued then s
    else s.(reserved := s.reserved + expected,
            issued := s.issued + {u},
            uploads := s.uploads[u := Upload(expected, expected, 0, 0, 0, Reserved)])
  }

  function OpenPartialStep(s: Store, u: Id, ok: bool): Store
    requires u in s.uploads && s.uploads[u].phase.Reserved?
  {
    var up := s.uploads[u];
    if ok then s.(uploads := s.uploads[u := up.(phase := Streaming)],
                  disk := s.disk.(partials := s.disk.partials + {u}))
    else s.(uploads := s.uploads[u := up.(phase := Closed)])
  }

  predicate AcquireAdmits(s: Store, up: Upload, need: nat, available: Option<int>) {
    && s.used + s.reserved + need <= s.quota
    && (up.acquired == 0 || up.sinceCheck + need >= DISK_CHECK_BYTES ==> DiskHasRoom(available, need))
  }

  /** The first half of quotaWriter.Write: quota is taken for the whole chunk. */
  function AcquireStep(s: Store, u: Id, need: nat, available: Option<int>): Store
    requires u in s.uploads && s.uploads[u].phase.Streaming? && s.uploads[u].expected == 0
  {
    var up := s.uploads[u];
    if !AcquireAdmits(s, up, need, available) then s.(uploads := s.uploads[u := up.(phase := Failed)])
    else
      var checked := up.acquired == 0 || up.sinceCheck + need >= DISK_CHECK_BYTES;
      s.(reserved := s.reserved + need,
         uploads := s.uploads[u := up.(acquired := up.acquired + need,
                                       sinceCheck := if checked then 0 else up.sinceCheck + need,
                                       phase := Writing(need))])
  }

  /** The second half: only n of the chunk's bytes reached the partial file. */
  function SettleStep(s: Store, u: Id, n: nat): Store
    requires u in s.uploads && s.uploads[u].phase.Writing? && n <= s.uploads[u].phase.need
  {
    var up := s.uploads[u];
    var unused := up.phase.need - n;
    s.(reserved := s.reserved - unused,
       uploads := s.uploads[u := up.(acquired := up.acquired - unused,
                                     written := up.written + n,
                                     phase := if unused == 0 then Streaming else Failed)])
  }

  function StreamStep(s: Store, u: Id, n: nat): Store
    requires u in s.uploads && s.uploads[u].phase.Streaming? && s.uploads[u].expected > 0
  {
    var up := s.uploads[u];
    s.(uploads := s.uploads[u := up.(written := up.written + n)])
  }

  function FinishStep(s: Store, u: Id, ok: bool): Store
    requires u in s.uploads && s.uploads[u].phase.Streaming?
  {
    var up := s.uploads[u];
    var complete := up.written <= s.quota && (up.expected > 0 ==> up.written == up.expected);
    s.(uploads := s.uploads[u := up.(phase := if ok && complete then Synced else Failed)])
  }

  /** The upload's own critical section up to the quota check: the reservation is turned back. */
  function Settled(s: Store, u: Id, phase: Phase): Store
    requires u in s.uploads
  {
    var up := s.uploads[u];
    s.(reserved := s.reserved - up.Held(),
       uploads := s.uploads[u := up.(reserve := 0, acquired := 0, phase := phase)])
  }

  function Moved(s: Store, u: Id): Disk
    requires u in s.uploads
  {
    s.disk.(blobs := s.disk.blobs[u := s.uploads[u].written],
            partials := s.disk.partials - {u})
  }

  function NewFile(s: Store, up: Upload, now: Time): File {
    File(up.written, Ready, now + s.meta.retentionDays * DAY, 1)
  }

  function CommitStep(s: Store, u: Id, now: Time, allowed: bool, renameOk: bool, persistOk: bool, undoOk: bool): Store
    requires u in s.uploads && s.uploads[u].phase.Synced?
  {
    var up := s.uploads[u];
    var failed := Settled(s, u, Failed);
    if failed.used + up.written > s.quota || !allowed || !renameOk then failed
    else
      var moved := Moved(s, u);
      if persistOk then
        var meta := s.meta.(files := s.meta.files[u := NewFile(s, up, now)]);
        Settled(s, u, Committed).(used := s.used + up.written, meta := meta, disk := moved.(meta := meta),
                                  acked := s.acked[u := up.written])
      else if undoOk then failed.(disk := moved.(blobs := Without(moved.blobs, u)))
      else failed.(disk := moved)
  }

  /** The deferred close: a partial that was not kept is removed, if the disk allows. */
  function CleanupStep(s: Store, u: Id, ok: bool): Store
    requires u in s.uploads && (s.uploads[u].phase.Failed? || s.uploads[u].phase.Committed?)
  {
    var up := s.uploads[u];
    var closed := s.(uploads := s.uploads[u := up.(phase := Closed)]);
    if up.phase.Failed? && ok then closed.(disk := s.disk.(partials := s.disk.partials - {u})) else closed
  }

  function ReleaseStep(s: Store, u: Id): Store
    requires u in s.uploads && s.uploads[u].phase.Closed?
  {
    s.(reserved := s.reserved - s.uploads[u].Held(), uploads := Without(s.uploads, u))
  }

  function LinksNotTo(links: map<Id, Link>, id: Id): map<Id, Link> {
    map l | l in links && links[l].file != id :: links[l]
  }

  /** A file whose blob could not be removed: marked deleting, then failed. */
  function Kept(f: File): File {
    f.(status := DeleteFailed, revision := f.revision + 2)
  }

  function DeleteStep(s: Store, id: Id, removal: Removal, persistOk: bool): Store {
    if id !in s.meta.files then s
    else
      var f := s.meta.files[id];
      var unlinked := s.(meta := s.meta.(links := LinksNotTo(s.meta.links, id)), acked := Without(s.acked, id));
      if removal.Refused? then
        Persist(unlinked.(meta := unlinked.meta.(files := s.meta.files[id := Kept(f)])), persistOk)
      else
        var t := unlinked.(used := Max(0, s.used - f.size),
                           meta := unlinked.meta.(files := Without(s.meta.files, id)),
                           disk := s.disk.(blobs := Without(s.disk.blobs, id)),
                           gone := if persistOk then s.gone + {id} else s.gone);
        Persist(t, persistOk)
  }

  const MINUTE: Time := 60 * 1_000_000_000

  predicate AllowedDuration(d: Time) {
    d == 10 * MINUTE || d == 60 * MINUTE || d == 24 * 60 * MINUTE || d == 7 * 24 * 60 * MINUTE
  }

  predicate LinkAdmits(s: Store, id: Id, now: Time, duration: Time, allowed: bool) {
    && AllowedDuration(duration)
    && id in s.meta.files && s.meta.files[id].status.Ready?
    && now < s.meta.files[id].expires
    && allowed
  }

  function NewLink(f: File, id: Id, digest: string, now: Time, duration: Time): Link {
    Link(id, digest, if f.expires < now + duration then f.expires else now + duration, false)
  }

  function CreateLinkStep(s: Store, l: Id, id: Id, digest: string, now: Time, duration: Time, allowed: bool,
                          persistOk: bool): Store {
    if !LinkAdmits(s, id, now, duration, allowed) || !persistOk || l in s.meta.links then s
    else
      var link := NewLink(s.meta.files[id], id, digest, now, duration);
      Persist(s.(meta := s.meta.(links := s.meta.links[l := link])), true)
  }

  function RevokeLinkStep(s: Store, l: Id, id: Id, persistOk: bool): Store {
    if l !in s.meta.links || s.meta.links[l].file != id then s
    else
      var link := s.meta.links[l].(revoked := true);
      Persist(s.(meta := s.meta.(links := s.meta.links[l := link])), persistOk)
  }

  predicate Enabled(s: Store, a: Action) {
    match a
    case OpenPartial(u, _) => u in s.uploads && s.uploads[u].phase.Reserved?
    case Acquire(u, _, _) => u in s.uploads && s.uploads[u].phase.Streaming? && s.uploads[u].expected == 0
    case Settle(u, n) => u in s.uploads && s.uploads[u].phase.Writing? && n <= s.uploads[u].phase.need
    case Stream(u, _) => u in s.uploads && s.uploads[u].phase.Streaming? && s.uploads[u].expected > 0
    case Finish(u, _) => u in s.uploads && s.uploads[u].phase.Streaming?
    case Commit(u, _, _, _, _, _) => u in s.uploads && s.uploads[u].phase.Synced?
    case Cleanup(u, _) => u in s.uploads && (s.uploads[u].phase.Failed? || s.uploads[u].phase.Committed?)
    case Release(u) => u in s.uploads && s.uploads[u].phase.Closed?
    case _ => true
  }

  /** One step; an action that is not enabled changes nothing. */
  function Step(s: Store, a: Action): Store {
    if !Enabled(s, a) then s
    else
      match a
      case Begin(u, validName, expected, available) => BeginStep(s, u, validName, expected, available)
      case OpenPartial(u, ok) => OpenPartialStep(s, u, ok)
      case Acquire(u, need, available) => AcquireStep(s, u, need, available)
      case Settle(u, n) => SettleStep(s, u, n)
      case Stream(u, n) => StreamStep(s, u, n)
      case Finish(u, ok) => FinishStep(s, u, ok)
      case Commit(u, now, allowed, renameOk, persistOk, undoOk) =>
        CommitStep(s, u, now, allowed, renameOk, persistOk, undoOk)
      case Cleanup(u, ok) => CleanupStep(s, u, ok)
      case Release(u) => ReleaseStep(s, u)
      case Delete(id, removal, persistOk) => DeleteStep(s, id, removal, persistOk)
      case CreateLink(l, id, digest, now, duration, allowed, persistOk) =>
        CreateLinkStep(s, l, id, digest, now, duration, allowed, persistOk)
      case RevokeLink(l, id, persistOk) => RevokeLinkStep(s, l, id, persistOk)
  }

  // ---------------------------------------------------------------- what every step keeps

  function Sizes(files: map<Id, File>): map<Id, int> {
    map id | id in files :: files[id].size
  }

  function Holds(uploads: map<Id, Upload>): map<Id, int> {
    map u | u in uploads :: uploads[u].Held()
  }

  /** The counters are exactly the totals they stand for: nothing is lost, nothing released twice. */
  ghost predicate Conserved(s: Store) {
    && s.used == Total(Sizes(s.meta.files))
    && s.reserved == Total(Holds(s.uploads))
  }

  /** What one upload has reserved covers what it has written or is about to write. */
  predicate UploadOk(up: Upload) {
    && 0 <= up.expected && 0 <= up.reserve && 0 <= up.acquired && 0 <= up.written
    && (up.expected > 0 ==> up.acquired == 0)
    && (up.expected == 0 ==> up.reserve == 0)
    && (up.phase.Reserved? ==> up.written == 0 && up.acquired == 0)
    && (up.phase.Streaming? || up.phase.Synced? || up.phase.Writing? || up.phase.Reserved? ==> up.reserve == up.expected)
    && (up.expected == 0 && (up.phase.Streaming? || up.phase.Synced?) ==> up.written == up.acquired)
    && (up.phase.Writing? ==> up.expected == 0 && up.written + up.phase.need == up.acquired)
    && (up.expected > 0 && up.phase.Synced? ==> up.written == up.expected)
  }

  /** The upload has not reached its commit: its file ID appears nowhere else. */
  predicate Uncommitted(up: Upload) {
    up.phase.Reserved? || up.phase.Streaming? || up.phase.Writing? || up.phase.Synced?
  }

  /** Nothing but the upload itself knows its file ID yet. */
  predicate Unseen(s: Store, u: Id) {
    u !in s.meta.files && u !in s.disk.meta.files && u !in s.disk.blobs && u !in s.gone && u !in s.acked
  }

  /** A link names a file of the same metadata and expires no later than it. */
  predicate LinkOk(m: Meta, l: Id) {
    l in m.links ==>
      m.links[l].file in m.files && m.links[l].expires <= m.files[m.links[l].file].expires
  }

  ghost predicate LinksOk(m: Meta) {
    forall l {:trigger LinkOk(m, l)} :: LinkOk(m, l)
  }

  /** What the disk owes to the acknowledgements already given, for one file ID. */
  predicate DiskIdOk(d: Disk, issued: set<Id>, acked: map<Id, int>, gone: set<Id>, id: Id) {
    && (id in d.blobs ==> 0 <= d.blobs[id])
    && (id in acked ==> id in d.meta.files && id in d.blobs && d.blobs[id] == acked[id])
    && (id in gone ==> id !in d.meta.files)
    && (id in d.meta.files || id in d.blobs || id in gone ==> id in issued)
  }

  ghost predicate DiskOk(d: Disk, issued: set<Id>, acked: map<Id, int>, gone: set<Id>) {
    && LinksOk(d.meta)
    && forall id {:trigger DiskIdOk(d, issued, acked, gone, id)} :: DiskIdOk(d, issued, acked, gone, id)
  }

  /** For one ID: the service serves it exactly if both the metadata and the blob are on disk. */
  predicate IdOk(s: Store, id: Id) {
    && (id in s.meta.files <==> id in s.disk.meta.files && id in s.disk.blobs)
    && (id in s.meta.files ==> s.meta.files[id].size == s.disk.blobs[id])
    && (id in s.acked ==> id in s.meta.files)
    && (id in s.uploads ==> id in s.issued && UploadOk(s.uploads[id]) && (Uncommitted(s.uploads[id]) ==> Unseen(s, id)))
  }

  /** Everything but the totals. */
  ghost predicate Shape(s: Store) {
    && DiskOk(s.disk, s.issued, s.acked, s.gone)
    && LinksOk(s.meta)
    && (forall id {:trigger IdOk(s, id)} :: IdOk(s, id))
  }

  ghost predicate Inv(s: Store) {
    Conserved(s) && Shape(s)
  }

  ghost predicate WithinQuota(s: Store) {
    s.used + s.reserved <= s.quota
  }

  /** The files that a recovery from this disk will serve, with their sizes. */
  function Recoverable(d: Disk): map<Id, int> {
    map id | id in d.meta.files && id in d.blobs :: d.blobs[id]
  }

  // ---------------------------------------------------------------- crashes and recovery

  /** The service is either running, or down with only its disk and the promises it has made. */
  datatype Machine =
    | Up(store: Store)
    | Down(quota: int, disk: Disk, issued: set<Id>, acked: map<Id, int>, gone: set<Id>)

  /** The disk after the first `point` disk operations of an action. */
  function DiskDuring(s: Store, a: Action, point: nat): Disk {
    if point == 0 || !Enabled(s, a) then s.disk
    else if point == 1 && a.Commit? && a.allowed && a.renameOk && s.used + s.uploads[a.upload].written <= s.quota then
      Moved(s, a.upload)
    else if point == 1 && a.Delete? && a.id in s.meta.files && !a.removal.Refused? then
      s.disk.(blobs := Without(s.disk.blobs, a.id))
    else Step(s, a).disk
  }

  /** A crash inside an action: no acknowledgement was given, but a deletion may have been asked for. */
  function CrashDuring(s: Store, a: Action, point: nat): Machine {
    Down(s.quota, DiskDuring(s, a, point), Step(s, a).issued, if a.Delete? then Without(s.acked, a.id) else s.acked, s.gone)
  }

  function RecoveredFiles(d: Disk): map<Id, File> {
    map id | id in d.meta.files && id in d.blobs ::
      d.meta.files[id].(size := d.blobs[id], status := Ready)
  }

  function RecoveredMeta(d: Disk): Meta {
    Meta(d.meta.retentionDays, RecoveredFiles(d),
         map l | l in d.meta.links && (d.meta.links[l].file in d.meta.files ==> d.meta.links[l].file in d.blobs)
           :: d.meta.links[l])
  }

  predicate FilesWereLost(d: Disk) {
    exists id :: id in d.meta.files && id !in d.blobs
  }

  /** The disk as recovery sees it: a blob whose status cannot be read counts as lost. */
  function Seen(d: Disk, unread: set<Id>): Disk {
    d.(blobs := map id | id in d.blobs && id !in unread :: d.blobs[id])
  }

  /** Partials and the blobs of files that are not kept go, except those the file system refuses to remove. */
  function Swept(d: Disk, stuck: set<Id>, unread: set<Id>): Disk {
    d.(blobs := map id | id in d.blobs && ((id in d.meta.files && id !in unread) || id in stuck) :: d.blobs[id],
       partials := d.partials * stuck)
  }

  /** An opening that cannot read the status of a file's blob gives the file up: in the metadata if that can be
      written, and on the disk if the blob can be removed. */
  predicate GivesUp(id: Id, stuck: set<Id>, unread: set<Id>, persistOk: bool) {
    id in unread && (persistOk || id !in stuck)
  }

  function NotGivenUp(acked: map<Id, int>, stuck: set<Id>, unread: set<Id>, persistOk: bool): map<Id, int> {
    map id | id in acked && !GivesUp(id, stuck, unread, persistOk) :: acked[id]
  }

  /** Opening the service on a disk: load, recover, and persist if files were lost. */
  ghost function Boot(m: Machine, stuck: set<Id>, unread: set<Id>, persistOk: bool): Machine
    requires m.Down?
  {
    var seen, swept := Seen(m.disk, unread), Swept(m.disk, stuck, unread);
    var acked := NotGivenUp(m.acked, stuck, unread, persistOk);
    if FilesWereLost(seen) && !persistOk then m.(disk := swept, acked := acked)
    else
      var meta := RecoveredMeta(seen);
      Up(Store(m.quota, Total(Recoverable(seen)), 0, meta, map[],
               if FilesWereLost(seen) then swept.(meta := meta) else swept, m.issued, acked, m.gone))
  }

  datatype Event =
    | Act(action: Action)
    | Crash(during: Action, point: nat)
    | Open(stuck: set<Id>, unread: set<Id>, persistOk: bool)

  ghost function MachineStep(m: Machine, e: Event): Machine {
    match e
    case Act(a) => if m.Up? then Up(Step(m.store, a)) else m
    case Crash(a, point) => if m.Up? then CrashDuring(m.store, a, point) else m
    case Open(stuck, unread, persistOk) => if m.Down? then Boot(m, stuck, unread, persistOk) else m
  }

  ghost function Run(m: Machine, events: seq<Event>): Machine
    decreases |events|
  {
    if events == [] then m else Run(MachineStep(m, events[0]), events[1..])
  }

  ghost predicate MachineInv(m: Machine) {
    match m
    case Up(s) => Inv(s)
    case Down(_, disk, issued, acked, gone) => DiskOk(disk, issued, acked, gone)
  }

  /** Nothing stored or reserved exceeds the quota, or would after recovery. */
  ghost predicate MachineFits(m: Machine) {
    match m
    case Up(s) => WithinQuota(s)
    case Down(quota, disk, _, _, _) => Total(Recoverable(disk)) <= quota
  }

  /** A service opened on an empty directory. */
  function Empty(quota: int, retentionDays: int): Machine {
    var meta := Meta(retentionDays, map[], map[]);
    Up(Store(quota, 0, 0, meta, map[], Disk(meta, map[], {}), {}, map[], {}))
  }

  function Acked(m: Machine): map<Id, int> {
    if m.Up? then m.store.acked else m.acked
  }

  function Gone(m: Machine): set<Id> {
    if m.Up? then m.store.gone else m.gone
  }

  /** The event asks for the deletion of the file, whether or not it gets to the end. */
  predicate AsksDeletion(e: Event, id: Id) {
    match e
    case Act(a) => a.Delete? && a.id == id
    case Crash(a, _) => a.Delete? && a.id == id
    case Open(_, _, _) => false
  }
}
