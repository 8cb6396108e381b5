/** The agent's durable command ledger and the handlers it guards
    (internal/daemon/ledger.go, internal/daemon/client.go). */
module CommandLedger {
  import opened Basics

  datatype Kind = Shutdown | KeySync | Upgrade | CredentialsSync | CredentialsRevoke

  /** A command ID is issued for one command, so it determines the kind. */
  datatype Id = Id(kind: Kind, number: nat)

  datatype Stage = Prepared | Started | Committed | Confirmed

  datatype Record = Record(stage: Stage, hasAck: bool)

  /** The records of the commands, and the ID of the last event that was received. Both are in one file. */
  datatype Ledger = Ledger(records: map<Id, Record>, cursor: Option<Id>)

  const EMPTY: Ledger := Ledger(map[], None)

  // ---------------------------------------------------------------- ledger operations

  function Put(l: Ledger, id: Id, record: Record): Ledger {
    l.(records := l.records[id := record])
  }

  function WithStage(l: Ledger, id: Id, stage: Stage): Ledger {
    Put(l, id, Record(stage, id in l.records && l.records[id].hasAck))
  }

  function Begun(l: Ledger, id: Id): Ledger {
    if id in l.records then l else Put(l, id, Record(Prepared, false))
  }

  predicate InStage(l: Ledger, id: Id, stage: Stage) {
    id in l.records && l.records[id].stage == stage
  }

  predicate AwaitsPost(l: Ledger, id: Id) {
    InStage(l, id, Committed) && l.records[id].hasAck
  }

  /** The ledger in memory and the file it is written to as a whole after every change. A failed write leaves
      the file as it was and the memory as changed. */
  class CommandLedger {
    var records: map<Id, Record>
    var lastEventId: Option<Id>
    var file: Ledger

    ghost function View(): Ledger
      reads this
    {
      Ledger(records, lastEventId)
    }

    method WriteLocked(writeOk: bool) returns (ok: bool)
      modifies this`file
      ensures ok == writeOk
      ensures file == if ok then View() else old(file)
    {
      if writeOk {
        file := Ledger(records, lastEventId);
      }
      ok := writeOk;
    }

    /** Saves the cursor, and with it every change that an earlier failed write left in memory only. */
    method RecordEventId(id: Id, writeOk: bool) returns (ok: bool)
      modifies this`lastEventId, this`file
      ensures View() == old(View()).(cursor := Some(id))
      ensures if old(lastEventId) == Some(id) then ok && file == old(file)
              else ok == writeOk && file == if ok then View() else old(file)
    {
      if lastEventId == Some(id) {
        return true;
      }
      lastEventId := Some(id);
      ok := WriteLocked(writeOk);
    }

    method Begin(id: Id, writeOk: bool) returns (record: Record, execute: bool, ok: bool)
      modifies this`records, this`file
      ensures View() == Begun(old(View()), id) && record == records[id]
      ensures execute <==> id !in old(records)
      ensures ok == (execute ==> writeOk)
      ensures file == if execute && ok then View() else old(file)
    {
      if id in records {
        return records[id], false, true;
      }
      records := records[id := Record(Prepared, false)];
      ok := WriteLocked(writeOk);
      record, execute := records[id], true;
    }

    method ResetPrepared(id: Id, writeOk: bool) returns (ok: bool)
      modifies this`records, this`file
      ensures View() == WithStage(old(View()), id, Prepared)
      ensures ok == writeOk && file == if ok then View() else old(file)
    {
      var hasAck := id in records && records[id].hasAck;
      records := records[id := Record(Prepared, hasAck)];
      ok := WriteLocked(writeOk);
    }

    /** Grants the side effect once; a failed write withdraws the grant but not the stage in memory. */
    method Start(id: Id, writeOk: bool) returns (started: bool, ok: bool)
      modifies this`records, this`file
      ensures started <==> InStage(old(View()), id, Prepared)
      ensures View() == if started then WithStage(old(View()), id, Started) else old(View())
      ensures ok == (started ==> writeOk)
      ensures file == if started && ok then View() else old(file)
    {
      if id !in records || !records[id].stage.Prepared? {
        return false, true;
      }
      records := records[id := records[id].(stage := Started)];
      ok := WriteLocked(writeOk);
      started := true;
    }

    method Commit(id: Id, writeOk: bool) returns (ok: bool)
      modifies this`records, this`file
      ensures View() == Put(old(View()), id, Record(Committed, true))
      ensures ok == writeOk && file == if ok then View() else old(file)
    {
      records := records[id := Record(Committed, true)];
      ok := WriteLocked(writeOk);
    }

    method Confirm(id: Id, writeOk: bool) returns (ok: bool)
      modifies this`records, this`file
      ensures View() == WithStage(old(View()), id, Confirmed)
      ensures ok == writeOk && file == if ok then View() else old(file)
    {
      var hasAck := id in records && records[id].hasAck;
      records := records[id := Record(Confirmed, hasAck)];
      ok := WriteLocked(writeOk);
    }

    method Interrupted() returns (ids: set<Id>)
      ensures ids == InterruptedIn(View())
    {
      ids := {};
      var todo := records.Keys;
      while todo != {}
        invariant todo <= records.Keys
        invariant ids == set id | id in records.Keys - todo && records[id].stage.Started?
        decreases |todo|
      {
        var id :| id in todo;
        if records[id].stage.Started? {
          ids := ids + {id};
        }
        todo := todo - {id};
      }
    }

    method PendingAcks() returns (ids: set<Id>)
      ensures forall id :: id in ids <==> AwaitsPost(View(), id)
    {
      ids := {};
      var todo := records.Keys;
      while todo != {}
        invariant todo <= records.Keys
        invariant forall id :: id in ids <==> id !in todo && AwaitsPost(View(), id)
        decreases |todo|
      {
        var id :| id in todo;
        if records[id].stage.Committed? && records[id].hasAck {
          ids := ids + {id};
        }
        todo := todo - {id};
      }
    }
  }

  function InterruptedIn(l: Ledger): set<Id> {
    set id | id in l.records && l.records[id].stage.Started?
  }

  // ---------------------------------------------------------------- the daemon

  /** What the event loop is doing. `Given` holds an event whose ID was recorded and which is not begun yet.
      `Accepting` and `Running` hold a granted side effect before and after its accepted acknowledgement was sent;
      `Done` one that has run; `Posting` holds a committed acknowledgement. */
  datatype Handler =
    | Idle | Given(id: Id) | Resetting(id: Id) | Ready(id: Id) | Reporting(id: Id)
    | Accepting(id: Id) | Running(id: Id) | Done(id: Id) | Posting(id: Id)

  /** `recovering` are the interrupted commands that start-up has not handled yet, `timers` shutdowns waiting in the
      background, `posting` acknowledgements that the retry loop or a shutdown timer is sending. `granted` and
      `performed` count, over the whole history, how often a side effect was granted and how often it was run; a
      shutdown is run by scheduling it. */
  datatype Daemon = Daemon(
    memory: Ledger, file: Ledger, handler: Handler, recovering: set<Id>, timers: set<Id>, posting: set<Id>,
    granted: multiset<Id>, performed: multiset<Id>)

  datatype Step =
    | Recover(id: Id)
    | Read(id: Id, writeOk: bool)
    | Receive(writeOk: bool)
    | Reset(writeOk: bool)
    | RejectPayload
    | GrantStart(writeOk: bool)
    | PostAccepted(posted: bool, writeOk: bool)
    | Perform
    | CommitResult(writeOk: bool)
    | Report(writeOk: bool)
    | PostResult(posted: bool, writeOk: bool)
    | TimerFires(id: Id, writeOk: bool)
    | PickPending(id: Id)
    | BackgroundPosted(id: Id, posted: bool, writeOk: bool)
    | CrashAndRestart

  function Write(d: Daemon, ok: bool): Daemon {
    if ok then d.(file := d.memory) else d
  }

  function Committing(d: Daemon, id: Id, writeOk: bool): Daemon {
    Write(d.(memory := Put(d.memory, id, Record(Committed, true))), writeOk)
  }

  function Confirming(d: Daemon, id: Id, posted: bool, writeOk: bool): Daemon {
    if posted then Write(d.(memory := WithStage(d.memory, id, Confirmed)), writeOk) else d
  }

  /** The event loop records the ID of an event before it handles it. */
  function ReadStep(d: Daemon, id: Id, writeOk: bool): Daemon {
    var t := if d.memory.cursor == Some(id) then d else Write(d.(memory := d.memory.(cursor := Some(id))), writeOk);
    t.(handler := Given(id))
  }

  /** The guard for a command that has a record. */
  function KnownStep(d: Daemon, id: Id): Daemon
    requires id in d.memory.records
  {
    d.(handler :=
      match d.memory.records[id].stage
      case Started => if id.kind.Shutdown? then Reporting(id) else Resetting(id)
      case Prepared => Ready(id)
      case Committed => if d.memory.records[id].hasAck then Posting(id) else Idle
      case Confirmed => Idle)
  }

  /** The guard in front of every event. */
  function ReceiveStep(d: Daemon, id: Id, writeOk: bool): Daemon {
    if id in d.memory.records then KnownStep(d, id)
    else Write(d.(memory := Begun(d.memory, id)), writeOk).(handler := if writeOk then Ready(id) else Idle)
  }

  /** At start-up each interrupted command meets the same guard, before any event is read. */
  function RecoverStep(d: Daemon, id: Id): Daemon {
    var t := d.(recovering := d.recovering - {id});
    if id in d.memory.records then KnownStep(t, id) else t
  }

  function GrantStep(d: Daemon, id: Id, writeOk: bool): Daemon {
    if !InStage(d.memory, id, Prepared) then d.(handler := Idle)
    else
      var t := Write(d.(memory := WithStage(d.memory, id, Started)), writeOk);
      if writeOk then t.(handler := Accepting(id), granted := d.granted + multiset{id}) else t.(handler := Idle)
  }

  function PerformStep(d: Daemon, id: Id): Daemon {
    var t := d.(performed := d.performed + multiset{id});
    if id.kind.Shutdown? then t.(handler := Idle, timers := d.timers + {id}) else t.(handler := Done(id))
  }

  function CommitStep(d: Daemon, id: Id, writeOk: bool): Daemon {
    Committing(d, id, writeOk).(handler := if writeOk then Posting(id) else Idle)
  }

  function Next(d: Daemon, s: Step): Daemon {
    match s
    case Recover(id) => if d.handler.Idle? && id in d.recovering then RecoverStep(d, id) else d
    case Read(id, ok) => if d.handler.Idle? && d.recovering == {} then ReadStep(d, id, ok) else d
    case Receive(ok) => if d.handler.Given? then ReceiveStep(d, d.handler.id, ok) else d
    case Reset(ok) =>
      if !d.handler.Resetting? then d
      else Write(d.(memory := WithStage(d.memory, d.handler.id, Prepared)), ok).(handler := if ok then Ready(d.handler.id) else Idle)
    case RejectPayload =>
      if d.handler.Ready? && !d.handler.id.kind.Shutdown? then d.(handler := Reporting(d.handler.id)) else d
    case GrantStart(ok) => if d.handler.Ready? then GrantStep(d, d.handler.id, ok) else d
    case PostAccepted(posted, ok) =>
      if d.handler.Accepting? then Confirming(d, d.handler.id, posted, ok).(handler := Running(d.handler.id)) else d
    case Perform => if d.handler.Running? then PerformStep(d, d.handler.id) else d
    case CommitResult(ok) => if d.handler.Done? then CommitStep(d, d.handler.id, ok) else d
    case Report(ok) => if d.handler.Reporting? then CommitStep(d, d.handler.id, ok) else d
    case PostResult(posted, ok) =>
      if d.handler.Posting? then Confirming(d, d.handler.id, posted, ok).(handler := Idle) else d
    case TimerFires(id, ok) =>
      if id !in d.timers then d
      else
        var t := Committing(d, id, ok);
        t.(timers := d.timers - {id}, posting := if ok then d.posting + {id} else d.posting)
    case PickPending(id) => if AwaitsPost(d.memory, id) then d.(posting := d.posting + {id}) else d
    case BackgroundPosted(id, posted, ok) =>
      if id in d.posting then Confirming(d, id, posted, ok).(posting := d.posting - {id}) else d
    case CrashAndRestart => d.(memory := d.file, handler := Idle, recovering := InterruptedIn(d.file), timers := {}, posting := {})
  }

  function Run(d: Daemon, steps: seq<Step>): Daemon
    decreases |steps|
  {
    if steps == [] then d else Run(Next(d, steps[0]), steps[1..])
  }

  const NEW: Daemon := Daemon(EMPTY, EMPTY, Idle, {}, {}, {}, multiset{}, multiset{})

  // ---------------------------------------------------------------- what every run keeps

  predicate Final(l: Ledger, id: Id) {
    InStage(l, id, Committed) || InStage(l, id, Confirmed)
  }

  predicate Past(l: Ledger, id: Id) {
    id in l.records && !l.records[id].stage.Prepared?
  }

  /** A granted side effect that has not run yet. */
  predicate Pending(d: Daemon, id: Id) {
    d.handler == Accepting(id) || d.handler == Running(id)
  }

  predicate IdOk(d: Daemon, id: Id) {
    && (Final(d.file, id) ==> Final(d.memory, id))
    && (id in d.posting ==> Final(d.memory, id))
    && (d.handler == Posting(id) ==> Final(d.memory, id))
    && (d.handler == Resetting(id) ==> !id.kind.Shutdown? && InStage(d.memory, id, Started))
    && (d.handler == Done(id) ==> !id.kind.Shutdown?)
    && (id in d.timers ==> id.kind.Shutdown? && d.granted[id] > 0)
    && (Pending(d, id) ==> d.granted[id] > 0 && (id.kind.Shutdown? ==> d.performed[id] < d.granted[id]))
    && (id.kind.Shutdown? && d.granted[id] > 0 ==> Past(d.memory, id) && Past(d.file, id))
    && (id.kind.Shutdown? ==> d.performed[id] <= d.granted[id] <= 1)
  }

  ghost predicate Inv(d: Daemon) {
    forall id {:trigger IdOk(d, id)} :: IdOk(d, id)
  }

  /** The steps by kind: the guard in front of an event, the grant, the side effect, its result, and what goes on in
      the background. */
  predicate AtGuard(s: Step) {
    s.Recover? || s.Read? || s.Receive?
  }

  predicate AtStart(s: Step) {
    s.Reset? || s.RejectPayload? || s.GrantStart?
  }

  predicate AtSideEffect(s: Step) {
    s.PostAccepted? || s.Perform? || s.CommitResult?
  }

  predicate AtResult(s: Step) {
    s.Report? || s.PostResult?
  }

  predicate InBackground(s: Step) {
    s.TimerFires? || s.PickPending? || s.BackgroundPosted? || s.CrashAndRestart?
  }

  lemma RecoveringKeepsId(d: Daemon, s: Step, id: Id)
    requires IdOk(d, id) && s.Recover?
    ensures IdOk(Next(d, s), id)
  {
  }

  lemma ReadingKeepsId(d: Daemon, s: Step, id: Id)
    requires IdOk(d, id) && s.Read?
    ensures IdOk(Next(d, s), id)
  {
  }

  lemma ReceivingKeepsId(d: Daemon, s: Step, id: Id)
    requires IdOk(d, id) && s.Receive?
    ensures IdOk(Next(d, s), id)
  {
  }

  lemma ResettingKeepsId(d: Daemon, s: Step, id: Id)
    requires IdOk(d, id) && (s.Reset? || s.RejectPayload?)
    ensures IdOk(Next(d, s), id)
  {
  }

  lemma GrantingKeepsId(d: Daemon, s: Step, id: Id)
    requires IdOk(d, id) && s.GrantStart?
    ensures IdOk(Next(d, s), id)
  {
  }

  lemma AcceptingKeepsId(d: Daemon, s: Step, id: Id)
    requires IdOk(d, id) && s.PostAccepted?
    ensures IdOk(Next(d, s), id)
  {
  }

  lemma PerformingKeepsId(d: Daemon, s: Step, id: Id)
    requires IdOk(d, id) && s.Perform?
    ensures IdOk(Next(d, s), id)
  {
  }

  lemma CommittingKeepsId(d: Daemon, s: Step, id: Id)
    requires IdOk(d, id) && s.CommitResult?
    ensures IdOk(Next(d, s), id)
  {
  }

  lemma ReportingKeepsId(d: Daemon, s: Step, id: Id)
    requires IdOk(d, id) && AtResult(s)
    ensures IdOk(Next(d, s), id)
  {
  }

  lemma TimerKeepsId(d: Daemon, s: Step, id: Id)
    requires IdOk(d, id) && s.TimerFires?
    ensures IdOk(Next(d, s), id)
  {
  }

  lemma BackgroundKeepsId(d: Daemon, s: Step, id: Id)
    requires IdOk(d, id) && (s.PickPending? || s.BackgroundPosted? || s.CrashAndRestart?)
    ensures IdOk(Next(d, s), id)
  {
  }

  lemma NextKeepsId(d: Daemon, s: Step, id: Id)
    requires IdOk(d, id)
    ensures IdOk(Next(d, s), id)
  {
    match s
    case Recover(_) => RecoveringKeepsId(d, s, id);
    case Read(_, _) => ReadingKeepsId(d, s, id);
    case Receive(_) => ReceivingKeepsId(d, s, id);
    case GrantStart(_) => GrantingKeepsId(d, s, id);
    case PostAccepted(_, _) => AcceptingKeepsId(d, s, id);
    case Perform => PerformingKeepsId(d, s, id);
    case CommitResult(_) => CommittingKeepsId(d, s, id);
    case TimerFires(_, _) => TimerKeepsId(d, s, id);
    case _ =>
      if AtStart(s) {
        ResettingKeepsId(d, s, id);
      } else if AtResult(s) {
        ReportingKeepsId(d, s, id);
      } else {
        BackgroundKeepsId(d, s, id);
      }
  }

  lemma NextKeepsInv(d: Daemon, s: Step)
    requires Inv(d)
    ensures Inv(Next(d, s))
  {
    forall id
      ensures IdOk(Next(d, s), id)
    {
      assert IdOk(d, id);
      NextKeepsId(d, s, id);
    }
  }

  lemma {:induction false} RunKeepsInv(d: Daemon, steps: seq<Step>)
    requires Inv(d)
    ensures Inv(Run(d, steps))
    decreases |steps|
  {
    if steps != [] {
      NextKeepsInv(d, steps[0]);
      RunKeepsInv(Next(d, steps[0]), steps[1..]);
    }
  }

  lemma NewIsOk()
    ensures Inv(NEW)
  {
    forall id
      ensures IdOk(NEW, id)
    {
    }
  }

  /** Across any redeliveries, failed writes, crashes and restarts, one shutdown command schedules the
      operating system shutdown at most once. */
  lemma ShutdownScheduledAtMostOnce(steps: seq<Step>, number: nat)
    ensures Run(NEW, steps).performed[Id(Shutdown, number)] <= 1
  {
    NewIsOk();
    RunKeepsInv(NEW, steps);
    assert IdOk(Run(NEW, steps), Id(Shutdown, number));
  }

  // ---------------------------------------------------------------- when a command is over

  /** The durable record no longer lets the side effect start: a final stage, or for a shutdown any stage after
      the first. */
  predicate Over(l: Ledger, id: Id) {
    if id.kind.Shutdown? then Past(l, id) else Final(l, id)
  }

  /** The command is over in the file and in memory. */
  predicate Closed(d: Daemon, id: Id) {
    Over(d.file, id) && Over(d.memory, id)
  }

  /** The step grants nothing for this command and runs nothing that was not already granted. */
  predicate AddsNothing(d: Daemon, t: Daemon, id: Id) {
    t.granted[id] == d.granted[id] && (!Pending(d, id) ==> !Pending(t, id) && t.performed[id] == d.performed[id])
  }

  lemma ReceivingKeepsClosed(d: Daemon, s: Step, id: Id)
    requires IdOk(d, id) && Closed(d, id) && AtGuard(s)
    ensures Closed(Next(d, s), id) && AddsNothing(d, Next(d, s), id)
  {
  }

  lemma StartingKeepsClosed(d: Daemon, s: Step, id: Id)
    requires IdOk(d, id) && Closed(d, id) && AtStart(s)
    ensures Closed(Next(d, s), id) && AddsNothing(d, Next(d, s), id)
  {
  }

  lemma HandlingKeepsClosed(d: Daemon, s: Step, id: Id)
    requires IdOk(d, id) && Closed(d, id) && AtSideEffect(s)
    ensures Closed(Next(d, s), id) && AddsNothing(d, Next(d, s), id)
  {
  }

  lemma ReportingKeepsClosed(d: Daemon, s: Step, id: Id)
    requires IdOk(d, id) && Closed(d, id) && AtResult(s)
    ensures Closed(Next(d, s), id) && AddsNothing(d, Next(d, s), id)
  {
  }

  lemma BackgroundKeepsClosed(d: Daemon, s: Step, id: Id)
    requires IdOk(d, id) && Closed(d, id) && InBackground(s)
    ensures Closed(Next(d, s), id) && AddsNothing(d, Next(d, s), id)
  {
  }

  lemma NextKeepsClosed(d: Daemon, s: Step, id: Id)
    requires IdOk(d, id) && Closed(d, id)
    ensures Closed(Next(d, s), id) && AddsNothing(d, Next(d, s), id)
  {
    if AtGuard(s) {
      ReceivingKeepsClosed(d, s, id);
    } else if AtStart(s) {
      StartingKeepsClosed(d, s, id);
    } else if AtSideEffect(s) {
      HandlingKeepsClosed(d, s, id);
    } else if AtResult(s) {
      ReportingKeepsClosed(d, s, id);
    } else {
      BackgroundKeepsClosed(d, s, id);
    }
  }

  /** Once a command is over, its side effect is never granted again, and nothing runs that was not already granted. */
  lemma {:induction false} NoStartOnceOver(d: Daemon, steps: seq<Step>, id: Id)
    requires Inv(d) && Closed(d, id)
    ensures Closed(Run(d, steps), id) && Run(d, steps).granted[id] == d.granted[id]
    ensures !Pending(d, id) ==> Run(d, steps).performed[id] == d.performed[id]
    decreases |steps|
  {
    if steps != [] {
      assert IdOk(d, id);
      NextKeepsInv(d, steps[0]);
      NextKeepsClosed(d, steps[0], id);
      NoStartOnceOver(Next(d, steps[0]), steps[1..], id);
    }
  }

  lemma FinalStays(d: Daemon, s: Step, id: Id)
    requires IdOk(d, id) && Final(d.file, id)
    ensures Final(Next(d, s).file, id) && Next(d, s).granted[id] == d.granted[id]
  {
  }

  /** Once a committed or confirmed stage of a command is durable, its side effect is never granted again,
      whatever happens; and the stage stays final. */
  lemma {:induction false} NoGrantAfterFinal(d: Daemon, steps: seq<Step>, id: Id)
    requires Inv(d) && Final(d.file, id)
    ensures Final(Run(d, steps).file, id) && Run(d, steps).granted[id] == d.granted[id]
    decreases |steps|
  {
    if steps != [] {
      assert IdOk(d, id);
      NextKeepsInv(d, steps[0]);
      FinalStays(d, steps[0], id);
      NoGrantAfterFinal(Next(d, steps[0]), steps[1..], id);
    }
  }

  lemma RunMore(d: Daemon, first: Step, rest: seq<Step>)
    ensures Run(d, [first] + rest) == Run(Next(d, first), rest)
  {
    assert ([first] + rest)[1..] == rest;
  }

  /** A final stage does not mean that the side effect has run: it still runs exactly if it was granted and waits for
      its turn in this process, as every command does whose accepted acknowledgement was posted. */
  lemma RunsAfterFinalExactly(d: Daemon, id: Id)
    requires Inv(d) && Final(d.file, id)
    ensures (exists steps :: Run(d, steps).performed[id] > d.performed[id]) <==> Pending(d, id)
  {
    assert IdOk(d, id);
    if Pending(d, id) {
      var d1 := if d.handler.Accepting? then Next(d, PostAccepted(false, false)) else d;
      RunMore(d1, Perform, []);
      RunMore(d, PostAccepted(false, false), [Perform]);
      assert [Perform] + [] == [Perform];
      var steps := if d.handler.Accepting? then [PostAccepted(false, false)] + [Perform] else [Perform];
      assert Run(d, steps).performed[id] > d.performed[id];
    } else {
      forall steps
        ensures Run(d, steps).performed[id] == d.performed[id]
      {
        NoStartOnceOver(d, steps, id);
      }
    }
  }

  // ---------------------------------------------------------------- recovery after a crash

  lemma {:induction false} RunConcat(d: Daemon, a: seq<Step>, b: seq<Step>)
    ensures Run(d, a + b) == Run(Run(d, a), b)
    decreases |a|
  {
    if a == [] {
      assert a + b == b;
    } else {
      assert (a + b)[0] == a[0] && (a + b)[1..] == a[1..] + b;
      RunConcat(Next(d, a[0]), a[1..], b);
    }
  }

  /** The daemon's own steps: no event is read and nothing crashes. */
  predicate OwnSteps(steps: seq<Step>) {
    forall s :: s in steps ==> !s.Read? && !s.CrashAndRestart?
  }

  /** Nothing has changed for this command, nor in the file. */
  predicate SameFor(d: Daemon, t: Daemon, id: Id) {
    && t.file == d.file && t.performed == d.performed && t.memory.cursor == d.memory.cursor
    && (id in t.memory.records <==> id in d.memory.records)
    && (id in d.memory.records ==> t.memory.records[id] == d.memory.records[id])
  }

  /** How the handling of an event ends when every write fails. */
  function Dismiss(h: Handler): seq<Step> {
    match h
    case Resetting(_) => [Reset(false)]
    case Ready(_) => [GrantStart(false)]
    case Reporting(_) => [Report(false)]
    case Posting(_) => [PostResult(false, false)]
    case _ => []
  }

  predicate Dismissable(h: Handler) {
    h.Idle? || h.Resetting? || h.Ready? || h.Reporting? || h.Posting?
  }

  lemma RunOne(d: Daemon, s: Step)
    ensures Run(d, [s]) == Next(d, s)
  {
    RunMore(d, s, []);
    assert [s] + [] == [s];
  }

  lemma Dismissed(d: Daemon, id: Id)
    requires Dismissable(d.handler) && (d.handler.Idle? || d.handler.id != id)
    ensures var t := Run(d, Dismiss(d.handler));
            t.handler.Idle? && SameFor(d, t, id) && t.recovering == d.recovering
  {
    if Dismiss(d.handler) != [] {
      RunOne(d, Dismiss(d.handler)[0]);
    }
  }

  /** The event of another command is done with. */
  lemma SkipGiven(d: Daemon, id: Id) returns (steps: seq<Step>)
    requires d.handler.Given? && d.handler.id != id
    ensures var t := Run(d, steps);
            t.handler.Idle? && SameFor(d, t, id) && t.recovering == d.recovering
    ensures OwnSteps(steps)
  {
    var d1 := Next(d, Receive(false));
    assert SameFor(d, d1, id) && Dismissable(d1.handler);
    Dismissed(d1, id);
    steps := [Receive(false)] + Dismiss(d1.handler);
    RunMore(d, Receive(false), Dismiss(d1.handler));
  }

  /** Start-up goes through the other interrupted commands. */
  lemma {:induction false} SkipRecovering(d: Daemon, id: Id) returns (steps: seq<Step>)
    requires d.handler.Idle? && id !in d.recovering
    ensures var t := Run(d, steps);
            t.handler.Idle? && SameFor(d, t, id) && t.recovering == {}
    ensures OwnSteps(steps)
    decreases |d.recovering|
  {
    if d.recovering == {} {
      steps := [];
    } else {
      var x :| x in d.recovering;
      var d1 := Next(d, Recover(x));
      assert SameFor(d, d1, id) && Dismissable(d1.handler) && d1.recovering == d.recovering - {x};
      Dismissed(d1, id);
      var d2 := Run(d1, Dismiss(d1.handler));
      var rest := SkipRecovering(d2, id);
      steps := [Recover(x)] + (Dismiss(d1.handler) + rest);
      RunMore(d, Recover(x), Dismiss(d1.handler) + rest);
      RunConcat(d1, Dismiss(d1.handler), rest);
    }
  }

  /** With working writes a prepared command is granted and runs. */
  lemma ReadyPerforms(d: Daemon, id: Id) returns (steps: seq<Step>)
    requires d.handler == Ready(id) && InStage(d.memory, id, Prepared)
    ensures OwnSteps(steps) && Run(d, steps).performed[id] == d.performed[id] + 1
  {
    var d1 := Next(d, GrantStart(true));
    var d2 := Next(d1, PostAccepted(false, true));
    steps := [GrantStart(true)] + ([PostAccepted(false, true)] + [Perform]);
    RunMore(d, GrantStart(true), [PostAccepted(false, true)] + [Perform]);
    RunMore(d1, PostAccepted(false, true), [Perform]);
    RunOne(d2, Perform);
  }

  lemma ResettingPerforms(d: Daemon, id: Id) returns (steps: seq<Step>)
    requires d.handler == Resetting(id)
    ensures OwnSteps(steps) && Run(d, steps).performed[id] == d.performed[id] + 1
  {
    var rest := ReadyPerforms(Next(d, Reset(true)), id);
    steps := [Reset(true)] + rest;
    RunMore(d, Reset(true), rest);
  }

  /** An event that is read runs its command unless the record is over. */
  lemma GivenPerforms(d: Daemon, id: Id) returns (steps: seq<Step>)
    requires d.handler == Given(id) && !Over(d.memory, id)
    ensures OwnSteps(steps) && Run(d, steps).performed[id] == d.performed[id] + 1
  {
    var d1 := Next(d, Receive(true));
    var rest;
    if InStage(d.memory, id, Started) {
      rest := ResettingPerforms(d1, id);
    } else {
      rest := ReadyPerforms(d1, id);
    }
    steps := [Receive(true)] + rest;
    RunMore(d, Receive(true), rest);
  }

  /** An interrupted command other than a shutdown runs again at start-up, without being sent again. */
  lemma InterruptedPerforms(d: Daemon, id: Id) returns (steps: seq<Step>)
    requires d.handler.Idle? && id in d.recovering && InStage(d.memory, id, Started) && !id.kind.Shutdown?
    ensures OwnSteps(steps) && Run(d, steps).performed[id] == d.performed[id] + 1
  {
    var d1 := Next(d, Recover(id));
    var rest := ResettingPerforms(d1, id);
    steps := [Recover(id)] + rest;
    RunMore(d, Recover(id), rest);
  }

  /** A command that is sent again after a crash can run, again or for the first time, exactly if its durable record
      is not over: no final stage, and for a shutdown no stage after the first. Whether it is sent again is the
      subject of `CommandDelivery`. */
  lemma RunsIfSentAgainExactly(d: Daemon, id: Id)
    requires Inv(d)
    ensures (exists steps :: Run(Next(d, CrashAndRestart), steps).performed[id] > d.performed[id]) <==> !Over(d.file, id)
  {
    var r := Next(d, CrashAndRestart);
    NextKeepsInv(d, CrashAndRestart);
    if Over(d.file, id) {
      forall steps
        ensures Run(r, steps).performed[id] == d.performed[id]
      {
        NoStartOnceOver(r, steps, id);
      }
    } else if InStage(d.file, id, Started) {
      var steps := InterruptedPerforms(r, id);
      assert Run(r, steps).performed[id] > d.performed[id];
    } else {
      var first := SkipRecovering(r, id);
      var r1 := Run(r, first);
      var rest := GivenPerforms(Next(r1, Read(id, true)), id);
      RunMore(r1, Read(id, true), rest);
      RunConcat(r, first, [Read(id, true)] + rest);
      assert Run(r, first + ([Read(id, true)] + rest)).performed[id] > d.performed[id];
    }
  }

  /** The first two steps of a new command, and its grant. */
  function Granted(id: Id): Daemon {
    Next(Next(Next(NEW, Read(id, true)), Receive(true)), GrantStart(true))
  }

  lemma GrantedIsOk(id: Id)
    ensures Inv(Granted(id)) && Granted(id).handler == Accepting(id) && Granted(id).file.records == map[id := Record(Started, false)]
  {
    NewIsOk();
    NextKeepsInv(NEW, Read(id, true));
    NextKeepsInv(Next(NEW, Read(id, true)), Receive(true));
    NextKeepsInv(Next(Next(NEW, Read(id, true)), Receive(true)), GrantStart(true));
  }

  /** Confirming the accepted acknowledgement already makes the record final. A crash before the side effect
      then loses the command, of whatever kind: it counts as confirmed, has not run and never will, even if it is
      sent again. */
  lemma AcceptedThenCrashedIsLost(id: Id, later: seq<Step>)
    ensures var d := Next(Granted(id), PostAccepted(true, true));
            && d.handler == Running(id) && id in d.file.records && d.file.records[id] == Record(Confirmed, false)
            && Run(Next(d, CrashAndRestart), later).performed[id] == 0
  {
    GrantedIsOk(id);
    var d := Next(Granted(id), PostAccepted(true, true));
    NextKeepsInv(Granted(id), PostAccepted(true, true));
    NextKeepsInv(d, CrashAndRestart);
    NoStartOnceOver(Next(d, CrashAndRestart), later, id);
  }

  /** Before any acknowledgement was confirmed the same crash loses nothing, except a shutdown: start-up itself runs
      the command. */
  lemma StartedThenCrashedRunsAgain(id: Id)
    ensures (exists steps :: OwnSteps(steps) && Run(Next(Granted(id), CrashAndRestart), steps).performed[id] > 0)
            <==> !id.kind.Shutdown?
  {
    GrantedIsOk(id);
    var r := Next(Granted(id), CrashAndRestart);
    NextKeepsInv(Granted(id), CrashAndRestart);
    if id.kind.Shutdown? {
      forall steps
        ensures Run(r, steps).performed[id] == 0
      {
        NoStartOnceOver(r, steps, id);
      }
    } else {
      var steps := InterruptedPerforms(r, id);
      assert OwnSteps(steps) && Run(r, steps).performed[id] > 0;
    }
  }
}
