/** What becomes of the results of commands: a committed one is kept, in memory and in the file, until the server has
    taken it (internal/daemon/client.go, internal/daemon/ledger.go). */
module CommandResults {
  import opened Basics
  import opened CommandLedger

  // ---------------------------------------------------------------- what an event in hand leads to

  /** A new command is prepared and made ready if that could be saved; a prepared one is ready; a started one is taken up
      again, except that a shutdown is reported as uncertain; a committed result is posted again; a confirmed command is
      left alone. */
  lemma EventLeadsExactly(d: Daemon, id: Id, ok: bool)
    requires d.handler == Given(id)
    ensures var t := Next(d, Receive(ok));
            if id !in d.memory.records then
              && id in t.memory.records && t.memory.records[id] == Record(Prepared, false)
              && t.handler == (if ok then Ready(id) else Idle) && t.file == (if ok then t.memory else d.file)
            else
              && t.memory == d.memory && t.file == d.file
              && t.handler ==
                 match d.memory.records[id].stage
                 case Prepared => Ready(id)
                 case Started => if id.kind == Shutdown then Reporting(id) else Resetting(id)
                 case Committed => if d.memory.records[id].hasAck then Posting(id) else Idle
                 case Confirmed => Idle
  {
  }

  /** From the grant to the confirmation, when every write and the posting work. */
  lemma CommandRunsThrough(d: Daemon, id: Id)
    requires d.handler == Ready(id) && InStage(d.memory, id, Prepared) && id.kind != Shutdown
    ensures var started := Next(d, GrantStart(true));
            var running := Next(started, PostAccepted(false, true));
            var done := Next(running, Perform);
            var committed := Next(done, CommitResult(true));
            var posted := Next(committed, PostResult(true, true));
            && started.granted == d.granted + multiset{id} && InStage(started.file, id, Started)
            && running.performed == d.performed && done.performed == d.performed + multiset{id}
            && id in committed.file.records && committed.file.records[id] == Record(Committed, true)
            && id in posted.file.records && posted.file.records[id] == Record(Confirmed, true)
            && posted.handler == Idle && posted.memory == posted.file
  {
  }

  /** A shutdown runs by being scheduled; its timer commits the result, which then waits to be posted. */
  lemma ShutdownRunsThrough(d: Daemon, id: Id)
    requires d.handler == Running(id) && id.kind == Shutdown
    ensures var scheduled := Next(d, Perform);
            var fired := Next(scheduled, TimerFires(id, true));
            && scheduled.handler == Idle && scheduled.timers == d.timers + {id} && scheduled.performed == d.performed + multiset{id}
            && id in fired.file.records && fired.file.records[id] == Record(Committed, true) && id in fired.posting && id !in fired.timers
  {
  }

  /** What is reported instead of run: a shutdown that was interrupted, and a command with a malformed payload. The report
      is committed and posted like a result, and nothing is granted or run. */
  lemma ReportIsPosted(d: Daemon, id: Id)
    requires d.handler == Reporting(id)
    ensures var committed := Next(d, Report(true));
            var posted := Next(committed, PostResult(true, true));
            && id in committed.file.records && committed.file.records[id] == Record(Committed, true) && committed.handler == Posting(id)
            && id in posted.file.records && posted.file.records[id] == Record(Confirmed, true) && posted.handler == Idle
            && posted.granted == d.granted && posted.performed == d.performed
  {
  }

  // ---------------------------------------------------------------- how records move

  predicate BecomesPrepared(d: Daemon, s: Step, id: Id) {
    (s.Receive? && d.handler == Given(id) && id !in d.memory.records) || (s.Reset? && d.handler == Resetting(id))
  }

  predicate BecomesStarted(d: Daemon, s: Step, id: Id) {
    s.GrantStart? && d.handler == Ready(id) && id in d.memory.records && d.memory.records[id].stage == Prepared
  }

  predicate BecomesCommitted(d: Daemon, s: Step, id: Id) {
    || (s.CommitResult? && d.handler == Done(id))
    || (s.Report? && d.handler == Reporting(id))
    || (s.TimerFires? && s.id == id && id in d.timers)
  }

  /** Only an acknowledgement that the server took confirms. */
  predicate BecomesConfirmed(d: Daemon, s: Step, id: Id) {
    || (s.PostAccepted? && s.posted && d.handler == Accepting(id))
    || (s.PostResult? && s.posted && d.handler == Posting(id))
    || (s.BackgroundPosted? && s.posted && s.id == id && id in d.posting)
  }

  predicate HasRecord(l: Ledger, id: Id, r: Record) {
    id in l.records && l.records[id] == r
  }

  /** Each record in memory moves in exactly these cases, whether or not the move can be written; a crash takes it back to
      the file. */
  lemma RecordMovesExactly(d: Daemon, s: Step, id: Id)
    ensures var m := Next(d, s).memory; var had := id in d.memory.records && d.memory.records[id].hasAck;
            && (BecomesPrepared(d, s, id) ==> HasRecord(m, id, Record(Prepared, had)))
            && (BecomesStarted(d, s, id) ==> HasRecord(m, id, Record(Started, had)))
            && (BecomesCommitted(d, s, id) ==> HasRecord(m, id, Record(Committed, true)))
            && (BecomesConfirmed(d, s, id) ==> HasRecord(m, id, Record(Confirmed, had)))
            && (s.CrashAndRestart? ==> m == d.file)
            && (!BecomesPrepared(d, s, id) && !BecomesStarted(d, s, id) && !BecomesCommitted(d, s, id) && !BecomesConfirmed(d, s, id)
                && !s.CrashAndRestart? ==>
                  (id in m.records <==> id in d.memory.records) && (id in m.records ==> m.records[id] == d.memory.records[id]))
  {
  }

  predicate WriteWorks(s: Step) {
    match s
    case Read(_, ok) => ok
    case Receive(ok) => ok
    case Reset(ok) => ok
    case GrantStart(ok) => ok
    case PostAccepted(_, ok) => ok
    case CommitResult(ok) => ok
    case Report(ok) => ok
    case PostResult(_, ok) => ok
    case TimerFires(_, ok) => ok
    case BackgroundPosted(_, _, ok) => ok
    case _ => false
  }

  /** A write that works makes the file what is in memory then, with everything that earlier failed writes left there; a
      changed record or cursor is always written if the write works, and without one the file stays. */
  lemma FileFollowsExactly(d: Daemon, s: Step)
    ensures var t := Next(d, s);
            && (!WriteWorks(s) ==> t.file == d.file)
            && (t.file == d.file || t.file == t.memory)
            && (WriteWorks(s) && t.memory != d.memory ==> t.file == t.memory)
  {
  }

  /** A side effect is granted exactly when the start of a prepared command is written, and run exactly in the step that
      runs it. */
  lemma GrantedAndRunExactly(d: Daemon, s: Step, id: Id)
    ensures Next(d, s).granted[id] == d.granted[id] + (if BecomesStarted(d, s, id) && s.writeOk then 1 else 0)
    ensures Next(d, s).performed[id] == d.performed[id] + (if s.Perform? && d.handler == Running(id) then 1 else 0)
  {
  }

  // ---------------------------------------------------------------- a result is kept until it is taken

  /** The server takes an acknowledgement of the command. */
  predicate Posts(d: Daemon, s: Step, id: Id) {
    || (s.PostResult? && s.posted && d.handler == Posting(id))
    || (s.PostAccepted? && s.posted && d.handler == Accepting(id))
    || (s.BackgroundPosted? && s.posted && s.id == id && id in d.posting)
  }

  predicate Waits(d: Daemon, id: Id) {
    AwaitsPost(d.file, id) && AwaitsPost(d.memory, id)
  }

  lemma WaitingAtGuard(d: Daemon, s: Step, id: Id)
    requires IdOk(d, id) && Waits(d, id) && (AtGuard(s) || AtStart(s))
    ensures Waits(Next(d, s), id)
  {
  }

  lemma WaitingElsewhere(d: Daemon, s: Step, id: Id)
    requires IdOk(d, id) && Waits(d, id) && !AtGuard(s) && !AtStart(s) && !Posts(d, s, id)
    ensures Waits(Next(d, s), id)
  {
  }

  ghost predicate PostedIn(d: Daemon, steps: seq<Step>, id: Id)
    decreases |steps|
  {
    steps != [] && (Posts(d, steps[0], id) || PostedIn(Next(d, steps[0]), steps[1..], id))
  }

  /** Through failing writes, crashes and restarts a committed result waits in the file until the server takes it. */
  lemma {:induction false} ResultIsKeptUntilTaken(d: Daemon, steps: seq<Step>, id: Id)
    requires Inv(d) && Waits(d, id) && !PostedIn(d, steps, id)
    ensures Waits(Run(d, steps), id)
    decreases |steps|
  {
    if steps != [] {
      assert IdOk(d, id);
      NextKeepsInv(d, steps[0]);
      if AtGuard(steps[0]) || AtStart(steps[0]) {
        WaitingAtGuard(d, steps[0], id);
      } else {
        WaitingElsewhere(d, steps[0], id);
      }
      ResultIsKeptUntilTaken(Next(d, steps[0]), steps[1..], id);
    }
  }

  /** As long as it waits, the retry loop picks it up, also after a crash, and once it is taken it is confirmed. */
  lemma WaitingResultIsPosted(d: Daemon, id: Id)
    requires Waits(d, id)
    ensures id in Next(d, PickPending(id)).posting
    ensures AwaitsPost(Next(d, CrashAndRestart).memory, id)
    ensures var taken := Next(Next(d, PickPending(id)), BackgroundPosted(id, true, true));
            InStage(taken.file, id, Confirmed) && InStage(taken.memory, id, Confirmed) && id !in taken.posting
  {
  }
}
