/** The commands of one device on their way from the server into the agent's ledger, and which of them a crash of the
    agent loses (internal/daemon/client.go, internal/daemon/ledger.go, internal/broker/broker.go, internal/api/api.go). */
module CommandDelivery {
  import opened Basics
  import opened Replays
  import opened CommandLedger

  /** The events published for the device, the place where the broker's bounded history begins, and the events that
      are never published again: the commands whose publication some connection counted, which makes them dispatched.
      A command that nobody listened to is queued again and published once more when the device connects. */
  datatype Server = Server(log: seq<Id>, start: nat, dispatched: set<Id>)

  /** The agent's connection: subscribed and not yet replayed, then the events that were written to it and those that
      wait in its queue. */
  datatype Link = Down | Subscribed(queue: seq<Id>) | Open(sent: seq<Id>, queue: seq<Id>)

  datatype System = System(agent: Daemon, server: Server, link: Link)

  /** `spent`: the event is never published again whether or not the agent's connection counts it: another connection
      of the device does, perhaps one whose peer is gone, or it is no command. */
  datatype Move =
    | Agent(step: Step)
    | Publish(id: Id, spent: bool)
    | Subscribe
    | Replay
    | Send
    | Disconnect
    | RestartServer

  function Push(v: Server, id: Id): Server {
    var start := HistoryStart(|v.log| + 1);
    Server(v.log + [id], if v.start <= start then start else v.start, v.dispatched)
  }

  function Published(v: Server, id: Id, counted: bool): Server {
    Push(v, id).(dispatched := if counted then v.dispatched + {id} else v.dispatched)
  }

  /** What the broker gives after the cursor; nothing when it does not find it. */
  ghost function ReplayAfter(v: Server, cursor: Option<Id>): seq<Id> {
    if cursor.None? then []
    else
      var p := FindFrom(v.log, v.start, cursor.value);
      if p.Some? then v.log[p.value + 1..] else []
  }

  predicate AtRest(d: Daemon) {
    d.handler.Idle? && d.recovering == {}
  }

  /** The agent reads what was written to its connection, in order; a crash ends the connection. */
  function AgentMove(s: System, step: Step): System {
    var t := s.(agent := Next(s.agent, step));
    match step
    case Read(id, _) =>
      if AtRest(s.agent) && s.link.Open? && s.link.sent != [] && s.link.sent[0] == id
      then t.(link := Open(s.link.sent[1..], s.link.queue)) else s
    case CrashAndRestart => t.(link := Down)
    case _ => t
  }

  function PublishMove(s: System, id: Id, spent: bool): System {
    if id in s.server.dispatched then s
    else if !s.link.Down? && |s.link.queue| < QUEUE_SIZE then
      s.(server := Published(s.server, id, true), link := s.link.(queue := s.link.queue + [id]))
    else s.(server := Published(s.server, id, spent))
  }

  ghost function Act(s: System, m: Move): System {
    match m
    case Agent(step) => AgentMove(s, step)
    case Publish(id, spent) => PublishMove(s, id, spent)
    case Subscribe => if s.link.Down? && AtRest(s.agent) then s.(link := Subscribed([])) else s
    case Replay =>
      if s.link.Subscribed? then s.(link := Open(ReplayAfter(s.server, s.agent.memory.cursor), s.link.queue)) else s
    case Send =>
      if s.link.Open? && s.link.queue != []
      then s.(link := Open(s.link.sent + [s.link.queue[0]], s.link.queue[1..])) else s
    case Disconnect => s.(link := Down)
    case RestartServer => s.(server := s.server.(start := |s.server.log|), link := Down)
  }

  ghost function Play(s: System, moves: seq<Move>): System
    decreases |moves|
  {
    if moves == [] then s else Play(Act(s, moves[0]), moves[1..])
  }

  // ---------------------------------------------------------------- what can come again

  /** The event is not found in the history before place n - 1, so replays after it begin at n or later. */
  predicate Behind(log: seq<Id>, start: nat, n: nat, x: Id) {
    forall i :: start <= i < |log| && i + 1 < n ==> log[i] != x
  }

  /** From place n on the history has neither the command nor an event after which an earlier place is replayed. */
  predicate Sealed(log: seq<Id>, start: nat, n: nat, id: Id) {
    && n <= |log|
    && (forall j :: start <= j < |log| && n <= j ==> log[j] != id)
    && (forall j :: n <= j < |log| ==> Behind(log, start, n, log[j]))
  }

  /** However often an agent with cursor x connects, the history does not give it the command. */
  ghost predicate OutOfReach(log: seq<Id>, start: nat, x: Id, id: Id) {
    exists n: nat {:trigger Sealed(log, start, n, id)} :: Sealed(log, start, n, id) && Behind(log, start, n, x)
  }

  /** The history does not give the command to this cursor; without a cursor nothing is replayed. */
  ghost predicate LostTo(v: Server, cursor: Option<Id>, id: Id) {
    cursor.Some? ==> OutOfReach(v.log, v.start, cursor.value, id)
  }

  /** Nor does it once this event was published at its end and read. */
  ghost predicate LostAfter(v: Server, e: Id, id: Id) {
    OutOfReach(Push(v, e).log, Push(v, e).start, e, id)
  }

  /** The command itself was dispatched, and no command that may be published again leads back to it. */
  ghost predicate LostToQueued(v: Server, id: Id) {
    id in v.dispatched && forall e {:trigger LostAfter(v, e, id)} :: e !in v.dispatched ==> LostAfter(v, e, id)
  }

  /** The server may still send the command to an agent that has nothing but this cursor. */
  ghost predicate CanCome(v: Server, cursor: Option<Id>, id: Id) {
    !LostTo(v, cursor, id) || !LostToQueued(v, id)
  }

  /** Without repeated IDs all this is a matter of order: the command comes again exactly if it stands after the cursor. */
  lemma ReachWithoutRepeats(log: seq<Id>, start: nat, x: Id, id: Id)
    requires forall i, j :: start <= i < j < |log| ==> log[i] != log[j]
    ensures !OutOfReach(log, start, x, id) <==> exists p, j :: start <= p < j < |log| && log[p] == x && log[j] == id
  {
    if p, j :| start <= p < j < |log| && log[p] == x && log[j] == id {
      if n: nat :| Sealed(log, start, n, id) && Behind(log, start, n, x) {
        assert false;
      }
    } else if p: nat :| start <= p < |log| && log[p] == x {
      assert Sealed(log, start, p + 1, id);
    } else {
      assert Sealed(log, start, |log|, id);
    }
  }

  // ---------------------------------------------------------------- a command that cannot come any more

  /** Two cuts of logs that differ in their ends only: the earlier one seals both ends. */
  lemma PushKeepsReach(log: seq<Id>, start: nat, x: Id, id: Id, e: Id, more: nat)
    requires OutOfReach(log, start, x, id) && OutOfReach(log + [e], more, e, id) && e != id && start <= more
    ensures OutOfReach(log + [e], more, x, id)
  {
    var n: nat :| Sealed(log, start, n, id) && Behind(log, start, n, x);
    var k: nat :| Sealed(log + [e], more, k, id) && Behind(log + [e], more, k, e);
    var m := if n <= k then n else k;
    forall j | m <= j < |log + [e]|
      ensures Behind(log + [e], more, m, (log + [e])[j])
    {
      if j < |log| && m == n {
        assert Behind(log, start, n, log[j]);
      }
    }
    assert Sealed(log + [e], more, m, id);
    assert Behind(log + [e], more, m, x);
  }

  lemma PublishKeepsLostTo(v: Server, cursor: Option<Id>, id: Id, e: Id, counted: bool)
    requires LostTo(v, cursor, id) && LostToQueued(v, id) && e !in v.dispatched
    ensures LostTo(Published(v, e, counted), cursor, id)
  {
    assert LostAfter(v, e, id);
    if cursor.Some? {
      PushKeepsReach(v.log, v.start, cursor.value, id, e, Push(v, e).start);
    }
  }

  /** An earlier cut of a log that agrees with this one up to there. */
  lemma BehindSame(a: seq<Id>, b: seq<Id>, start: nat, more: nat, n: nat, m: nat, common: nat, x: Id)
    requires Behind(a, start, n, x) && m <= n && m <= common + 1 && start <= more
    requires common <= |a| && common <= |b| && a[..common] == b[..common]
    ensures Behind(b, more, m, x)
  {
    forall i | more <= i < |b| && i + 1 < m
      ensures b[i] != x
    {
      assert a[..common][i] == a[i] && b[..common][i] == b[i];
    }
  }

  lemma PushKeepsLostAfter(v: Server, id: Id, e: Id, f: Id)
    requires LostAfter(v, e, id) && LostAfter(v, f, id) && e != id && f != id
    ensures LostAfter(Push(v, e), f, id)
  {
    var t, u, w := Push(v, e), Push(v, f), Push(Push(v, e), f);
    var n: nat :| Sealed(t.log, t.start, n, id) && Behind(t.log, t.start, n, e);
    var k: nat :| Sealed(u.log, u.start, k, id) && Behind(u.log, u.start, k, f);
    var m := if n <= k then n else k;
    var common := |v.log|;
    assert t.log[..common] == u.log[..common] == w.log[..common];
    forall j | m <= j < |w.log|
      ensures Behind(w.log, w.start, m, w.log[j])
    {
      if j == common + 1 || (j < common && m == k) {
        BehindSame(u.log, w.log, u.start, w.start, k, m, common, w.log[j]);
      } else {
        BehindSame(t.log, w.log, t.start, w.start, n, m, common, w.log[j]);
      }
    }
    BehindSame(u.log, w.log, u.start, w.start, k, m, common, f);
    assert Sealed(w.log, w.start, m, id);
  }

  lemma PublishKeepsLostToQueued(v: Server, id: Id, e: Id, counted: bool)
    requires LostToQueued(v, id) && e !in v.dispatched
    ensures LostToQueued(Published(v, e, counted), id)
  {
    var t := Published(v, e, counted);
    assert LostAfter(v, e, id);
    forall f | f !in t.dispatched
      ensures LostAfter(t, f, id)
    {
      assert LostAfter(v, f, id);
      PushKeepsLostAfter(v, id, e, f);
    }
  }

  /** An empty history gives nothing. */
  lemma EmptyHistory(log: seq<Id>, x: Id, id: Id)
    ensures OutOfReach(log, |log|, x, id) && (log != [] && log[|log| - 1] == x ==> OutOfReach(log, |log| - 1, x, id))
  {
    assert Sealed(log, |log|, |log|, id);
    if log != [] && log[|log| - 1] == x {
      assert Sealed(log, |log| - 1, |log|, id);
    }
  }

  lemma RestartKeepsLost(v: Server, cursor: Option<Id>, id: Id)
    requires LostToQueued(v, id)
    ensures LostTo(v.(start := |v.log|), cursor, id) && LostToQueued(v.(start := |v.log|), id)
  {
    var t := v.(start := |v.log|);
    if cursor.Some? {
      EmptyHistory(v.log, cursor.value, id);
    }
    forall e | e !in t.dispatched
      ensures LostAfter(t, e, id)
    {
      EmptyHistory(v.log + [e], e, id);
    }
  }

  // ---------------------------------------------------------------- the machine while the command is gone

  /** The agent is not busy with the command, has not started it, and will not find it interrupted. */
  predicate Quiet(d: Daemon, id: Id) {
    && (d.handler.Idle? || d.handler.id != id)
    && id !in d.recovering && id !in d.timers
    && !InStage(d.memory, id, Started) && !InStage(d.file, id, Started)
  }

  lemma QuietGuard(d: Daemon, s: Step, id: Id)
    requires Quiet(d, id) && (s.Read? ==> s.id != id) && (AtGuard(s) || AtStart(s))
    ensures Quiet(Next(d, s), id) && Next(d, s).performed[id] == d.performed[id]
  {
  }

  lemma QuietHandling(d: Daemon, s: Step, id: Id)
    requires Quiet(d, id) && (AtSideEffect(s) || AtResult(s))
    ensures Quiet(Next(d, s), id) && Next(d, s).performed[id] == d.performed[id]
  {
  }

  lemma QuietBackground(d: Daemon, s: Step, id: Id)
    requires Quiet(d, id) && InBackground(s)
    ensures Quiet(Next(d, s), id) && Next(d, s).performed[id] == d.performed[id]
  {
  }

  lemma QuietStep(d: Daemon, s: Step, id: Id)
    requires Quiet(d, id) && (s.Read? ==> s.id != id)
    ensures Quiet(Next(d, s), id) && Next(d, s).performed[id] == d.performed[id]
  {
    if AtGuard(s) || AtStart(s) {
      QuietGuard(d, s, id);
    } else if InBackground(s) {
      QuietBackground(d, s, id);
    } else {
      QuietHandling(d, s, id);
    }
  }

  /** Where a step leaves the two cursors. */
  lemma CursorStep(d: Daemon, s: Step)
    ensures var t := Next(d, s);
            && t.memory.cursor == (if s.Read? && AtRest(d) then Some(s.id) else if s.CrashAndRestart? then d.file.cursor else d.memory.cursor)
            && (t.file.cursor == d.file.cursor || t.file.cursor == t.memory.cursor)
  {
  }

  predicate Events(l: Link, e: Id) {
    (!l.Down? && e in l.queue) || (l.Open? && e in l.sent)
  }

  /** The command is on no way to the agent: not behind a cursor, not on the connection, not in the agent's hands. */
  ghost predicate Gone(s: System, id: Id) {
    && Quiet(s.agent, id)
    && LostToQueued(s.server, id) && LostTo(s.server, s.agent.memory.cursor, id) && LostTo(s.server, s.agent.file.cursor, id)
    && forall e {:trigger Events(s.link, e)} :: Events(s.link, e) ==> e != id && LostTo(s.server, Some(e), id)
  }

  lemma GoneAgentMove(s: System, step: Step, id: Id)
    requires Gone(s, id)
    ensures Gone(AgentMove(s, step), id) && AgentMove(s, step).agent.performed[id] == s.agent.performed[id]
  {
    var t := AgentMove(s, step);
    if step.Read? {
      if t != s {
        assert Events(s.link, step.id);
        QuietStep(s.agent, step, id);
        CursorStep(s.agent, step);
        forall e | Events(t.link, e)
          ensures Events(s.link, e)
        {
        }
      }
    } else {
      QuietStep(s.agent, step, id);
      CursorStep(s.agent, step);
    }
  }

  lemma GonePublish(s: System, e: Id, spent: bool, id: Id)
    requires Gone(s, id)
    ensures Gone(PublishMove(s, e, spent), id)
  {
    if e !in s.server.dispatched {
      var t := PublishMove(s, e, spent);
      var counted := e in t.server.dispatched;
      assert t.server == Published(s.server, e, counted);
      PublishKeepsLostToQueued(s.server, id, e, counted);
      PublishKeepsLostTo(s.server, s.agent.memory.cursor, id, e, counted);
      PublishKeepsLostTo(s.server, s.agent.file.cursor, id, e, counted);
      assert LostAfter(s.server, e, id);
      forall f | Events(t.link, f)
        ensures f != id && LostTo(t.server, Some(f), id)
      {
        if Events(s.link, f) {
          PublishKeepsLostTo(s.server, Some(f), id, e, counted);
        } else {
          assert f == e;
        }
      }
    }
  }

  lemma GoneReplay(s: System, id: Id)
    requires Gone(s, id)
    ensures Gone(Act(s, Replay), id)
  {
    if s.link.Subscribed? {
      var v := s.server;
      var t := Act(s, Replay);
      forall e | Events(t.link, e)
        ensures e != id && LostTo(v, Some(e), id)
      {
        if !Events(s.link, e) {
          AfterTheCut(v, s.agent.memory.cursor, id, e);
        }
      }
    }
  }

  lemma AfterTheCut(v: Server, cursor: Option<Id>, id: Id, e: Id)
    requires LostTo(v, cursor, id) && e in ReplayAfter(v, cursor)
    ensures e != id && LostTo(v, Some(e), id)
  {
    var x := cursor.value;
    var n: nat :| Sealed(v.log, v.start, n, id) && Behind(v.log, v.start, n, x);
    var p := FindFrom(v.log, v.start, x).value;
    var k :| 0 <= k < |v.log[p + 1..]| && v.log[p + 1..][k] == e;
    assert v.log[p + 1 + k] == e;
  }

  lemma GoneMove(s: System, m: Move, id: Id)
    requires Gone(s, id)
    ensures Gone(Act(s, m), id) && Act(s, m).agent.performed[id] == s.agent.performed[id]
  {
    match m
    case Agent(step) => GoneAgentMove(s, step, id);
    case Publish(e, spent) => GonePublish(s, e, spent, id);
    case Replay => GoneReplay(s, id);
    case RestartServer =>
      RestartKeepsLost(s.server, s.agent.memory.cursor, id);
      RestartKeepsLost(s.server, s.agent.file.cursor, id);
    case Send =>
      forall e | Events(Act(s, m).link, e)
        ensures Events(s.link, e)
      {
      }
    case Subscribe =>
    case Disconnect =>
  }

  lemma {:induction false} GoneForever(s: System, moves: seq<Move>, id: Id)
    requires Gone(s, id)
    ensures Play(s, moves).agent.performed[id] == s.agent.performed[id]
    decreases |moves|
  {
    if moves != [] {
      GoneMove(s, moves[0], id);
      GoneForever(Act(s, moves[0]), moves[1..], id);
    }
  }

  // ---------------------------------------------------------------- a command that is over

  lemma {:induction false} PlayKeepsInv(s: System, moves: seq<Move>)
    requires Inv(s.agent)
    ensures Inv(Play(s, moves).agent)
    decreases |moves|
  {
    if moves != [] {
      if moves[0].Agent? {
        NextKeepsInv(s.agent, moves[0].step);
      }
      PlayKeepsInv(Act(s, moves[0]), moves[1..]);
    }
  }

  lemma {:induction false} OverForever(s: System, moves: seq<Move>, id: Id)
    requires Inv(s.agent) && Closed(s.agent, id) && !Pending(s.agent, id)
    ensures Play(s, moves).agent.performed[id] == s.agent.performed[id]
    decreases |moves|
  {
    if moves != [] {
      assert IdOk(s.agent, id);
      if moves[0].Agent? {
        NextKeepsInv(s.agent, moves[0].step);
        NextKeepsClosed(s.agent, moves[0].step, id);
      }
      OverForever(Act(s, moves[0]), moves[1..], id);
    }
  }

  // ---------------------------------------------------------------- a command that can come

  lemma PlayMore(s: System, first: Move, rest: seq<Move>)
    ensures Play(s, [first] + rest) == Play(Act(s, first), rest)
  {
    assert ([first] + rest)[1..] == rest;
  }

  lemma {:induction false} PlayConcat(s: System, a: seq<Move>, b: seq<Move>)
    ensures Play(s, a + b) == Play(Play(s, a), b)
    decreases |a|
  {
    if a == [] {
      assert a + b == b;
    } else {
      assert (a + b)[0] == a[0] && (a + b)[1..] == a[1..] + b;
      PlayConcat(Act(s, a[0]), a[1..], b);
    }
  }

  /** The agent's own steps need neither server nor connection. */
  lemma {:induction false} PlayOwn(s: System, steps: seq<Step>) returns (moves: seq<Move>)
    requires OwnSteps(steps)
    ensures Play(s, moves) == s.(agent := Run(s.agent, steps))
    decreases |steps|
  {
    if steps == [] {
      moves := [];
    } else {
      assert steps[0] in steps;
      var s1 := Act(s, Agent(steps[0]));
      var rest := PlayOwn(s1, steps[1..]);
      moves := [Agent(steps[0])] + rest;
      PlayMore(s, Agent(steps[0]), rest);
    }
  }

  /** The agent is at rest again and nothing but its cursor and other commands' records has changed. */
  predicate Kept(s: System, t: System, id: Id) {
    && t.server == s.server && AtRest(t.agent)
    && t.agent.performed == s.agent.performed && (Over(t.agent.memory, id) <==> Over(s.agent.memory, id))
  }

  predicate Reading(s: System, sent: seq<Id>) {
    AtRest(s.agent) && s.link.Open? && s.link.sent == sent
  }

  lemma SkipOne(s: System, x: Id, rest: seq<Id>, id: Id) returns (moves: seq<Move>)
    requires Reading(s, [x] + rest) && x != id
    ensures var t := Play(s, moves);
            Kept(s, t, id) && Reading(t, rest) && t.agent.memory.cursor == Some(x)
  {
    var s1 := Act(s, Agent(Read(x, false)));
    assert s1.agent == Next(s.agent, Read(x, false)) && s1.link.sent == rest;
    var steps := SkipGiven(s1.agent, id);
    var own := PlayOwn(s1, steps);
    moves := [Agent(Read(x, false))] + own;
    PlayMore(s, Agent(Read(x, false)), own);
  }

  lemma {:induction false} SkipAll(s: System, before: seq<Id>, rest: seq<Id>, id: Id) returns (moves: seq<Move>)
    requires Reading(s, before + rest) && id !in before
    ensures var t := Play(s, moves);
            && Kept(s, t, id) && Reading(t, rest)
            && t.agent.memory.cursor == if before == [] then s.agent.memory.cursor else Some(before[|before| - 1])
    decreases |before|
  {
    if before == [] {
      moves := [];
      assert before + rest == rest;
    } else {
      assert before + rest == [before[0]] + (before[1..] + rest);
      var first := SkipOne(s, before[0], before[1..] + rest, id);
      var more := SkipAll(Play(s, first), before[1..], rest, id);
      moves := first + more;
      PlayConcat(s, first, more);
    }
  }

  lemma SkipTo(s: System, sent: seq<Id>, next: Id, id: Id) returns (moves: seq<Move>)
    requires Reading(s, sent) && next in sent && id !in sent
    ensures Kept(s, Play(s, moves), id) && Play(s, moves).agent.memory.cursor == Some(next)
  {
    var k :| 0 <= k < |sent| && sent[k] == next;
    assert sent == sent[..k + 1] + sent[k + 1..];
    moves := SkipAll(s, sent[..k + 1], sent[k + 1..], id);
  }

  lemma FirstPerforms(s: System, rest: seq<Id>, id: Id) returns (moves: seq<Move>)
    requires Reading(s, [id] + rest) && !Over(s.agent.memory, id)
    ensures Play(s, moves).agent.performed[id] == s.agent.performed[id] + 1
  {
    var s1 := Act(s, Agent(Read(id, true)));
    assert s1.agent == Next(s.agent, Read(id, true));
    var steps := GivenPerforms(s1.agent, id);
    var own := PlayOwn(s1, steps);
    moves := [Agent(Read(id, true))] + own;
    PlayMore(s, Agent(Read(id, true)), own);
  }

  /** A command that was written to the connection runs, unless its record is over. */
  lemma SentPerforms(s: System, sent: seq<Id>, id: Id) returns (moves: seq<Move>)
    requires Reading(s, sent) && id in sent && !Over(s.agent.memory, id)
    ensures Play(s, moves).agent.performed[id] == s.agent.performed[id] + 1
  {
    var j :| 0 <= j < |sent| && sent[j] == id;
    HasFirst(sent, 0, id, j);
    var p: nat :| p <= j && FirstFrom(sent, 0, id, p);
    assert sent == sent[..p] + ([id] + sent[p + 1..]);
    var first := SkipAll(s, sent[..p], [id] + sent[p + 1..], id);
    var rest := FirstPerforms(Play(s, first), sent[p + 1..], id);
    moves := first + rest;
    PlayConcat(s, first, rest);
  }

  /** The agent connects anew: what the history has after its cursor is written to the connection. */
  lemma Reconnect(s: System) returns (moves: seq<Move>)
    requires AtRest(s.agent)
    ensures Play(s, moves) == s.(link := Open(ReplayAfter(s.server, s.agent.memory.cursor), []))
  {
    moves := [Disconnect] + ([Subscribe] + [Replay]);
    PlayMore(s, Disconnect, [Subscribe] + [Replay]);
    PlayMore(Act(s, Disconnect), Subscribe, [Replay]);
    PlayMore(Act(Act(s, Disconnect), Subscribe), Replay, []);
    assert [Replay] + [] == [Replay];
  }

  /** The agent connects anew, and the server publishes a queued command before it takes the replay. */
  lemma ReconnectQueued(s: System, e: Id) returns (moves: seq<Move>)
    requires AtRest(s.agent) && e !in s.server.dispatched
    ensures var v := Published(s.server, e, true);
            Play(s, moves) == System(s.agent, v, Open(ReplayAfter(v, s.agent.memory.cursor) + [e], []))
  {
    moves := [Disconnect] + ([Subscribe] + ([Publish(e, true)] + ([Replay] + [Send])));
    assert [e][1..] == [];
    var s1 := Act(s, Disconnect);
    var s2 := Act(s1, Subscribe);
    var s3 := Act(s2, Publish(e, true));
    var s4 := Act(s3, Replay);
    PlayMore(s, Disconnect, [Subscribe] + ([Publish(e, true)] + ([Replay] + [Send])));
    PlayMore(s1, Subscribe, [Publish(e, true)] + ([Replay] + [Send]));
    PlayMore(s2, Publish(e, true), [Replay] + [Send]);
    PlayMore(s3, Replay, [Send]);
    PlayMore(s4, Send, []);
    assert [Send] + [] == [Send];
    assert s2.link == Subscribed([]) && s3.link == Subscribed([e]);
  }

  /** Where the history leads on from: to the command, or to an event that stands at an earlier place as well. */
  lemma WhereItLeads(v: Server, x: Id, id: Id) returns (p: nat, next: Id, q: nat)
    requires !OutOfReach(v.log, v.start, x, id)
    ensures FirstFrom(v.log, v.start, x, p) && next in v.log[p + 1..]
    ensures next == id || (FirstFrom(v.log, v.start, next, q) && q < p && !OutOfReach(v.log, v.start, next, id))
  {
    var log, start := v.log, v.start;
    var end: nat := |log|;
    assert Sealed(log, start, end, id);
    assert !Behind(log, start, end, x);
    var i: nat :| start <= i < |log| && i + 1 < end && log[i] == x;
    HasFirst(log, start, x, i);
    p :| p <= i && FirstFrom(log, start, x, p);
    assert Behind(log, start, p + 1, x);
    assert !Sealed(log, start, p + 1, id);
    q := 0;
    if j: nat :| start <= j < |log| && p + 1 <= j && log[j] == id {
      next := id;
      assert log[p + 1..][j - p - 1] == id;
    } else {
      var j: nat :| p + 1 <= j < |log| && !Behind(log, start, p + 1, log[j]);
      next := log[j];
      assert log[p + 1..][j - p - 1] == next;
      var k: nat :| start <= k < |log| && k + 1 < p + 1 && log[k] == next;
      HasFirst(log, start, next, k);
      q :| q <= k && FirstFrom(log, start, next, q);
      EarlierReaches(log, start, x, p, next, q, id);
    }
  }

  lemma EarlierReaches(log: seq<Id>, start: nat, x: Id, p: nat, next: Id, q: nat, id: Id)
    requires FirstFrom(log, start, x, p) && FirstFrom(log, start, next, q) && q < p
    requires !OutOfReach(log, start, x, id)
    ensures !OutOfReach(log, start, next, id)
  {
    if n: nat :| Sealed(log, start, n, id) && Behind(log, start, n, next) {
      assert n <= q + 1;
      assert Behind(log, start, n, x);
    }
  }

  /** The agent reaches the command over as many connections as it takes; each one leads to an earlier place. */
  lemma {:induction false} ReachPerforms(s: System, id: Id, p: nat) returns (moves: seq<Move>)
    requires AtRest(s.agent) && !Over(s.agent.memory, id) && s.agent.memory.cursor.Some?
    requires FirstFrom(s.server.log, s.server.start, s.agent.memory.cursor.value, p)
    requires !LostTo(s.server, s.agent.memory.cursor, id)
    ensures Play(s, moves).agent.performed[id] == s.agent.performed[id] + 1
    decreases p
  {
    var v, x := s.server, s.agent.memory.cursor.value;
    var place, next, q := WhereItLeads(v, x, id);
    FirstIsUnique(v.log, v.start, x, p, place);
    FindIs(v.log, v.start, x, p);
    var first := Reconnect(s);
    var s1 := Play(s, first);
    var sent := v.log[p + 1..];
    var rest;
    if id in sent {
      rest := SentPerforms(s1, sent, id);
    } else {
      var skip := SkipTo(s1, sent, next, id);
      var more := ReachPerforms(Play(s1, skip), id, q);
      rest := skip + more;
      PlayConcat(s1, skip, more);
    }
    moves := first + rest;
    PlayConcat(s, first, rest);
  }

  lemma CursorPerforms(s: System, id: Id) returns (moves: seq<Move>)
    requires AtRest(s.agent) && !Over(s.agent.memory, id) && !LostTo(s.server, s.agent.memory.cursor, id)
    ensures Play(s, moves).agent.performed[id] == s.agent.performed[id] + 1
  {
    var p, _, _ := WhereItLeads(s.server, s.agent.memory.cursor.value, id);
    moves := ReachPerforms(s, id, p);
  }

  /** A queued command is published again, and its own event leads back to the lost one. */
  lemma QueuedPerforms(s: System, id: Id, e: Id) returns (moves: seq<Move>)
    requires AtRest(s.agent) && !Over(s.agent.memory, id)
    requires e !in s.server.dispatched && (e == id || !LostAfter(s.server, e, id))
    ensures Play(s, moves).agent.performed[id] == s.agent.performed[id] + 1
  {
    var first := ReconnectQueued(s, e);
    var s1 := Play(s, first);
    var replay := ReplayAfter(s1.server, s.agent.memory.cursor);
    var sent := replay + [e];
    var rest;
    if id in sent {
      rest := SentPerforms(s1, sent, id);
    } else {
      assert sent[|replay|] == e && sent + [] == sent;
      var skip := SkipAll(s1, sent, [], id);
      var more := CursorPerforms(Play(s1, skip), id);
      rest := skip + more;
      PlayConcat(s1, skip, more);
    }
    moves := first + rest;
    PlayConcat(s, first, rest);
  }

  lemma ComingPerforms(s: System, id: Id) returns (moves: seq<Move>)
    requires s.agent.handler.Idle? && id !in s.agent.recovering && !Over(s.agent.memory, id)
    requires CanCome(s.server, s.agent.memory.cursor, id)
    ensures Play(s, moves).agent.performed[id] == s.agent.performed[id] + 1
  {
    var steps := SkipRecovering(s.agent, id);
    var first := PlayOwn(s, steps);
    var s1 := Play(s, first);
    var rest;
    if !LostTo(s1.server, s1.agent.memory.cursor, id) {
      rest := CursorPerforms(s1, id);
    } else if id !in s1.server.dispatched {
      rest := QueuedPerforms(s1, id, id);
    } else {
      var e :| e !in s1.server.dispatched && !LostAfter(s1.server, e, id);
      rest := QueuedPerforms(s1, id, e);
    }
    moves := first + rest;
    PlayConcat(s, first, rest);
  }

  // ---------------------------------------------------------------- what a crash loses

  function Crashed(s: System): System {
    System(Next(s.agent, CrashAndRestart), s.server, Down)
  }

  ghost predicate RunsLater(s: System, id: Id) {
    exists moves :: Play(s, moves).agent.performed[id] > s.agent.performed[id]
  }

  /** After a crash a command runs, again or for the first time, exactly if its durable record is not over and either
      start-up finds it interrupted or the server may still send it to the cursor in the file. */
  lemma RunsAfterCrashExactly(s: System, id: Id)
    requires Inv(s.agent)
    ensures RunsLater(Crashed(s), id)
       <==> !Over(s.agent.file, id)
            && (InStage(s.agent.file, id, Started) || CanCome(s.server, s.agent.file.cursor, id))
  {
    var r := Crashed(s);
    NextKeepsInv(s.agent, CrashAndRestart);
    if Over(s.agent.file, id) {
      forall moves
        ensures Play(r, moves).agent.performed[id] == r.agent.performed[id]
      {
        OverForever(r, moves, id);
      }
    } else if InStage(s.agent.file, id, Started) {
      var steps := InterruptedPerforms(r.agent, id);
      var moves := PlayOwn(r, steps);
      assert Play(r, moves).agent.performed[id] > r.agent.performed[id];
    } else if CanCome(s.server, s.agent.file.cursor, id) {
      var moves := ComingPerforms(r, id);
      assert Play(r, moves).agent.performed[id] > r.agent.performed[id];
    } else {
      forall moves
        ensures Play(r, moves).agent.performed[id] == r.agent.performed[id]
      {
        GoneForever(r, moves, id);
      }
    }
  }

  /** A command is lost at a crash, never run and never to be, exactly if it has not run and either its durable record
      is over, or it is not found interrupted and cannot come again: the file's cursor covers its event. */
  lemma LostAtCrashExactly(s: System, id: Id)
    requires Inv(s.agent)
    ensures (forall moves :: Play(Crashed(s), moves).agent.performed[id] == 0)
       <==> s.agent.performed[id] == 0
            && (Over(s.agent.file, id)
                || (!InStage(s.agent.file, id, Started) && !CanCome(s.server, s.agent.file.cursor, id)))
  {
    RunsAfterCrashExactly(s, id);
    var r := Crashed(s);
    assert Play(r, []) == r;
    if s.agent.performed[id] == 0 {
      if !RunsLater(r, id) {
        forall moves
          ensures Play(r, moves).agent.performed[id] == 0
        {
          assert !(Play(r, moves).agent.performed[id] > r.agent.performed[id]);
        }
      } else {
        var moves :| Play(r, moves).agent.performed[id] > r.agent.performed[id];
        assert Play(r, moves).agent.performed[id] != 0;
      }
    }
  }

  /** Nothing in the history is going to be published again, and nothing stands there twice. */
  ghost predicate Settled(v: Server) {
    && (forall j :: v.start <= j < |v.log| ==> v.log[j] in v.dispatched)
    && (forall i, j :: v.start <= i < j < |v.log| ==> v.log[i] != v.log[j])
  }

  lemma SettledComesExactly(v: Server, cursor: Option<Id>, id: Id)
    requires Settled(v) && id in v.dispatched
    ensures CanCome(v, cursor, id)
       <==> cursor.Some? && exists p, j :: v.start <= p < j < |v.log| && v.log[p] == cursor.value && v.log[j] == id
  {
    if cursor.Some? {
      ReachWithoutRepeats(v.log, v.start, cursor.value, id);
    }
    forall e | e !in v.dispatched
      ensures LostAfter(v, e, id)
    {
      var t := Push(v, e);
      assert Sealed(t.log, t.start, |t.log|, id);
      assert Behind(t.log, t.start, |t.log|, e);
    }
  }

  /** The agent saves its cursor before it begins a command. If it dies before the command is begun, or while it is
      prepared, the command is lost exactly unless the history still has the file's cursor and has the command after
      it. */
  lemma CrashBeforeStartLosesExactly(s: System, id: Id)
    requires Inv(s.agent) && Settled(s.server) && id in s.server.dispatched && s.agent.performed[id] == 0
    requires id in s.agent.file.records ==> s.agent.file.records[id].stage.Prepared?
    ensures (forall moves :: Play(Crashed(s), moves).agent.performed[id] == 0)
       <==> !(exists p, j :: s.server.start <= p < j < |s.server.log|
                && Some(s.server.log[p]) == s.agent.file.cursor && s.server.log[j] == id)
  {
    LostAtCrashExactly(s, id);
    SettledComesExactly(s.server, s.agent.file.cursor, id);
  }

  // ---------------------------------------------------------------- two events

  const START: System := System(NEW, Server([], 0, {}), Down)

  /** Two commands are sent to a new agent. */
  ghost function BothSent(a: Id, b: Id): System {
    Act(Act(Act(Act(Act(Act(START, Subscribe), Publish(a, false)), Publish(b, false)), Replay), Send), Send)
  }

  /** The agent has saved the first one as its cursor, and has the second one in its hands. */
  ghost function BothRead(a: Id, b: Id, saved: bool): System {
    Act(Act(Act(BothSent(a, b), Agent(Read(a, true))), Agent(Receive(false))), Agent(Read(b, saved)))
  }

  lemma BothAreSent(a: Id, b: Id)
    requires a != b
    ensures BothSent(a, b) == System(NEW, Server([a, b], 0, {a, b}), Open([a, b], []))
  {
    var s1 := Act(START, Subscribe);
    assert s1 == System(NEW, Server([], 0, {}), Subscribed([]));
    assert [] + [a] == [a] && {} + {a} == {a};
    var s2 := Act(s1, Publish(a, false));
    assert s2 == System(NEW, Server([a], 0, {a}), Subscribed([a]));
    assert [a] + [b] == [a, b] && {a} + {b} == {a, b};
    var s4 := Act(Act(s2, Publish(b, false)), Replay);
    assert s4 == System(NEW, Server([a, b], 0, {a, b}), Open([], [a, b]));
    assert [a, b][1..] == [b] && [b][1..] == [];
    assert Act(s4, Send) == System(NEW, Server([a, b], 0, {a, b}), Open([a], [b]));
  }

  lemma BothAreRead(a: Id, b: Id, saved: bool)
    requires a != b
    ensures var s := BothRead(a, b, saved);
            && s.agent.handler == Given(b) && s.server == Server([a, b], 0, {a, b}) && Inv(s.agent)
            && s.agent.performed == multiset{} && b !in s.agent.file.records && b !in s.agent.memory.records
            && s.agent.memory.cursor == Some(b) && s.agent.file.cursor == Some(if saved then b else a)
  {
    BothAreSent(a, b);
    assert [a, b][1..] == [b];
    NewIsOk();
    NextKeepsInv(NEW, Read(a, true));
    NextKeepsInv(Next(NEW, Read(a, true)), Receive(false));
    NextKeepsInv(Next(Next(NEW, Read(a, true)), Receive(false)), Read(b, saved));
  }

  /** Over a history of two the cursor alone decides. */
  lemma OfTwo(s: System, a: Id, b: Id, saved: bool)
    requires a != b && Inv(s.agent) && s.server == Server([a, b], 0, {a, b})
    requires s.agent.file.cursor == Some(if saved then b else a)
    requires b in s.agent.file.records ==> s.agent.file.records[b].stage.Prepared?
    ensures RunsLater(Crashed(s), b) <==> !saved
  {
    RunsAfterCrashExactly(s, b);
    SettledComesExactly(s.server, s.agent.file.cursor, b);
    var log := [a, b];
    assert log[0] == a && log[1] == b;
  }

  /** The agent dies with the second event in its hands. If its cursor was saved the command is gone; if it was not,
      the command comes again. */
  lemma SavedCursorLosesCommand(a: Id, b: Id, saved: bool)
    requires a != b
    ensures var s := BothRead(a, b, saved);
            s.agent.handler == Given(b) && (RunsLater(Crashed(s), b) <==> !saved)
  {
    BothAreRead(a, b, saved);
    OfTwo(BothRead(a, b, saved), a, b, saved);
  }

  /** A cursor that could not be saved is saved by the next write of the ledger: the durable record is prepared, and
      the command is gone. */
  lemma PreparedCommandIsLost(a: Id, b: Id)
    requires a != b
    ensures var s := Act(BothRead(a, b, false), Agent(Receive(true)));
            s.agent.handler == Ready(b) && InStage(s.agent.file, b, Prepared) && !RunsLater(Crashed(s), b)
  {
    BothAreRead(a, b, false);
    var t := BothRead(a, b, false);
    NextKeepsInv(t.agent, Receive(true));
    OfTwo(Act(t, Agent(Receive(true))), a, b, true);
  }
}
