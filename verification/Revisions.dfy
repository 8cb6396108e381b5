/** The revision protocol between an agent's durable counter and the server's stored snapshot
    (cmd/homeagent-agent/revision_store.go and main.go, internal/devicestate/service.go,
    internal/prefixstate/service.go). */
module Revisions {
  import opened Basics

  const MAX_REVISION: nat := 0xFFFF_FFFF_FFFF_FFFF

  // ---------------------------------------------------------------- the agent's counter

  /** What reading the counter's file gives: nothing there, something that does not decode or does not belong to
      the key, a record of another schema, or the last revision handed out. */
  datatype File = Missing | Corrupt | OtherSchema | Counter(revision: nat)

  /** How a write ends: done, not done, or done with an error reported (or the process gone) afterwards. */
  datatype Outcome = Done | NotDone | DoneButFailed

  datatype Failure = Unreadable | QuarantineFailed | Exhausted | WriteFailed

  datatype Handed = Handed(revision: nat) | Refused(failure: Failure)

  function Written(file: File, revision: nat, o: Outcome): (File, Handed) {
    match o
    case Done => (Counter(revision), Handed(revision))
    case NotDone => (file, Refused(WriteFailed))
    case DoneButFailed => (Counter(revision), Refused(WriteFailed))
  }

  function Allocated(file: File, moved: bool, o: Outcome): (File, Handed) {
    match file
    case OtherSchema => (file, Refused(Unreadable))
    case Corrupt => if !moved then (file, Refused(QuarantineFailed)) else Written(Missing, 1, o)
    case Missing => Written(file, 1, o)
    case Counter(r) => if r == MAX_REVISION then (file, Refused(Exhausted)) else Written(file, r + 1, o)
  }

  function Advanced(file: File, current: nat, o: Outcome): (File, Handed) {
    if !file.Counter? then (file, Refused(Unreadable))
    else if Max(file.revision, current) == MAX_REVISION then (file, Refused(Exhausted))
    else Written(file, Max(file.revision, current) + 1, o)
  }

  predicate InRange(file: File) {
    file.Counter? ==> 0 < file.revision <= MAX_REVISION
  }

  class RevisionStore {
    var file: File

    constructor (f: File)
      ensures file == f
    {
      file := f;
    }

    method Write(revision: nat, o: Outcome) returns (failed: bool)
      modifies this
      ensures (file, if failed then Refused(WriteFailed) else Handed(revision)) == Written(old(file), revision, o)
    {
      if o != NotDone {
        file := Counter(revision);
      }
      failed := o != Done;
    }

    method Allocate(moved: bool, o: Outcome) returns (h: Handed)
      modifies this
      ensures (file, h) == Allocated(old(file), moved, o)
    {
      var revision := 0;
      if file.OtherSchema? {
        return Refused(Unreadable);
      } else if file.Corrupt? {
        if !moved {
          return Refused(QuarantineFailed);
        }
        file := Missing;
      } else if file.Counter? {
        revision := file.revision;
      }
      if revision == MAX_REVISION {
        return Refused(Exhausted);
      }
      revision := revision + 1;
      var failed := Write(revision, o);
      return if failed then Refused(WriteFailed) else Handed(revision);
    }

    method AdvanceAfterConflict(current: nat, o: Outcome) returns (h: Handed)
      modifies this
      ensures (file, h) == Advanced(old(file), current, o)
    {
      if !file.Counter? {
        return Refused(Unreadable);
      }
      var base := file.revision;
      if current > base {
        base := current;
      }
      if base == MAX_REVISION {
        return Refused(Exhausted);
      }
      var failed := Write(base + 1, o);
      return if failed then Refused(WriteFailed) else Handed(base + 1);
    }
  }

  // ---------------------------------------------------------------- runs of one counter

  /** An allocation, an advance after a conflict, or damage to the file; crashes are outcomes of the writes. */
  datatype AgentEvent = Allocate(moved: bool, outcome: Outcome) | Advance(current: nat, outcome: Outcome) | Damage

  /** The revisions handed out so far, each with the number of quarantines before it. */
  datatype Agent = Agent(file: File, epoch: nat, handed: seq<(nat, nat)>)

  predicate Quarantines(a: Agent, e: AgentEvent) {
    e.Allocate? && a.file.Corrupt? && e.moved
  }

  function AgentStep(a: Agent, e: AgentEvent): Agent {
    var epoch := if Quarantines(a, e) then a.epoch + 1 else a.epoch;
    match e
    case Damage => a.(file := Corrupt)
    case Allocate(moved, o) => Record(a, epoch, Allocated(a.file, moved, o))
    case Advance(current, o) => Record(a, epoch, Advanced(a.file, current, o))
  }

  function Record(a: Agent, epoch: nat, r: (File, Handed)): Agent {
    Agent(r.0, epoch, if r.1.Handed? then a.handed + [(epoch, r.1.revision)] else a.handed)
  }

  function AgentRun(a: Agent, events: seq<AgentEvent>): Agent
    decreases |events|
  {
    if events == [] then a else AgentStep(AgentRun(a, events[..|events| - 1]), events[|events| - 1])
  }

  predicate Increasing(handed: seq<(nat, nat)>) {
    forall i, j :: 0 <= i < j < |handed| && handed[i].0 == handed[j].0 ==> handed[i].1 < handed[j].1
  }

  /** The counter is at least every revision of its epoch; while the file is missing the epoch has none. */
  predicate Covered(a: Agent, h: (nat, nat)) {
    && h.0 <= a.epoch
    && (h.0 == a.epoch ==> match a.file
          case Counter(r) => h.1 <= r
          case Missing => false
          case Corrupt => true
          case OtherSchema => true)
  }

  predicate AgentInv(a: Agent) {
    Increasing(a.handed) && forall i :: 0 <= i < |a.handed| ==> Covered(a, a.handed[i])
  }

  lemma AgentStepKeeps(a: Agent, e: AgentEvent)
    requires AgentInv(a)
    ensures AgentInv(AgentStep(a, e))
  {
    var n := AgentStep(a, e);
    forall i | 0 <= i < |n.handed|
      ensures Covered(n, n.handed[i])
    {
      if i < |a.handed| {
        assert Covered(a, a.handed[i]);
      }
    }
    if |n.handed| > |a.handed| {
      forall i | 0 <= i < |a.handed|
        ensures n.handed[i].0 == n.epoch ==> n.handed[i].1 < n.handed[|a.handed|].1
      {
        assert Covered(a, a.handed[i]);
      }
    }
  }

  /** Across crashes and failing writes, an agent hands out strictly increasing revisions between quarantines. */
  lemma {:induction false} RevisionsIncrease(events: seq<AgentEvent>)
    ensures AgentInv(AgentRun(Agent(Missing, 0, []), events))
    decreases |events|
  {
    if events != [] {
      RevisionsIncrease(events[..|events| - 1]);
      AgentStepKeeps(AgentRun(Agent(Missing, 0, []), events[..|events| - 1]), events[|events| - 1]);
    }
  }

  // ---------------------------------------------------------------- the server's snapshot

  /** A normalized list of addresses or prefixes: what the comparison looks at, and what it ignores. */
  datatype Content = Content(compared: nat, ignored: nat)

  datatype Report = Report(revision: nat, content: Content, source: nat, observedAt: Time)

  /** The stored snapshot; a source of zero in a device's report means that it names no network. */
  datatype Snapshot = Snapshot(revision: nat, content: Content, source: nat, observedAt: Time, seenAt: Time, pending: bool)

  datatype Reply = Accepted(changed: bool) | Conflict(mismatch: bool, current: nat, received: nat) | NotSaved

  function ReceiveAddresses(s: Option<Snapshot>, r: Report, now: Time, saved: bool): (Reply, Option<Snapshot>) {
    if s == None then
      if saved then (Accepted(true), Some(Snapshot(r.revision, r.content, r.source, r.observedAt, now, true))) else (NotSaved, s)
    else
      var x := s.value;
      if r.revision < x.revision then (Conflict(false, x.revision, r.revision), s)
      else if r.revision == x.revision then
        (if x.content.compared == r.content.compared then Accepted(false) else Conflict(true, x.revision, r.revision), s)
      else
        var changed := x.content.compared != r.content.compared;
        var n := Snapshot(r.revision, r.content, if r.source != 0 then r.source else x.source, r.observedAt,
                          if changed then now else x.seenAt, changed || x.pending);
        if saved then (Accepted(changed), Some(n)) else (NotSaved, s)
  }

  function ReceivePrefixes(s: Option<Snapshot>, r: Report, now: Time, saved: bool): (Reply, Option<Snapshot>) {
    if s == None then
      if saved then (Accepted(true), Some(Snapshot(r.revision, r.content, r.source, r.observedAt, now, false))) else (NotSaved, s)
    else
      var x := s.value;
      if r.revision < x.revision then (Conflict(false, x.revision, r.revision), s)
      else if r.revision == x.revision then
        if x.content.compared == r.content.compared then (Accepted(false), if saved then Some(x.(seenAt := now)) else s)
        else (Conflict(true, x.revision, r.revision), s)
      else
        var n := Snapshot(r.revision, r.content, r.source, r.observedAt, now, x.pending);
        if saved then (Accepted(x.content.compared != r.content.compared), Some(n)) else (NotSaved, s)
  }

  datatype Kind = Addresses | Prefixes

  function Receive(kind: Kind, s: Option<Snapshot>, r: Report, now: Time, saved: bool): (Reply, Option<Snapshot>) {
    match kind
    case Addresses => ReceiveAddresses(s, r, now, saved)
    case Prefixes => ReceivePrefixes(s, r, now, saved)
  }

  /** The snapshots of all devices, or of all networks. */
  class SnapshotStore {
    var states: map<nat, Snapshot>

    function Get(id: nat): Option<Snapshot>
      reads this
    {
      if id in states then Some(states[id]) else None
    }

    constructor ()
      ensures states == map[]
    {
      states := map[];
    }

    method Save(id: nat, s: Snapshot, works: bool) returns (ok: bool)
      modifies this
      ensures ok == works && states == if works then old(states)[id := s] else old(states)
    {
      if works {
        states := states[id := s];
      }
      ok := works;
    }

    method UpdateReportedAddresses(id: nat, r: Report, now: Time, works: bool) returns (reply: Reply)
      modifies this
      ensures (reply, Get(id)) == ReceiveAddresses(old(Get(id)), r, now, works)
      ensures forall k :: k != id ==> Get(k) == old(Get(k))
    {
      if id !in states {
        var ok := Save(id, Snapshot(r.revision, r.content, r.source, r.observedAt, now, true), works);
        return if ok then Accepted(true) else NotSaved;
      }
      var existing := states[id];
      if r.revision < existing.revision {
        return Conflict(false, existing.revision, r.revision);
      }
      if r.revision == existing.revision {
        if existing.content.compared == r.content.compared {
          return Accepted(false);
        }
        return Conflict(true, existing.revision, r.revision);
      }
      var changed := existing.content.compared != r.content.compared;
      existing := existing.(revision := r.revision, observedAt := r.observedAt);
      if r.source != 0 {
        existing := existing.(source := r.source);
      }
      existing := existing.(content := r.content);
      if changed {
        existing := existing.(pending := true, seenAt := now);
      }
      var ok := Save(id, existing, works);
      return if ok then Accepted(changed) else NotSaved;
    }

    method UpdateRouterPrefixes(id: nat, r: Report, now: Time, works: bool) returns (reply: Reply)
      modifies this
      ensures (reply, Get(id)) == ReceivePrefixes(old(Get(id)), r, now, works)
      ensures forall k :: k != id ==> Get(k) == old(Get(k))
    {
      if id !in states {
        var ok := Save(id, Snapshot(r.revision, r.content, r.source, r.observedAt, now, false), works);
        return if ok then Accepted(true) else NotSaved;
      }
      var existing := states[id];
      if r.revision < existing.revision {
        return Conflict(false, existing.revision, r.revision);
      }
      if r.revision == existing.revision {
        if existing.content.compared == r.content.compared {
          existing := existing.(seenAt := now);
          var _ := Save(id, existing, works);
          return Accepted(false);
        }
        return Conflict(true, existing.revision, r.revision);
      }
      var changed := existing.content.compared != r.content.compared;
      existing := existing.(revision := r.revision, source := r.source, observedAt := r.observedAt, seenAt := now, content := r.content);
      var ok := Save(id, existing, works);
      return if ok then Accepted(changed) else NotSaved;
    }
  }

  // ---------------------------------------------------------------- runs of one server snapshot

  /** A report that reaches the server: late, repeated and reordered ones are simply further arrivals. */
  datatype Arrival = Arrival(report: Report, now: Time, saved: bool)

  /** The snapshot and the accepted reports, in order. */
  datatype Server = Server(snapshot: Option<Snapshot>, accepted: seq<Report>)

  function ServerStep(kind: Kind, s: Server, a: Arrival): Server {
    var r := Receive(kind, s.snapshot, a.report, a.now, a.saved);
    Server(r.1, if r.0.Accepted? then s.accepted + [a.report] else s.accepted)
  }

  function ServerRun(kind: Kind, arrivals: seq<Arrival>): Server
    decreases |arrivals|
  {
    if arrivals == [] then Server(None, [])
    else ServerStep(kind, ServerRun(kind, arrivals[..|arrivals| - 1]), arrivals[|arrivals| - 1])
  }

  predicate Agree(a: Report, b: Report) {
    a.revision <= b.revision && (a.revision == b.revision ==> a.content.compared == b.content.compared)
  }

  predicate InOrder(accepted: seq<Report>) {
    forall i, j :: 0 <= i < j < |accepted| ==> Agree(accepted[i], accepted[j])
  }

  predicate Stored(s: Server, r: Report) {
    s.snapshot.Some? && Agree(r, Report(s.snapshot.value.revision, s.snapshot.value.content, 0, 0))
  }

  predicate ServerInv(s: Server) {
    InOrder(s.accepted) && forall i :: 0 <= i < |s.accepted| ==> Stored(s, s.accepted[i])
  }

  lemma ServerStepKeeps(kind: Kind, s: Server, a: Arrival)
    requires ServerInv(s)
    ensures ServerInv(ServerStep(kind, s, a))
    ensures s.snapshot.Some? ==> ServerStep(kind, s, a).snapshot.Some?
                                 && s.snapshot.value.revision <= ServerStep(kind, s, a).snapshot.value.revision
  {
    var n := ServerStep(kind, s, a);
    forall i | 0 <= i < |s.accepted|
      ensures Stored(n, s.accepted[i]) && (n.accepted != s.accepted ==> Agree(s.accepted[i], a.report))
    {
      assert Stored(s, s.accepted[i]);
    }
  }

  /** Over any arrivals, accepted revisions never go back and one revision is accepted with one compared content only. */
  lemma {:induction false} AcceptedInRevisionOrder(kind: Kind, arrivals: seq<Arrival>)
    ensures ServerInv(ServerRun(kind, arrivals))
    decreases |arrivals|
  {
    if arrivals != [] {
      AcceptedInRevisionOrder(kind, arrivals[..|arrivals| - 1]);
      ServerStepKeeps(kind, ServerRun(kind, arrivals[..|arrivals| - 1]), arrivals[|arrivals| - 1]);
    }
  }

  /** What the comparison ignores may differ: the same revision is accepted with two different contents. */
  lemma IgnoredPartsMayDiffer(kind: Kind, now: Time)
    ensures var first, second := Report(1, Content(0, 0), 0, now), Report(1, Content(0, 1), 0, now);
            ServerRun(kind, [Arrival(first, now, true), Arrival(second, now, true)]).accepted == [first, second]
  {
    var a, b := Arrival(Report(1, Content(0, 0), 0, now), now, true), Arrival(Report(1, Content(0, 1), 0, now), now, true);
    assert [a, b][..1] == [a] && [a][..0] == [];
    assert ServerRun(kind, [a]) == ServerStep(kind, Server(None, []), a);
    assert ServerRun(kind, [a, b]) == ServerStep(kind, ServerRun(kind, [a]), b);
  }

  /** The stored revision never decreases. */
  lemma {:induction false} StoredRevisionNeverDecreases(kind: Kind, arrivals: seq<Arrival>, k: nat)
    requires k <= |arrivals|
    ensures var early, late := ServerRun(kind, arrivals[..k]).snapshot, ServerRun(kind, arrivals).snapshot;
            early.Some? ==> late.Some? && early.value.revision <= late.value.revision
    decreases |arrivals|
  {
    if k == |arrivals| {
      assert arrivals[..k] == arrivals;
    } else {
      var init := arrivals[..|arrivals| - 1];
      assert init[..k] == arrivals[..k];
      StoredRevisionNeverDecreases(kind, init, k);
      AcceptedInRevisionOrder(kind, init);
      ServerStepKeeps(kind, ServerRun(kind, init), arrivals[|arrivals| - 1]);
    }
  }

  /** Whatever is delayed or repeated on the way, the server takes the reports of one counter in the order in
      which their revisions were handed out, as long as no quarantine lies between. */
  lemma AcceptedInAllocationOrder(kind: Kind, arrivals: seq<Arrival>, events: seq<AgentEvent>, i: nat, j: nat, a: nat, b: nat)
    requires var accepted, handed := ServerRun(kind, arrivals).accepted, AgentRun(Agent(Missing, 0, []), events).handed;
             && i < j < |accepted| && a < |handed| && b < |handed| && handed[a].0 == handed[b].0
             && accepted[i].revision == handed[a].1 && accepted[j].revision == handed[b].1
    ensures a <= b
  {
    AcceptedInRevisionOrder(kind, arrivals);
    RevisionsIncrease(events);
    var accepted, handed := ServerRun(kind, arrivals).accepted, AgentRun(Agent(Missing, 0, []), events).handed;
    assert Agree(accepted[i], accepted[j]);
  }

  // ---------------------------------------------------------------- recovering from a conflict

  /** The agent's answer to one request. */
  datatype Response = NoAnswer | Success | Rejected(json: bool, known: bool, current: nat, received: nat) | OtherStatus

  predicate Guard(r: Response, revision: nat) {
    && r.Rejected? && r.json && r.known && r.received == revision && r.current >= r.received && r.current > 0
    && Max(revision, r.current) < MAX_REVISION
  }

  /** What the server sends for its reply to a report. */
  function Answer(reply: Reply): Response {
    match reply
    case Accepted(_) => Success
    case Conflict(_, current, received) => Rejected(true, true, current, received)
    case NotSaved => OtherStatus
  }

  /** A server's own conflict passes the agent's guard unless its revision is the largest there is. */
  lemma HonestConflictPassesExactly(kind: Kind, s: Option<Snapshot>, r: Report, now: Time, saved: bool)
    requires 0 < r.revision && (s.Some? ==> s.value.revision <= MAX_REVISION)
    requires Receive(kind, s, r, now, saved).0.Conflict?
    ensures Guard(Answer(Receive(kind, s, r, now, saved).0), r.revision) <==> s.value.revision < MAX_REVISION
  {
  }

  /** At the largest revision the guard refuses the server's conflict. */
  lemma ConflictAtTheLimitIsRefused(kind: Kind, content: Content, now: Time)
    ensures var s, r := Snapshot(MAX_REVISION, content, 0, now, now, false), Report(1, content, 0, now);
            var reply := Receive(kind, Some(s), r, now, true).0;
            reply.Conflict? && !Guard(Answer(reply), 1)
  {
  }

  /** The revision sent after a conflict is above the one the server reported and the one that was refused; so only a
      report that has raised the server's revision since then can make the server refuse it again. */
  lemma RetryIsAhead(kind: Kind, s: Option<Snapshot>, r: Report, now: Time, saved: bool, file: File, o: Outcome,
                             later: Option<Snapshot>, again: Report, at: Time)
    requires 0 < r.revision && Receive(kind, s, r, now, saved).0.Conflict?
    requires Advanced(file, s.value.revision, o).1 == Handed(again.revision)
    requires later.Some? && s.value.revision <= later.value.revision
    ensures again.revision > s.value.revision && again.revision > r.revision
    ensures !Receive(kind, later, again, at, true).0.Accepted? ==> s.value.revision < again.revision <= later.value.revision
  {
  }

  // ---------------------------------------------------------------- sending one report

  /** What one report meets: the answer to each request in turn, the end of each write of the counter, and after
      which attempts the sending is cancelled. */
  datatype Weather = Weather(answers: seq<Response>, advances: seq<Outcome>, cancelled: set<nat>)

  function AnswerAt(w: Weather, k: nat): Response {
    if k < |w.answers| then w.answers[k] else NoAnswer
  }

  function OutcomeAt(w: Weather, k: nat): Outcome {
    if k < |w.advances| then w.advances[k] else NotDone
  }

  const ATTEMPTS := 5

  /** A sending under way: the revision in use, whether a conflict was recovered from, how often the counter was
      advanced or tried to be, the revisions of the requests so far, the first of them, and where the next one starts. */
  datatype Sending = Sending(rev: nat, recovered: bool, tries: nat, sent: seq<nat>, first: nat, at: nat)

  /** The requests up to the recovery, if any, carry the first revision, the others the second, which is above both
      the first and the revision that the conflict named. */
  predicate OneRecovery(g: Sending, w: Weather) {
    && 0 < g.first && g.at <= |g.sent|
    && (forall i :: 0 <= i < g.at ==> g.sent[i] == g.first)
    && (forall i :: g.at <= i < |g.sent| ==> g.sent[i] == g.rev)
    && (!g.recovered ==> g.at == |g.sent| && g.rev == g.first)
    && (g.recovered ==> 0 < g.at && Guard(AnswerAt(w, g.at - 1), g.first) && g.rev > g.first && g.rev > AnswerAt(w, g.at - 1).current)
  }

  predicate NoneSucceeded(n: nat, w: Weather) {
    forall i :: 0 <= i < n ==> AnswerAt(w, i) != Success
  }

  predicate Unfinished(g: Sending, w: Weather) {
    OneRecovery(g, w) && NoneSucceeded(|g.sent|, w)
  }

  predicate Finished(g: Sending, w: Weather) {
    OneRecovery(g, w) && g.sent != [] && NoneSucceeded(|g.sent| - 1, w) && AnswerAt(w, |g.sent| - 1) == Success
  }

  /** If the first answer is a conflict that passes the guard and the counter can be written, the second request
      already carries a new revision. */
  predicate RecoversAtOnce(g: Sending, w: Weather) {
    g.sent != [] && Guard(AnswerAt(w, 0), g.first) && OutcomeAt(w, 0) == Done ==> g.recovered && g.at == 1
  }

  predicate OnCourse(g: Sending, file: File, w: Weather) {
    (g.sent == [] ==> g.tries == 0 && !g.recovered && file == Counter(g.first)) && RecoversAtOnce(g, w)
  }

  /** One request, and the recovery that its answer may ask for. */
  method SendOnce(store: RevisionStore, g: Sending, w: Weather) returns (ok: bool, n: Sending)
    requires Unfinished(g, w) && InRange(store.file) && OnCourse(g, store.file, w)
    modifies store
    ensures InRange(store.file) && n.first == g.first && n.sent == g.sent + [g.rev] && OnCourse(n, store.file, w)
    ensures if ok then Finished(n, w) else Unfinished(n, w)
    ensures g.recovered ==> n.recovered
    ensures ok ==> n.recovered == g.recovered
  {
    var answer := AnswerAt(w, |g.sent|);
    n := g.(sent := g.sent + [g.rev], at := if g.recovered then g.at else |g.sent| + 1);
    ok := answer == Success;
    if !ok && !g.recovered && Guard(answer, g.rev) {
      var next := store.AdvanceAfterConflict(answer.current, OutcomeAt(w, g.tries));
      n := n.(tries := n.tries + 1);
      if next.Handed? {
        n := n.(recovered := true, rev := next.revision);
      }
    }
  }

  /** One attempt: the targets in turn, from the first again after a recovery. */
  method TryTargets(store: RevisionStore, start: Sending, targets: nat, w: Weather) returns (ok: bool, g: Sending)
    requires Unfinished(start, w) && InRange(store.file) && OnCourse(start, store.file, w)
    modifies store
    ensures InRange(store.file) && g.first == start.first && start.sent <= g.sent && OnCourse(g, store.file, w)
    ensures if ok then Finished(g, w) else Unfinished(g, w)
    ensures start.recovered ==> g.recovered
    ensures !ok ==> |g.sent| >= |start.sent| + targets
    ensures |g.sent| <= |start.sent| + targets + (if g.recovered && !start.recovered then targets else 0)
  {
    g := start;
    var targetIdx := 0;
    while targetIdx < targets
      invariant 0 <= targetIdx <= targets && InRange(store.file) && OnCourse(g, store.file, w)
      invariant Unfinished(g, w) && g.first == start.first && start.sent <= g.sent
      invariant start.recovered ==> g.recovered
      invariant |start.sent| + targetIdx <= |g.sent|
      invariant |g.sent| <= |start.sent| + targetIdx + (if g.recovered && !start.recovered then targets else 0)
      decreases if g.recovered then 0 else 1, targets - targetIdx
    {
      targetIdx := targetIdx + 1;
      var was := g.recovered;
      ok, g := SendOnce(store, g, w);
      if ok {
        return;
      }
      if g.recovered && !was {
        targetIdx := 0;
      }
    }
    ok := false;
  }

  /** Sends a report to the targets in turn, for up to five attempts, recovering from at most one conflict. It ends
      well exactly when the last request was answered well, and gives up only after every target was tried in each
      attempt, or when it is cancelled. */
  method SendNetworkReport(store: RevisionStore, moved: bool, o: Outcome, targets: nat, w: Weather)
    returns (handed: Handed, ok: bool, g: Sending)
    requires 0 < targets && InRange(store.file)
    modifies store
    ensures InRange(store.file) && handed == Allocated(old(store.file), moved, o).1
    ensures handed.Refused? ==> !ok && g.sent == [] && store.file == Allocated(old(store.file), moved, o).0
    ensures handed.Handed? ==>
              && g.first == handed.revision && (if ok then Finished(g, w) else Unfinished(g, w)) && RecoversAtOnce(g, w)
              && |g.sent| <= (ATTEMPTS + 1) * targets
              && (!ok && w.cancelled == {} ==> |g.sent| >= ATTEMPTS * targets)
  {
    ok, g := false, Sending(0, false, 0, [], 0, 0);
    handed := store.Allocate(moved, o);
    if handed.Refused? {
      return;
    }
    g := g.(rev := handed.revision, first := handed.revision);
    var attempt := 0;
    while attempt < ATTEMPTS
      invariant 0 <= attempt <= ATTEMPTS && InRange(store.file) && !ok
      invariant Unfinished(g, w) && g.first == handed.revision && OnCourse(g, store.file, w)
      invariant attempt * targets <= |g.sent| <= attempt * targets + (if g.recovered then targets else 0)
    {
      ghost var next := (attempt + 1) * targets;
      assert next == attempt * targets + targets;
      ok, g := TryTargets(store, g, targets, w);
      if ok || attempt in w.cancelled {
        assert next <= ATTEMPTS * targets;
        return;
      }
      attempt := attempt + 1;
    }
  }

  // ---------------------------------------------------------------- one honest server

  /** The server's snapshot after it got these revisions of one content, and nothing else. */
  function Served(kind: Kind, s: Option<Snapshot>, content: Content, sent: seq<nat>, now: Time): Option<Snapshot>
    decreases |sent|
  {
    if sent == [] then s
    else
      var before := Served(kind, s, content, sent[..|sent| - 1], now);
      Receive(kind, before, Report(sent[|sent| - 1], content, 0, now), now, true).1
  }

  /** Every request was answered by the server as its snapshot then asked for. */
  predicate Honest(kind: Kind, s: Option<Snapshot>, content: Content, g: Sending, w: Weather, now: Time) {
    forall k :: 0 <= k < |g.sent| ==>
      AnswerAt(w, k) == Answer(Receive(kind, Served(kind, s, content, g.sent[..k], now), Report(g.sent[k], content, 0, now), now, true).0)
  }

  /** With one honest server, no other report and a working counter, a sending ends well after at most two requests,
      whatever the server had stored before, and leaves the report's content stored there. */
  lemma HonestServerEndsWell(kind: Kind, s: Option<Snapshot>, content: Content, g: Sending, w: Weather, ok: bool, now: Time)
    requires if ok then Finished(g, w) else Unfinished(g, w) && |g.sent| >= ATTEMPTS
    requires RecoversAtOnce(g, w) && OutcomeAt(w, 0) == Done && Honest(kind, s, content, g, w, now)
    requires s.Some? ==> s.value.revision < MAX_REVISION
    ensures ok && |g.sent| <= 2
    ensures var t := Served(kind, s, content, g.sent, now); t.Some? && t.value.content.compared == content.compared
  {
    assert g.sent[..0] == [] && g.sent[0] == g.first;
    var first := Receive(kind, s, Report(g.first, content, 0, now), now, true);
    assert AnswerAt(w, 0) == Answer(first.0);
    assert g.sent[..1][..0] == [] && Served(kind, s, content, g.sent[..1], now) == first.1;
    if first.0.Accepted? {
      assert |g.sent| == 1 && g.sent[..1] == g.sent;
    } else {
      HonestConflictPassesExactly(kind, s, Report(g.first, content, 0, now), now, true);
      assert |g.sent| > 1 && g.sent[1] == g.rev;
      var second := Receive(kind, first.1, Report(g.rev, content, 0, now), now, true);
      assert AnswerAt(w, 1) == Answer(second.0);
      assert |g.sent| == 2 && g.sent[..2] == g.sent;
    }
  }
}
