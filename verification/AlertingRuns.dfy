/** Which notifications go out over whole runs of evaluations and retries, and which silences hold back
    (internal/alerting/service.go). */
module AlertingRuns {
  import opened Basics
  import opened Health
  import opened Alerting

  // ---------------------------------------------------------------- one evaluation

  /** The evaluation opens or changes this alert. */
  predicate Raises(prev: Option<Snapshot>, cur: Snapshot, id: AlertId) {
    && EventFor(prev, cur, id.code).Some? && EventFor(prev, cur, id.code).value.kind != Resolved
    && id.openedAt == (if WasFiring(prev, id.code) then prev.value.reasons[id.code].first else cur.evaluatedAt)
  }

  /** The evaluation resolves this alert. */
  predicate Ends(prev: Option<Snapshot>, cur: Snapshot, id: AlertId) {
    && EventFor(prev, cur, id.code).Some? && EventFor(prev, cur, id.code).value.kind == Resolved
    && WasFiring(prev, id.code) && id.openedAt == prev.value.reasons[id.code].first
  }

  /** What the books say about one alert. */
  datatype Tally = Tally(delivered: bool, firing: nat, resolved: nat)

  function TallyOf(s: Alerts, id: AlertId): Tally {
    Tally(id in s.firingDelivered, s.firingSent[id], s.resolvedSent[id])
  }

  /** What an evaluation adds: without a silence a raised alert is handed out until somebody took it, and one that ends is
      handed out if somebody took it. */
  function Added(t: Tally, raised: bool, ended: bool, o: Outcome): Tally {
    if o.silenced then t
    else Tally(t.delivered || (raised && o.delivered),
               t.firing + (if raised && !t.delivered then 1 else 0),
               t.resolved + (if ended && t.delivered then 1 else 0))
  }

  lemma QuietCodeEvent(s: Alerts, d: Device, prev: Option<Snapshot>, cur: Snapshot, c: Code, o: Outcome, id: AlertId)
    requires NotificationsOk(s) && Untouched(s, d, prev, cur, c) && EventFor(prev, cur, c).Some? && !WasFiring(prev, c)
    requires id.device == d && id.code == c
    ensures TallyOf(HandleEvent(s, d, c, EventFor(prev, cur, c).value, o), id)
         == Added(TallyOf(s, id), Raises(prev, cur, id), Ends(prev, cur, id), o)
  {
    NoneActive(s, d, c, prev);
    assert NotifiedOk(s, id);
    assert id == AlertId(d, c, id.openedAt);
  }

  lemma FiringCodeEvent(s: Alerts, d: Device, prev: Option<Snapshot>, cur: Snapshot, c: Code, o: Outcome, id: AlertId)
    requires NotificationsOk(s) && Untouched(s, d, prev, cur, c) && EventFor(prev, cur, c).Some? && WasFiring(prev, c)
    requires id.device == d && id.code == c
    ensures TallyOf(HandleEvent(s, d, c, EventFor(prev, cur, c).value, o), id)
         == Added(TallyOf(s, id), Raises(prev, cur, id), Ends(prev, cur, id), o)
  {
    var active := AlertOf(d, prev.value, c);
    assert Active(s, d, c, active);
    var found := FindActive(s, d, c).value;
    assert found == AlertId(d, c, found.openedAt) && IsFiring(s, AlertId(d, c, found.openedAt));
    assert NotifiedOk(s, id) && NotifiedOk(s, active);
    assert id == AlertId(d, c, id.openedAt);
  }

  lemma OtherCodeEvent(s: Alerts, d: Device, c: Code, e: Event, o: Outcome, id: AlertId)
    requires id.device != d || id.code != c
    ensures TallyOf(HandleEvent(s, d, c, e, o), id) == TallyOf(s, id)
  {
  }

  lemma CodeEvent(s: Alerts, d: Device, prev: Option<Snapshot>, cur: Snapshot, c: Code, o: Outcome, id: AlertId)
    requires NotificationsOk(s) && Untouched(s, d, prev, cur, c) && EventFor(prev, cur, c).Some?
    ensures TallyOf(HandleEvent(s, d, c, EventFor(prev, cur, c).value, o), id)
         == if id.device == d && id.code == c then Added(TallyOf(s, id), Raises(prev, cur, id), Ends(prev, cur, id), o) else TallyOf(s, id)
  {
    if id.device != d || id.code != c {
      OtherCodeEvent(s, d, c, EventFor(prev, cur, c).value, o, id);
    } else if WasFiring(prev, c) {
      FiringCodeEvent(s, d, prev, cur, c, o, id);
    } else {
      QuietCodeEvent(s, d, prev, cur, c, o, id);
    }
  }

  lemma {:induction false} AllEvents(s: Alerts, d: Device, prev: Option<Snapshot>, cur: Snapshot, order: seq<Code>, o: map<Code, Outcome>, id: AlertId)
    requires forall c :: c in order ==> c in Events(prev, cur) && c in o
    requires forall i, j :: 0 <= i < j < |order| ==> order[i] != order[j]
    requires NotificationsOk(s) && forall c :: c in order ==> Untouched(s, d, prev, cur, c)
    ensures TallyOf(HandleAll(s, d, Events(prev, cur), order, o), id)
         == if id.device == d && id.code in order then Added(TallyOf(s, id), Raises(prev, cur, id), Ends(prev, cur, id), o[id.code])
            else TallyOf(s, id)
    decreases |order|
  {
    if order != [] {
      var c := order[0];
      HandleOneMatches(s, d, prev, cur, c, o[c]);
      CodeEvent(s, d, prev, cur, c, o[c], id);
      AllEvents(HandleEvent(s, d, c, Events(prev, cur)[c], o[c]), d, prev, cur, order[1..], o, id);
      assert c !in order[1..];
    }
  }

  // ---------------------------------------------------------------- one step

  ghost predicate RaisedBy(cfg: Config, w: World, step: Step, id: AlertId) {
    step.EvaluateDevice? && step.device == id.device && Raises(Latest(w, id.device), Evaluate(cfg, step.input, Latest(w, id.device)), id)
  }

  ghost predicate EndedBy(cfg: Config, w: World, step: Step, id: AlertId) {
    step.EvaluateDevice? && step.device == id.device && Ends(Latest(w, id.device), Evaluate(cfg, step.input, Latest(w, id.device)), id)
  }

  predicate Silenced(step: Step, id: AlertId) {
    step.EvaluateDevice? && id.code in step.outcomes && step.outcomes[id.code].silenced
  }

  predicate Taken(step: Step, id: AlertId) {
    step.EvaluateDevice? && id.code in step.outcomes && step.outcomes[id.code].delivered
  }

  /** This step brings the firing notification to somebody. */
  ghost predicate Reaches(cfg: Config, w: World, step: Step, id: AlertId) {
    || (RaisedBy(cfg, w, step, id) && !Silenced(step, id) && Taken(step, id))
    || (step == Retry(id, true) && IsFiring(w.alerts, id))
  }

  lemma StepTally(cfg: Config, w: World, step: Step, id: AlertId)
    requires Inv(w) && Enabled(cfg, w, step)
    ensures var before, after := TallyOf(w.alerts, id), TallyOf(Next(cfg, w, step).alerts, id);
            && (after.delivered <==> before.delivered || Reaches(cfg, w, step, id))
            && after.firing == before.firing + (if RaisedBy(cfg, w, step, id) && !Silenced(step, id) && !before.delivered then 1 else 0)
            && after.resolved == before.resolved + (if EndedBy(cfg, w, step, id) && !Silenced(step, id) && before.delivered then 1 else 0)
  {
    if step.EvaluateDevice? {
      var d, prev := step.device, Latest(w, step.device);
      var cur := Evaluate(cfg, step.input, prev);
      AllUntouched(cfg, w, d, step.input);
      AllEvents(w.alerts, d, prev, cur, step.order, step.outcomes, id);
    }
  }

  // ---------------------------------------------------------------- whole runs

  ghost predicate ReachedIn(cfg: Config, w: World, steps: seq<Step>, id: AlertId)
    requires CanRun(cfg, w, steps)
    decreases |steps|
  {
    steps != [] && (Reaches(cfg, w, steps[0], id) || ReachedIn(cfg, Next(cfg, w, steps[0]), steps[1..], id))
  }

  lemma StepKeepsInv(cfg: Config, w: World, step: Step)
    requires Inv(w) && Enabled(cfg, w, step)
    ensures Inv(Next(cfg, w, step))
  {
    if step.EvaluateDevice? {
      EvaluateKeepsInv(cfg, w, step);
    } else {
      RetryKeepsInv(cfg, w, step.alert, step.delivered);
    }
  }

  lemma {:induction false} DeliveredSince(cfg: Config, w: World, steps: seq<Step>, id: AlertId)
    requires Inv(w) && CanRun(cfg, w, steps)
    ensures id in Run(cfg, w, steps).alerts.firingDelivered <==> id in w.alerts.firingDelivered || ReachedIn(cfg, w, steps, id)
    decreases |steps|
  {
    if steps != [] {
      StepKeepsInv(cfg, w, steps[0]);
      StepTally(cfg, w, steps[0], id);
      DeliveredSince(cfg, Next(cfg, w, steps[0]), steps[1..], id);
    }
  }

  /** In every run an alert counts as notified exactly if some evaluation that opened or changed it met no silence and a
      channel took it, or a retry delivered it while it was firing. */
  lemma NotifiedExactlyIfReached(cfg: Config, steps: seq<Step>, id: AlertId)
    requires CanRun(cfg, START, steps)
    ensures var s := Run(cfg, START, steps).alerts;
            id in s.alerts && s.alerts[id].notified <==> ReachedIn(cfg, START, steps, id)
  {
    RunKeepsInv(cfg, START, steps);
    DeliveredSince(cfg, START, steps, id);
    assert NotifiedOk(Run(cfg, START, steps).alerts, id);
  }

  /** How often a firing notification was handed to the channels: once for every unsilenced opening or change before the
      first time that somebody took it. */
  ghost function TimesRaised(cfg: Config, w: World, steps: seq<Step>, id: AlertId, reached: bool): nat
    requires CanRun(cfg, w, steps)
    decreases |steps|
  {
    if steps == [] then 0
    else
      (if RaisedBy(cfg, w, steps[0], id) && !Silenced(steps[0], id) && !reached then 1 else 0)
      + TimesRaised(cfg, Next(cfg, w, steps[0]), steps[1..], id, reached || Reaches(cfg, w, steps[0], id))
  }

  /** How often a resolved one: for the unsilenced end of an alert whose firing somebody took. */
  ghost function TimesEnded(cfg: Config, w: World, steps: seq<Step>, id: AlertId, reached: bool): nat
    requires CanRun(cfg, w, steps)
    decreases |steps|
  {
    if steps == [] then 0
    else
      (if EndedBy(cfg, w, steps[0], id) && !Silenced(steps[0], id) && reached then 1 else 0)
      + TimesEnded(cfg, Next(cfg, w, steps[0]), steps[1..], id, reached || Reaches(cfg, w, steps[0], id))
  }

  lemma {:induction false} SentSince(cfg: Config, w: World, steps: seq<Step>, id: AlertId)
    requires Inv(w) && CanRun(cfg, w, steps)
    ensures var reached := id in w.alerts.firingDelivered;
            && Run(cfg, w, steps).alerts.firingSent[id] == w.alerts.firingSent[id] + TimesRaised(cfg, w, steps, id, reached)
            && Run(cfg, w, steps).alerts.resolvedSent[id] == w.alerts.resolvedSent[id] + TimesEnded(cfg, w, steps, id, reached)
    decreases |steps|
  {
    if steps != [] {
      StepKeepsInv(cfg, w, steps[0]);
      StepTally(cfg, w, steps[0], id);
      SentSince(cfg, Next(cfg, w, steps[0]), steps[1..], id);
    }
  }

  /** In every run the channels are handed exactly these notifications. */
  lemma SentExactly(cfg: Config, steps: seq<Step>, id: AlertId)
    requires CanRun(cfg, START, steps)
    ensures Run(cfg, START, steps).alerts.firingSent[id] == TimesRaised(cfg, START, steps, id, false)
    ensures Run(cfg, START, steps).alerts.resolvedSent[id] == TimesEnded(cfg, START, steps, id, false)
  {
    RunKeepsInv(cfg, START, []);
    SentSince(cfg, START, steps, id);
  }

  // ---------------------------------------------------------------- what follows

  predicate AllSilenced(steps: seq<Step>) {
    forall k :: 0 <= k < |steps| ==> steps[k].EvaluateDevice? && forall c :: c in steps[k].outcomes ==> steps[k].outcomes[c].silenced
  }

  /** While every event is silenced and nothing is retried, nothing at all is handed to the channels. */
  lemma {:induction false} SilencedRunIsQuiet(cfg: Config, w: World, steps: seq<Step>, id: AlertId)
    requires Inv(w) && CanRun(cfg, w, steps) && AllSilenced(steps)
    ensures TallyOf(Run(cfg, w, steps).alerts, id) == TallyOf(w.alerts, id)
    decreases |steps|
  {
    if steps != [] {
      StepKeepsInv(cfg, w, steps[0]);
      StepTally(cfg, w, steps[0], id);
      assert forall k :: 0 <= k < |steps| - 1 ==> steps[1..][k] == steps[k + 1];
      if RaisedBy(cfg, w, steps[0], id) || EndedBy(cfg, w, steps[0], id) {
        assert id.code in steps[0].order;
      }
      SilencedRunIsQuiet(cfg, Next(cfg, w, steps[0]), steps[1..], id);
    }
  }

  /** No event meets a silence and some channel takes everything. */
  predicate AllTaken(steps: seq<Step>) {
    forall k :: 0 <= k < |steps| && steps[k].EvaluateDevice? ==>
      forall c :: c in steps[k].outcomes ==> !steps[k].outcomes[c].silenced && steps[k].outcomes[c].delivered
  }

  lemma AlertComesFromRaise(cfg: Config, w: World, step: Step, id: AlertId)
    requires Inv(w) && Enabled(cfg, w, step) && id in Next(cfg, w, step).alerts.alerts && id !in w.alerts.alerts
    ensures RaisedBy(cfg, w, step, id) && id.code in step.order
  {
    var d, prev := step.device, Latest(w, step.device);
    var cur := Evaluate(cfg, step.input, prev);
    AllUntouched(cfg, w, d, step.input);
    HandleAllMatches(w.alerts, d, prev, cur, step.order, step.outcomes);
    var t := Next(cfg, w, step).alerts;
    assert id.device == d && id.code in step.order && id.openedAt == cur.evaluatedAt;
    OpenedOnlyByRaise(w.alerts, d, prev, cur, step.order, step.outcomes, id);
  }

  lemma {:induction false} OpenedOnlyByRaise(s: Alerts, d: Device, prev: Option<Snapshot>, cur: Snapshot, order: seq<Code>,
                                             o: map<Code, Outcome>, id: AlertId)
    requires forall c :: c in order ==> c in Events(prev, cur) && c in o
    requires forall i, j :: 0 <= i < j < |order| ==> order[i] != order[j]
    requires NotificationsOk(s) && forall c :: c in order ==> Untouched(s, d, prev, cur, c)
    requires id in HandleAll(s, d, Events(prev, cur), order, o).alerts && id !in s.alerts
    ensures Raises(prev, cur, id)
    decreases |order|
  {
    if order != [] {
      var c := order[0];
      var t := HandleEvent(s, d, c, Events(prev, cur)[c], o[c]);
      HandleOneMatches(s, d, prev, cur, c, o[c]);
      if id in t.alerts {
        OpenedByEvent(s, d, prev, cur, c, o[c], id);
      } else {
        OpenedOnlyByRaise(t, d, prev, cur, order[1..], o, id);
      }
    }
  }

  lemma OpenedByEvent(s: Alerts, d: Device, prev: Option<Snapshot>, cur: Snapshot, c: Code, o: Outcome, id: AlertId)
    requires Untouched(s, d, prev, cur, c) && EventFor(prev, cur, c).Some?
    requires id !in s.alerts && id in HandleEvent(s, d, c, EventFor(prev, cur, c).value, o).alerts
    ensures Raises(prev, cur, id)
  {
    if WasFiring(prev, c) {
      assert Active(s, d, c, AlertOf(d, prev.value, c));
    } else {
      NoneActive(s, d, c, prev);
    }
  }

  /** Without silences, and while some channel takes everything, every alert is notified. */
  lemma {:induction false} TakenRunNotifiesAll(cfg: Config, w: World, steps: seq<Step>, id: AlertId)
    requires Inv(w) && CanRun(cfg, w, steps) && AllTaken(steps)
    requires id in w.alerts.alerts ==> w.alerts.alerts[id].notified
    ensures var s := Run(cfg, w, steps).alerts; id in s.alerts ==> s.alerts[id].notified
    decreases |steps|
  {
    if steps != [] {
      var v := Next(cfg, w, steps[0]);
      StepKeepsInv(cfg, w, steps[0]);
      StepTally(cfg, w, steps[0], id);
      assert NotifiedOk(w.alerts, id) && NotifiedOk(v.alerts, id);
      if id in v.alerts.alerts && id !in w.alerts.alerts {
        AlertComesFromRaise(cfg, w, steps[0], id);
      }
      assert forall k :: 0 <= k < |steps| - 1 ==> steps[1..][k] == steps[k + 1];
      TakenRunNotifiesAll(cfg, v, steps[1..], id);
    }
  }

  // ---------------------------------------------------------------- the record of one alert

  /** What one event writes: a new alert, the changed alert, or its end. */
  lemma EventWritesAlert(s: Alerts, d: Device, c: Code, e: Event, o: Outcome)
    ensures var t, active := HandleEvent(s, d, c, e, o), FindActive(s, d, c);
            if active.Some? then
              var was := s.alerts[active.value];
              && active.value in t.alerts
              && var a := t.alerts[active.value];
                 && a.lastObserved == e.at
                 && (e.kind == Resolved ==> a.state == AlertResolved && a.resolvedAt == Some(e.at) && a.severity == was.severity && a.notified == was.notified)
                 && (e.kind != Resolved ==> a.state == AlertFiring && a.resolvedAt == was.resolvedAt && a.severity == e.severity
                                            && a.revision == was.revision + 1 && (was.notified ==> a.notified))
            else if e.kind == Resolved then t == s
            else
              var id := AlertId(d, c, e.at);
              id in t.alerts && t.alerts[id] == Alert(e.severity, AlertFiring, e.at, None, t.alerts[id].notified, 1)
  {
  }
}
