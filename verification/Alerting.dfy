/** Alerts folded from health events (internal/alerting/service.go, internal/alerting/repository.go),
    together with the evaluations that produce the events (internal/health/service.go). */
module Alerting {
  import opened Basics
  import opened Health

  type Device = nat

  /** An alert ID spells out the device, the reason code and the opening time. */
  datatype AlertId = AlertId(device: Device, code: Code, openedAt: Time)

  datatype AlertState = AlertFiring | AlertResolved

  datatype Alert = Alert(
    severity: Severity, state: AlertState, lastObserved: Time, resolvedAt: Option<Time>, notified: bool, revision: nat)

  /** The alert records, the alerts whose firing notification some channel took, and how often the events had a
      firing and a resolved notification handed to the channels for each alert. */
  datatype Alerts = Alerts(
    alerts: map<AlertId, Alert>, firingDelivered: set<AlertId>, firingSent: multiset<AlertId>, resolvedSent: multiset<AlertId>)

  predicate IsFiring(s: Alerts, id: AlertId) {
    id in s.alerts && s.alerts[id].state.AlertFiring?
  }

  predicate Active(s: Alerts, d: Device, c: Code, id: AlertId) {
    IsFiring(s, id) && id.device == d && id.code == c
  }

  /** FindActiveAlertByFingerprint: fingerprints stand for (device, code). */
  ghost function FindActive(s: Alerts, d: Device, c: Code): (r: Option<AlertId>)
    ensures r.Some? ==> Active(s, d, c, r.value)
    ensures r.None? ==> forall id :: !Active(s, d, c, id)
  {
    if exists id :: Active(s, d, c, id) then
      var id :| Active(s, d, c, id);
      Some(id)
    else None
  }

  /** What the channels and silences make of one event. */
  datatype Outcome = Outcome(silenced: bool, delivered: bool)

  /** Saving an alert that fires, then notifying unless silenced or already notified. */
  function Notify(s: Alerts, id: AlertId, a: Alert, o: Outcome): Alerts {
    if o.silenced || a.notified then s.(alerts := s.alerts[id := a])
    else
      var sent := s.firingSent + multiset{id};
      if o.delivered then
        s.(alerts := s.alerts[id := a.(notified := true)], firingDelivered := s.firingDelivered + {id}, firingSent := sent)
      else s.(alerts := s.alerts[id := a], firingSent := sent)
  }

  ghost function HandleEvent(s: Alerts, d: Device, c: Code, e: Event, o: Outcome): Alerts {
    HandleFound(s, FindActive(s, d, c), d, c, e, o)
  }

  /** What an event does once the active alert of its code is found, or found missing. */
  function HandleFound(s: Alerts, active: Option<AlertId>, d: Device, c: Code, e: Event, o: Outcome): Alerts
    requires active.Some? ==> active.value in s.alerts
  {
    match e.kind
    case Resolved =>
      if active.None? then s
      else
        var a := s.alerts[active.value].(state := AlertResolved, resolvedAt := Some(e.at), lastObserved := e.at);
        s.(alerts := s.alerts[active.value := a],
           resolvedSent := if !o.silenced && a.notified then s.resolvedSent + multiset{active.value} else s.resolvedSent)
    case _ =>
      if active.Some? then
        var a := s.alerts[active.value];
        Notify(s, active.value, a.(lastObserved := e.at, severity := e.severity, revision := a.revision + 1), o)
      else Notify(s, AlertId(d, c, e.at), Alert(e.severity, AlertFiring, e.at, None, false, 1), o)
  }

  /** A background retry of a firing notification: the alert is read, the notification delivered and the
      alert saved, as one step. Retries of resolved notifications leave the alert as it is. */
  function RetryFiring(s: Alerts, id: AlertId, delivered: bool): Alerts {
    if IsFiring(s, id) && delivered then
      s.(alerts := s.alerts[id := s.alerts[id].(notified := true)], firingDelivered := s.firingDelivered + {id})
    else s
  }

  /** The events of one evaluation, handled in the given order. */
  ghost function HandleAll(s: Alerts, d: Device, events: map<Code, Event>, order: seq<Code>, o: map<Code, Outcome>): Alerts
    requires forall c :: c in order ==> c in events && c in o
    decreases |order|
  {
    if order == [] then s
    else HandleAll(HandleEvent(s, d, order[0], events[order[0]], o[order[0]]), d, events, order[1..], o)
  }

  /** All devices' latest snapshots, and the alerts. */
  datatype World = World(snapshots: map<Device, Snapshot>, alerts: Alerts)

  function Latest(w: World, d: Device): Option<Snapshot> {
    if d in w.snapshots then Some(w.snapshots[d]) else None
  }

  /** The order is any enumeration of the events, as a Go map iteration gives it. */
  ghost predicate Enumerates(order: seq<Code>, events: map<Code, Event>) {
    && (forall c :: c in order <==> c in events)
    && (forall i, j :: 0 <= i < j < |order| ==> order[i] != order[j])
  }

  datatype Step =
    | EvaluateDevice(device: Device, input: Input, order: seq<Code>, outcomes: map<Code, Outcome>)
    | Retry(alert: AlertId, delivered: bool)

  /** Time moves on between two evaluations of a device, and every event finds its outcome. */
  ghost predicate Enabled(cfg: Config, w: World, step: Step) {
    step.EvaluateDevice? ==>
      var prev := Latest(w, step.device);
      && (prev.Some? ==> prev.value.evaluatedAt < step.input.now)
      && Enumerates(step.order, Events(prev, Evaluate(cfg, step.input, prev)))
      && (forall c :: c in step.order ==> c in step.outcomes)
  }

  ghost function Next(cfg: Config, w: World, step: Step): World
    requires Enabled(cfg, w, step)
  {
    match step
    case EvaluateDevice(d, input, order, o) =>
      var prev := Latest(w, d);
      var cur := Evaluate(cfg, input, prev);
      World(w.snapshots[d := cur], HandleAll(w.alerts, d, Events(prev, cur), order, o))
    case Retry(id, delivered) => w.(alerts := RetryFiring(w.alerts, id, delivered))
  }

  ghost predicate CanRun(cfg: Config, w: World, steps: seq<Step>)
    decreases |steps|
  {
    steps != [] ==> Enabled(cfg, w, steps[0]) && CanRun(cfg, Next(cfg, w, steps[0]), steps[1..])
  }

  ghost function Run(cfg: Config, w: World, steps: seq<Step>): World
    requires CanRun(cfg, w, steps)
    decreases |steps|
  {
    if steps == [] then w else Run(cfg, Next(cfg, w, steps[0]), steps[1..])
  }

  // ---------------------------------------------------------------- what every run keeps

  /** The firing alert of a firing reason. */
  function AlertOf(d: Device, s: Snapshot, c: Code): AlertId
    requires FiringIn(s.reasons, c)
  {
    AlertId(d, c, s.reasons[c].first)
  }

  /** For one code of one device: the only firing alert is that of the firing reason, with its severity. */
  ghost predicate CodeMatches(s: Alerts, d: Device, snap: Option<Snapshot>, c: Code) {
    && (WasFiring(snap, c) ==>
          var id := AlertOf(d, snap.value, c);
          IsFiring(s, id) && s.alerts[id].severity == snap.value.reasons[c].severity)
    && (forall t :: IsFiring(s, AlertId(d, c, t)) ==> WasFiring(snap, c) && t == snap.value.reasons[c].first)
  }

  /** The alerts of a device were opened no later than its latest evaluation. */
  ghost predicate OpenedBy(s: Alerts, d: Device, t: Time) {
    forall id :: id in s.alerts && id.device == d ==> id.openedAt <= t
  }

  predicate NotifiedOk(s: Alerts, id: AlertId) {
    && (id in s.alerts ==> (s.alerts[id].notified <==> id in s.firingDelivered))
    && s.resolvedSent[id] <= 1
    && (s.resolvedSent[id] > 0 ==> id in s.alerts && s.alerts[id].state.AlertResolved? && id in s.firingDelivered)
    && (id in s.firingDelivered ==> id in s.alerts)
  }

  ghost predicate NotificationsOk(s: Alerts) {
    forall id {:trigger NotifiedOk(s, id)} :: NotifiedOk(s, id)
  }

  ghost predicate Inv(w: World) {
    && (forall d, c {:trigger CodeMatches(w.alerts, d, Latest(w, d), c)} :: CodeMatches(w.alerts, d, Latest(w, d), c))
    && (forall d :: d in w.snapshots ==> OpenedBy(w.alerts, d, w.snapshots[d].evaluatedAt))
    && (forall id :: id in w.alerts.alerts ==> id.device in w.snapshots)
    && NotificationsOk(w.alerts)
  }

  /** Alerts of other codes or devices, and resolved ones, stay as they are. */
  ghost predicate OthersKept(s: Alerts, t: Alerts, d: Device, c: Code) {
    forall id: AlertId ::
      && (id.device != d || id.code != c ==> (id in s.alerts <==> id in t.alerts))
      && (id in s.alerts ==> id in t.alerts)
      && (id in s.alerts && (id.device != d || id.code != c || s.alerts[id].state.AlertResolved?) ==> t.alerts[id] == s.alerts[id])
  }

  lemma EventKeepsOthers(s: Alerts, d: Device, c: Code, e: Event, o: Outcome)
    requires AlertId(d, c, e.at) !in s.alerts
    ensures OthersKept(s, HandleEvent(s, d, c, e, o), d, c)
  {
  }

  lemma EventKeepsNotifications(s: Alerts, d: Device, c: Code, e: Event, o: Outcome)
    requires NotificationsOk(s) && AlertId(d, c, e.at) !in s.alerts
    ensures NotificationsOk(HandleEvent(s, d, c, e, o))
  {
    forall id
      ensures NotifiedOk(HandleEvent(s, d, c, e, o), id)
    {
      if e.kind.Resolved? {
        ResolvingKeepsNotified(s, d, c, e, o, id);
      } else {
        FiringKeepsNotified(s, d, c, e, o, id);
      }
    }
  }

  lemma ResolvingKeepsNotified(s: Alerts, d: Device, c: Code, e: Event, o: Outcome, id: AlertId)
    requires NotificationsOk(s) && e.kind.Resolved?
    ensures NotifiedOk(HandleEvent(s, d, c, e, o), id)
  {
    assert NotifiedOk(s, id);
  }

  lemma NotifyKeepsNotified(s: Alerts, target: AlertId, a: Alert, o: Outcome, id: AlertId)
    requires NotifiedOk(s, id) && (a.notified <==> target in s.firingDelivered) && s.resolvedSent[target] == 0
    ensures NotifiedOk(Notify(s, target, a, o), id)
  {
  }

  lemma FiringKeepsNotified(s: Alerts, d: Device, c: Code, e: Event, o: Outcome, id: AlertId)
    requires NotificationsOk(s) && AlertId(d, c, e.at) !in s.alerts && !e.kind.Resolved?
    ensures NotifiedOk(HandleEvent(s, d, c, e, o), id)
  {
    var active := FindActive(s, d, c);
    assert NotifiedOk(s, id);
    if active.Some? {
      assert NotifiedOk(s, active.value);
      var a := s.alerts[active.value];
      NotifyKeepsNotified(s, active.value, a.(lastObserved := e.at, severity := e.severity, revision := a.revision + 1), o, id);
    } else {
      assert NotifiedOk(s, AlertId(d, c, e.at));
      NotifyKeepsNotified(s, AlertId(d, c, e.at), Alert(e.severity, AlertFiring, e.at, None, false, 1), o, id);
    }
  }

  /** A reason that fires in the later snapshot keeps the time of the one that fired before it, or starts then. */
  predicate Follows(prev: Option<Snapshot>, cur: Snapshot, c: Code) {
    FiringIn(cur.reasons, c) ==>
      cur.reasons[c].first == if WasFiring(prev, c) then prev.value.reasons[c].first else cur.evaluatedAt
  }

  lemma EvaluateFollows(cfg: Config, input: Input, prev: Option<Snapshot>, c: Code)
    ensures Follows(prev, Evaluate(cfg, input, prev), c)
  {
  }

  lemma EventOfFiringMatches(s: Alerts, d: Device, c: Code, prev: Option<Snapshot>, cur: Snapshot, o: Outcome)
    requires CodeMatches(s, d, prev, c) && Follows(prev, cur, c) && EventFor(prev, cur, c).Some? && WasFiring(prev, c)
    ensures CodeMatches(HandleEvent(s, d, c, EventFor(prev, cur, c).value, o), d, Some(cur), c)
  {
    var t := HandleEvent(s, d, c, EventFor(prev, cur, c).value, o);
    var id := AlertOf(d, prev.value, c);
    assert Active(s, d, c, id);
    assert FindActive(s, d, c) == Some(id);
    forall x | IsFiring(t, AlertId(d, c, x))
      ensures FiringIn(cur.reasons, c) && x == cur.reasons[c].first
    {
      assert IsFiring(s, AlertId(d, c, x));
    }
  }

  lemma NoneActive(s: Alerts, d: Device, c: Code, prev: Option<Snapshot>)
    requires CodeMatches(s, d, prev, c) && !WasFiring(prev, c)
    ensures FindActive(s, d, c).None?
  {
    forall id: AlertId
      ensures !Active(s, d, c, id)
    {
      assert !IsFiring(s, AlertId(d, c, id.openedAt));
    }
  }

  lemma EventOfQuietMatches(s: Alerts, d: Device, c: Code, prev: Option<Snapshot>, cur: Snapshot, o: Outcome)
    requires CodeMatches(s, d, prev, c) && Follows(prev, cur, c) && EventFor(prev, cur, c).Some? && !WasFiring(prev, c)
    requires AlertId(d, c, cur.evaluatedAt) !in s.alerts
    ensures CodeMatches(HandleEvent(s, d, c, EventFor(prev, cur, c).value, o), d, Some(cur), c)
  {
    var t := HandleEvent(s, d, c, EventFor(prev, cur, c).value, o);
    NoneActive(s, d, c, prev);
    forall x | IsFiring(t, AlertId(d, c, x))
      ensures x == cur.reasons[c].first
    {
      assert IsFiring(s, AlertId(d, c, x)) || x == cur.evaluatedAt;
    }
  }

  /** Handling a code's event moves its alert from the previous snapshot to the current one. */
  lemma EventMatches(s: Alerts, d: Device, c: Code, prev: Option<Snapshot>, cur: Snapshot, o: Outcome)
    requires CodeMatches(s, d, prev, c) && Follows(prev, cur, c) && EventFor(prev, cur, c).Some?
    requires AlertId(d, c, cur.evaluatedAt) !in s.alerts
    ensures CodeMatches(HandleEvent(s, d, c, EventFor(prev, cur, c).value, o), d, Some(cur), c)
  {
    if WasFiring(prev, c) {
      EventOfFiringMatches(s, d, c, prev, cur, o);
    } else {
      EventOfQuietMatches(s, d, c, prev, cur, o);
    }
  }

  /** Without an event nothing needs to move. */
  lemma NoEventMatches(s: Alerts, d: Device, c: Code, prev: Option<Snapshot>, cur: Snapshot)
    requires CodeMatches(s, d, prev, c) && Follows(prev, cur, c) && EventFor(prev, cur, c).None?
    ensures CodeMatches(s, d, Some(cur), c)
  {
  }

  lemma OthersKeptMatches(s: Alerts, t: Alerts, d: Device, c: Code, d': Device, c': Code, snap: Option<Snapshot>)
    requires OthersKept(s, t, d, c) && (d' != d || c' != c) && CodeMatches(s, d', snap, c')
    ensures CodeMatches(t, d', snap, c')
  {
    forall x | IsFiring(t, AlertId(d', c', x))
      ensures IsFiring(s, AlertId(d', c', x))
    {
    }
  }

  /** From s to t only alerts of these codes of the device were touched, none of them a resolved one,
      and the new ones were opened now. */
  ghost predicate OnlyTouched(s: Alerts, t: Alerts, d: Device, codes: seq<Code>, now: Time) {
    && (forall id :: id in s.alerts ==> id in t.alerts)
    && (forall id :: id in s.alerts && s.alerts[id].state.AlertResolved? ==> t.alerts[id] == s.alerts[id])
    && (forall id :: id in t.alerts && (id.device != d || id.code !in codes) ==> id in s.alerts && t.alerts[id] == s.alerts[id])
    && (forall id :: id in t.alerts && id !in s.alerts ==> id.openedAt == now)
  }

  lemma TouchedTransitive(s: Alerts, t: Alerts, u: Alerts, d: Device, codes: seq<Code>, now: Time)
    requires codes != [] && OnlyTouched(s, t, d, codes[..1], now) && OnlyTouched(t, u, d, codes[1..], now)
    ensures OnlyTouched(s, u, d, codes, now)
  {
    assert forall c :: c in codes <==> c in codes[..1] || c in codes[1..];
  }

  /** The alerts are those of the previous snapshot for this code, which has no alert of the current time yet. */
  ghost predicate Untouched(s: Alerts, d: Device, prev: Option<Snapshot>, cur: Snapshot, c: Code) {
    AlertId(d, c, cur.evaluatedAt) !in s.alerts && CodeMatches(s, d, prev, c) && Follows(prev, cur, c)
  }

  /** Handling the event of one code. */
  lemma HandleOneMatches(s: Alerts, d: Device, prev: Option<Snapshot>, cur: Snapshot, c: Code, o: Outcome)
    requires NotificationsOk(s) && Untouched(s, d, prev, cur, c) && EventFor(prev, cur, c).Some?
    ensures var t := HandleEvent(s, d, c, EventFor(prev, cur, c).value, o);
            && NotificationsOk(t) && CodeMatches(t, d, Some(cur), c) && OnlyTouched(s, t, d, [c], cur.evaluatedAt)
            && forall x :: x != c && Untouched(s, d, prev, cur, x) ==> Untouched(t, d, prev, cur, x)
  {
    var e := EventFor(prev, cur, c).value;
    var t := HandleEvent(s, d, c, e, o);
    EventKeepsOthers(s, d, c, e, o);
    EventKeepsNotifications(s, d, c, e, o);
    EventMatches(s, d, c, prev, cur, o);
    EventTouches(s, d, c, e, o, cur.evaluatedAt);
    forall x | x != c && Untouched(s, d, prev, cur, x)
      ensures Untouched(t, d, prev, cur, x)
    {
      OthersKeptMatches(s, t, d, c, d, x, prev);
    }
  }

  /** All the events of one evaluation, in whatever order, move all codes of the device and nothing else. */
  lemma {:induction false} HandleAllMatches(s: Alerts, d: Device, prev: Option<Snapshot>, cur: Snapshot,
                                            order: seq<Code>, o: map<Code, Outcome>)
    requires forall c :: c in order ==> c in Events(prev, cur) && c in o
    requires forall i, j :: 0 <= i < j < |order| ==> order[i] != order[j]
    requires NotificationsOk(s) && forall c :: c in order ==> Untouched(s, d, prev, cur, c)
    ensures var t := HandleAll(s, d, Events(prev, cur), order, o);
            && NotificationsOk(t)
            && (forall c :: c in order ==> CodeMatches(t, d, Some(cur), c))
            && OnlyTouched(s, t, d, order, cur.evaluatedAt)
    decreases |order|
  {
    if order != [] {
      var c := order[0];
      var s' := HandleEvent(s, d, c, Events(prev, cur)[c], o[c]);
      HandleOneMatches(s, d, prev, cur, c, o[c]);
      HandleAllMatches(s', d, prev, cur, order[1..], o);
      var t := HandleAll(s', d, Events(prev, cur), order[1..], o);
      SameAlertsMatch(s', t, d, Some(cur), c);
      assert order[..1] == [c];
      TouchedTransitive(s, s', t, d, order, cur.evaluatedAt);
    }
  }

  lemma EventTouches(s: Alerts, d: Device, c: Code, e: Event, o: Outcome, now: Time)
    requires AlertId(d, c, e.at) !in s.alerts && e.at == now
    ensures OnlyTouched(s, HandleEvent(s, d, c, e, o), d, [c], now)
  {
  }

  /** Before an evaluation is handled, every code of the device is untouched by it. */
  lemma AllUntouched(cfg: Config, w: World, d: Device, input: Input)
    requires Inv(w) && (d in w.snapshots ==> w.snapshots[d].evaluatedAt < input.now)
    ensures forall c :: Untouched(w.alerts, d, Latest(w, d), Evaluate(cfg, input, Latest(w, d)), c)
  {
    forall c
      ensures Untouched(w.alerts, d, Latest(w, d), Evaluate(cfg, input, Latest(w, d)), c)
    {
      assert CodeMatches(w.alerts, d, Latest(w, d), c);
      EvaluateFollows(cfg, input, Latest(w, d), c);
    }
  }

  lemma EvaluateKeepsInv(cfg: Config, w: World, step: Step)
    requires Inv(w) && step.EvaluateDevice? && Enabled(cfg, w, step)
    ensures Inv(Next(cfg, w, step))
    ensures ResolvedKept(w.alerts, Next(cfg, w, step).alerts)
  {
    var d, input, prev := step.device, step.input, Latest(w, step.device);
    var cur := Evaluate(cfg, input, prev);
    var v := Next(cfg, w, step);
    AllUntouched(cfg, w, d, input);
    HandleAllMatches(w.alerts, d, prev, cur, step.order, step.outcomes);
    forall d', c
      ensures CodeMatches(v.alerts, d', Latest(v, d'), c)
    {
      assert CodeMatches(w.alerts, d', Latest(w, d'), c);
      if d' != d {
        SameAlertsMatch(w.alerts, v.alerts, d', Latest(w, d'), c);
      } else if c !in step.order {
        assert Untouched(w.alerts, d, prev, cur, c);
        NoEventMatches(w.alerts, d, c, prev, cur);
        SameAlertsMatch(w.alerts, v.alerts, d, Some(cur), c);
      }
    }
  }

  lemma SameAlertsMatch(s: Alerts, t: Alerts, d: Device, snap: Option<Snapshot>, c: Code)
    requires forall id :: id in t.alerts && id.device == d && id.code == c ==> id in s.alerts && t.alerts[id] == s.alerts[id]
    requires forall id :: id in s.alerts ==> id in t.alerts
    requires CodeMatches(s, d, snap, c)
    ensures CodeMatches(t, d, snap, c)
  {
    forall x | IsFiring(t, AlertId(d, c, x))
      ensures IsFiring(s, AlertId(d, c, x))
    {
    }
  }

  /** Resolved alerts never change again. */
  ghost predicate ResolvedKept(s: Alerts, t: Alerts) {
    forall id :: id in s.alerts && s.alerts[id].state.AlertResolved? ==> id in t.alerts && t.alerts[id] == s.alerts[id]
  }

  lemma RetryKeepsInv(cfg: Config, w: World, id: AlertId, delivered: bool)
    requires Inv(w)
    ensures Inv(w.(alerts := RetryFiring(w.alerts, id, delivered)))
    ensures ResolvedKept(w.alerts, RetryFiring(w.alerts, id, delivered))
  {
    var t := RetryFiring(w.alerts, id, delivered);
    var v := w.(alerts := t);
    forall i
      ensures NotifiedOk(t, i)
    {
      assert NotifiedOk(w.alerts, i);
    }
    forall d, c
      ensures CodeMatches(t, d, Latest(v, d), c)
    {
      assert CodeMatches(w.alerts, d, Latest(w, d), c);
      forall x | IsFiring(t, AlertId(d, c, x))
        ensures IsFiring(w.alerts, AlertId(d, c, x))
      {
      }
    }
  }

  lemma {:induction false} RunKeepsInv(cfg: Config, w: World, steps: seq<Step>)
    requires Inv(w) && CanRun(cfg, w, steps)
    ensures Inv(Run(cfg, w, steps))
    ensures ResolvedKept(w.alerts, Run(cfg, w, steps).alerts)
    decreases |steps|
  {
    if steps != [] {
      if steps[0].EvaluateDevice? {
        EvaluateKeepsInv(cfg, w, steps[0]);
      } else {
        RetryKeepsInv(cfg, w, steps[0].alert, steps[0].delivered);
      }
      RunKeepsInv(cfg, Next(cfg, w, steps[0]), steps[1..]);
    }
  }

  const START: World := World(map[], Alerts(map[], {}, multiset{}, multiset{}))

  /** In any run, for every device with a snapshot: the firing alerts are one for each firing reason of the
      latest snapshot, with the reason's severity. A resolved notification was sent at most once for an
      alert, only after it resolved and only if its firing notification had been delivered. */
  lemma AlertsMirrorReasons(cfg: Config, steps: seq<Step>)
    requires CanRun(cfg, START, steps)
    ensures var w := Run(cfg, START, steps);
            && (forall d, c :: d in w.snapshots && FiringIn(w.snapshots[d].reasons, c) ==>
                  var id := AlertOf(d, w.snapshots[d], c);
                  IsFiring(w.alerts, id) && w.alerts.alerts[id].severity == w.snapshots[d].reasons[c].severity)
            && (forall id :: IsFiring(w.alerts, id) ==>
                  && id.device in w.snapshots && FiringIn(w.snapshots[id.device].reasons, id.code)
                  && id == AlertOf(id.device, w.snapshots[id.device], id.code))
            && (forall id :: w.alerts.resolvedSent[id] <= 1)
            && (forall id :: id in w.alerts.resolvedSent ==>
                  id in w.alerts.firingDelivered && id in w.alerts.alerts && w.alerts.alerts[id].state.AlertResolved?)
  {
    RunKeepsInv(cfg, START, steps);
    var w := Run(cfg, START, steps);
    forall id: AlertId
      ensures w.alerts.resolvedSent[id] <= 1
      ensures id in w.alerts.resolvedSent ==>
                id in w.alerts.firingDelivered && id in w.alerts.alerts && w.alerts.alerts[id].state.AlertResolved?
      ensures IsFiring(w.alerts, id) ==>
                && id.device in w.snapshots && FiringIn(w.snapshots[id.device].reasons, id.code)
                && id == AlertOf(id.device, w.snapshots[id.device], id.code)
    {
      assert NotifiedOk(w.alerts, id);
      assert CodeMatches(w.alerts, id.device, Latest(w, id.device), id.code);
      assert id == AlertId(id.device, id.code, id.openedAt);
    }
    forall d: Device, c | d in w.snapshots && FiringIn(w.snapshots[d].reasons, c)
      ensures var id := AlertOf(d, w.snapshots[d], c);
              IsFiring(w.alerts, id) && w.alerts.alerts[id].severity == w.snapshots[d].reasons[c].severity
    {
      assert CodeMatches(w.alerts, d, Latest(w, d), c);
    }
  }

  /** When storing the events of an evaluation fails, the snapshot is already saved and the alerts are not
      told. They still mirror the reasons exactly if that evaluation had no event to tell. */
  lemma LostEventsBreakMirror(cfg: Config, w: World, d: Device, input: Input)
    requires Inv(w)
    ensures var prev := Latest(w, d);
            var cur := Evaluate(cfg, input, prev);
            (forall c :: CodeMatches(w.alerts, d, Some(cur), c)) <==> Events(prev, cur) == map[]
  {
    var prev := Latest(w, d);
    var cur := Evaluate(cfg, input, prev);
    forall c: Code
      ensures CodeMatches(w.alerts, d, Some(cur), c) <==> c !in Events(prev, cur)
    {
      assert CodeMatches(w.alerts, d, Latest(w, d), c);
      if c !in Events(prev, cur) {
        EvaluateFollows(cfg, input, prev, c);
        NoEventMatches(w.alerts, d, c, prev, cur);
      }
    }
    if forall c :: CodeMatches(w.alerts, d, Some(cur), c) {
      assert Events(prev, cur).Keys == {};
    }
  }

  /** A first evaluation that finds an outdated agent, and whose event is lost: the reason fires without an alert. */
  lemma LostEventLeavesReasonWithoutAlert(d: Device)
    ensures var cur := Evaluate(Config(1, 2, 0, 0, 0), Input(Some(10), BelowMinimum, None, None, None, None, 10), None);
            FiringIn(cur.reasons, AgentVersionOutdated) && !CodeMatches(START.alerts, d, Some(cur), AgentVersionOutdated)
  {
    var cfg, input := Config(1, 2, 0, 0, 0), Input(Some(10), BelowMinimum, None, None, None, None, 10);
    assert Reported(cfg, input, None, AgentVersionOutdated);
  }
}
