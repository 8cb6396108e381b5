/** The evaluation and alerting services with their loops and fields, proved to follow the model
    (internal/health/evaluator.go, internal/health/service.go, internal/alerting/service.go). */
module HealthService {
  import opened Basics
  import opened Health
  import opened Alerting

  // ---------------------------------------------------------------- the evaluator

  /** A list with one entry for each key of a map. */
  ghost predicate Lists<V(!new)>(list: seq<(Code, V)>, m: map<Code, V>) {
    && (forall i :: 0 <= i < |list| ==> list[i].0 in m && m[list[i].0] == list[i].1)
    && (forall i, j :: 0 <= i < j < |list| ==> list[i].0 != list[j].0)
    && (forall c :: c in m ==> exists i :: 0 <= i < |list| && list[i].0 == c)
  }

  lemma ListsAppend<V(!new)>(list: seq<(Code, V)>, m: map<Code, V>, c: Code, v: V)
    requires Lists(list, m) && c !in m
    ensures Lists(list + [(c, v)], m[c := v])
  {
    var longer := list + [(c, v)];
    forall x: Code | x == c || x in m
      ensures exists i :: 0 <= i < |longer| && longer[i].0 == x
    {
      if x == c {
        assert longer[|list|].0 == c;
      } else {
        var i :| 0 <= i < |list| && list[i].0 == x;
        assert longer[i].0 == x;
      }
    }
  }

  const RULES: seq<Rule> := [LivenessR, VersionR, SshR, DdnsR, UpgradeR, DiskR, MemoryR]

  function Position(r: Rule): (k: nat)
    ensures k < |RULES| && RULES[k] == r
  {
    match r
    case LivenessR => 0 case VersionR => 1 case SshR => 2 case DdnsR => 3
    case UpgradeR => 4 case DiskR => 5 case MemoryR => 6
  }

  /** What the first k rules report. */
  function FindingsUpTo(cfg: Config, input: Input, prev: Option<Snapshot>, k: nat): map<Code, Finding> {
    map c: Code | Position(RuleOf(c)) < k && Reported(cfg, input, prev, c) :: Apply(RuleOf(c), cfg, input, prev).value
  }

  lemma FindingsStep(cfg: Config, input: Input, prev: Option<Snapshot>, k: nat)
    requires k < |RULES|
    ensures var f := Apply(RULES[k], cfg, input, prev); var before := FindingsUpTo(cfg, input, prev, k);
            FindingsUpTo(cfg, input, prev, k + 1) == (if f.Some? then before[f.value.code := f.value] else before)
    ensures var f := Apply(RULES[k], cfg, input, prev);
            f.Some? ==> f.value.code !in FindingsUpTo(cfg, input, prev, k)
  {
    assert forall r :: Position(r) == k <==> r == RULES[k];
  }

  /** The rules append their findings one after the other; no code is reported twice. */
  method CollectFindings(cfg: Config, input: Input, prev: Option<Snapshot>) returns (list: seq<(Code, Finding)>)
    ensures Lists(list, FindingsUpTo(cfg, input, prev, |RULES|))
  {
    list := [];
    for k := 0 to |RULES|
      invariant Lists(list, FindingsUpTo(cfg, input, prev, k))
    {
      var f := Apply(RULES[k], cfg, input, prev);
      FindingsStep(cfg, input, prev, k);
      if f.Some? {
        ListsAppend(list, FindingsUpTo(cfg, input, prev, k), f.value.code, f.value);
        list := list + [(f.value.code, f.value)];
      }
    }
  }

  /** Findings become reasons; a reason that keeps firing takes over the time it was first observed. */
  method ToReasons(cfg: Config, input: Input, prev: Option<Snapshot>, findings: seq<(Code, Finding)>)
    returns (list: seq<(Code, Reason)>)
    requires Lists(findings, FindingsUpTo(cfg, input, prev, |RULES|))
    ensures Lists(list, Reasons(cfg, input, prev))
  {
    list := [];
    for k := 0 to |findings|
      invariant |list| == k
      invariant forall i :: 0 <= i < k ==>
                  list[i] == (findings[i].0, ToReason(findings[i].1, prev, input.now))
    {
      var (c, f) := findings[k];
      var first := input.now;
      if prev.Some? && c in prev.value.reasons {
        var pr := prev.value.reasons[c];
        if pr.state.Firing? && f.state.Firing? {
          first := pr.first;
        }
      }
      list := list + [(c, Reason(f.state, f.severity, first, input.now, f.count))];
    }
    forall c | c in Reasons(cfg, input, prev)
      ensures exists i :: 0 <= i < |list| && list[i].0 == c
    {
      assert c in FindingsUpTo(cfg, input, prev, |RULES|);
      var i :| 0 <= i < |findings| && findings[i].0 == c;
      assert list[i].0 == c;
    }
  }

  method OverallStatus(list: seq<(Code, Reason)>, ghost reasons: map<Code, Reason>) returns (status: Status)
    requires Lists(list, reasons)
    ensures status == Overall(reasons)
    ensures status == Offline <==> DeviceOffline in reasons && reasons[DeviceOffline].state == Firing
    ensures status == NeverSeen <==> status != Offline && DeviceNeverSeen in reasons
    ensures status == Degraded <==>
              status != Offline && status != NeverSeen
              && exists c :: c in reasons && reasons[c].state == Firing && (reasons[c].severity == Warning || reasons[c].severity == Critical)
  {
    var offline, neverSeen, alarming := false, false, false;
    for k := 0 to |list|
      invariant offline <==> exists i :: 0 <= i < k && list[i].0.DeviceOffline? && list[i].1.state.Firing?
      invariant neverSeen <==> exists i :: 0 <= i < k && list[i].0.DeviceNeverSeen?
      invariant alarming <==> exists i :: 0 <= i < k && Alarming(list[i].1)
    {
      var (c, r) := list[k];
      if c.DeviceOffline? && r.state.Firing? { offline := true; }
      if c.DeviceNeverSeen? { neverSeen := true; }
      if r.state.Firing? && (r.severity.Critical? || r.severity.Warning?) { alarming := true; }
    }
    status := if offline then Offline else if neverSeen then NeverSeen else if alarming then Degraded else Healthy;
  }

  /** The events of the codes already walked. */
  function EventsWalked(prev: Option<Snapshot>, cur: Snapshot, todo: set<Code>): map<Code, Event> {
    map c: Code | c !in todo && EventFor(prev, cur, c).Some? :: EventFor(prev, cur, c).value
  }

  method CompareReasons(prev: Option<Snapshot>, cur: Snapshot, c: Code) returns (event: Option<Event>)
    ensures event == EventFor(prev, cur, c)
  {
    var firesNow := c in cur.reasons && cur.reasons[c].state.Firing?;
    var firedBefore := prev.Some? && c in prev.value.reasons && prev.value.reasons[c].state.Firing?;
    event := None;
    if firesNow {
      var r := cur.reasons[c];
      if !firedBefore {
        event := Some(Event(Opened, r.severity, cur.evaluatedAt, cur.revision));
      } else if prev.value.reasons[c].severity != r.severity {
        event := Some(Event(Changed, r.severity, cur.evaluatedAt, cur.revision));
      }
    } else if firedBefore {
      event := Some(Event(Resolved, prev.value.reasons[c].severity, cur.evaluatedAt, cur.revision));
    }
  }

  /** One list of events, in the order in which the codes of the two maps happen to be walked. */
  method GenerateEvents(prev: Option<Snapshot>, cur: Snapshot) returns (list: seq<(Code, Event)>)
    ensures Lists(list, Events(prev, cur))
  {
    list := [];
    var todo := cur.reasons.Keys + (if prev.Some? then prev.value.reasons.Keys else {});
    NothingWalked(prev, cur, todo);
    while todo != {}
      invariant Lists(list, EventsWalked(prev, cur, todo))
      decreases |todo|
    {
      var c :| c in todo;
      var event := CompareReasons(prev, cur, c);
      WalkStep(prev, cur, todo, c);
      if event.Some? {
        ListsAppend(list, EventsWalked(prev, cur, todo), c, event.value);
        list := list + [(c, event.value)];
      }
      todo := todo - {c};
    }
    AllWalked(prev, cur);
  }

  lemma NothingWalked(prev: Option<Snapshot>, cur: Snapshot, todo: set<Code>)
    requires todo == cur.reasons.Keys + (if prev.Some? then prev.value.reasons.Keys else {})
    ensures EventsWalked(prev, cur, todo) == map[]
  {
  }

  lemma AllWalked(prev: Option<Snapshot>, cur: Snapshot)
    ensures EventsWalked(prev, cur, {}) == Events(prev, cur)
  {
  }

  lemma WalkStep(prev: Option<Snapshot>, cur: Snapshot, todo: set<Code>, c: Code)
    requires c in todo
    ensures var before := EventsWalked(prev, cur, todo); var e := EventFor(prev, cur, c);
            EventsWalked(prev, cur, todo - {c}) == (if e.Some? then before[c := e.value] else before)
    ensures c !in EventsWalked(prev, cur, todo)
  {
  }

  // ---------------------------------------------------------------- the alert service

  type Channel = nat

  datatype Delivery = Delivery(statusCode: int, retryable: bool)

  predicate Taken(r: Delivery) {
    !r.retryable && 200 <= r.statusCode < 300
  }

  datatype Silence = Silence(device: Option<Device>, code: Option<Code>, starts: Time, ends: Time)

  predicate Matches(s: Silence, d: Device, c: Code, at: Time) {
    s.starts <= at <= s.ends && (s.device.None? || s.device.value == d) && (s.code.None? || s.code.value == c)
  }

  /** A code of a device has at most one firing alert. */
  ghost predicate OneActive(s: Alerts, d: Device, c: Code) {
    forall i, j :: Active(s, d, c, i) && Active(s, d, c, j) ==> i == j
  }

  lemma ActiveIsFound(s: Alerts, d: Device, c: Code, r: Option<AlertId>)
    requires OneActive(s, d, c) && (if r.Some? then Active(s, d, c, r.value) else forall id :: !Active(s, d, c, id))
    ensures FindActive(s, d, c) == r
  {
  }

  class AlertService {
    var alerts: map<AlertId, Alert>
    var silences: set<Silence>
    var channels: set<Channel>
    ghost var firingDelivered: set<AlertId>
    ghost var firingSent: multiset<AlertId>
    ghost var resolvedSent: multiset<AlertId>

    ghost function View(): Alerts
      reads this
    {
      Alerts(alerts, firingDelivered, firingSent, resolvedSent)
    }

    ghost function OutcomeOf(d: Device, c: Code, at: Time, results: map<Channel, Delivery>): Outcome
      reads this`silences, this`channels
    {
      Outcome(exists s :: s in silences && Matches(s, d, c, at),
              SomeoneTakes(results))
    }

    method FindActiveAlert(d: Device, c: Code) returns (r: Option<AlertId>)
      ensures r.Some? ==> Active(View(), d, c, r.value)
      ensures r.None? ==> forall id :: !Active(View(), d, c, id)
    {
      var todo := alerts.Keys;
      while todo != {}
        invariant todo <= alerts.Keys
        invariant forall id :: Active(View(), d, c, id) ==> id in todo
        decreases |todo|
      {
        var id :| id in todo;
        if id.device == d && id.code == c && alerts[id].state.AlertFiring? {
          return Some(id);
        }
        todo := todo - {id};
      }
      r := None;
    }

    method IsSilenced(d: Device, c: Code, at: Time) returns (silenced: bool)
      ensures silenced <==> exists s :: s in silences && Matches(s, d, c, at)
      ensures silenced <==> exists s :: s in silences && s.starts <= at <= s.ends
                                        && (s.device == None || s.device == Some(d)) && (s.code == None || s.code == Some(c))
    {
      var todo := silences;
      while todo != {}
        invariant todo <= silences
        invariant forall s :: s in silences && Matches(s, d, c, at) ==> s in todo
        decreases |todo|
      {
        var s :| s in todo;
        if Matches(s, d, c, at) {
          return true;
        }
        todo := todo - {s};
      }
      silenced := false;
    }

    /** Every channel gets the notification of a firing or of a resolved alert; one that takes it is enough. */
    method Dispatch(id: AlertId, firing: bool, results: map<Channel, Delivery>) returns (any: bool)
      modifies this`firingSent, this`resolvedSent
      ensures firingSent == old(firingSent) + if firing then multiset{id} else multiset{}
      ensures resolvedSent == old(resolvedSent) + if firing then multiset{} else multiset{id}
      ensures any <==> SomeoneTakes(results)
      ensures any <==> exists ch :: ch in channels && ch in results && !results[ch].retryable && 200 <= results[ch].statusCode <= 299
    {
      any := false;
      if firing {
        firingSent := firingSent + multiset{id};
      } else {
        resolvedSent := resolvedSent + multiset{id};
      }
      var todo := channels;
      while todo != {}
        invariant todo <= channels
        invariant any <==> exists ch :: ch in channels && ch !in todo && ch in results && Taken(results[ch])
        decreases |todo|
      {
        var ch :| ch in todo;
        if ch in results {
          var res := results[ch];
          if !res.retryable && res.statusCode >= 200 && res.statusCode < 300 {
            any := true;
          }
        }
        todo := todo - {ch};
      }
    }

    method HandleSingleEvent(d: Device, c: Code, e: Event, results: map<Channel, Delivery>)
      requires OneActive(View(), d, c)
      modifies this`alerts, this`firingDelivered, this`firingSent, this`resolvedSent
      ensures View() == HandleEvent(old(View()), d, c, e, old(OutcomeOf(d, c, e.at, results)))
    {
      var active := FindActiveAlert(d, c);
      ActiveIsFound(View(), d, c, active);
      var silenced := IsSilenced(d, c, e.at);
      HandleFoundAlert(active, d, c, e, silenced, results);
    }

    method HandleFoundAlert(active: Option<AlertId>, d: Device, c: Code, e: Event, silenced: bool, results: map<Channel, Delivery>)
      requires active.Some? ==> active.value in alerts
      modifies this`alerts, this`firingDelivered, this`firingSent, this`resolvedSent
      ensures View() == HandleFound(old(View()), active, d, c, e, Outcome(silenced, old(SomeoneTakes(results))))
    {
      if e.kind.Resolved? {
        if active.Some? {
          Resolve(active.value, e.at, silenced, results);
        }
      } else if active.Some? {
        var alert := alerts[active.value];
        SaveAndNotify(active.value, alert.(lastObserved := e.at, severity := e.severity, revision := alert.revision + 1),
                      silenced, results);
      } else {
        SaveAndNotify(AlertId(d, c, e.at), Alert(e.severity, AlertFiring, e.at, None, false, 1), silenced, results);
      }
    }

    /** The k-th event of the list, after the ones before it were handled. */
    method HandleNth(d: Device, events: seq<(Code, Event)>, results: map<Channel, Delivery>, k: nat, ghost s: Alerts,
                     ghost told: map<Code, Event>, ghost order: seq<Code>, ghost outcomes: map<Code, Outcome>)
      requires Ready(s, d, events, told, order, outcomes) && k < |events|
      requires outcomes[order[k]] == OutcomeOf(d, order[k], told[order[k]].at, results)
      requires View() == HandleAll(s, d, told, order[..k], outcomes)
      modifies this`alerts, this`firingDelivered, this`firingSent, this`resolvedSent
      ensures View() == HandleAll(s, d, told, order[..k + 1], outcomes)
    {
      HandleNext(s, d, events, told, order, outcomes, k);
      HandleSingleEvent(d, events[k].0, events[k].1, results);
    }

    /** The events of one evaluation, in the order given. */
    method HandleHealthEvents(d: Device, events: seq<(Code, Event)>, results: map<Code, map<Channel, Delivery>>,
                              ghost told: map<Code, Event>, ghost order: seq<Code>, ghost outcomes: map<Code, Outcome>)
      requires Ready(View(), d, events, told, order, outcomes)
      requires forall i :: 0 <= i < |order| ==>
                 outcomes[order[i]] == OutcomeOf(d, order[i], told[order[i]].at, ResultsFor(results, order[i]))
      modifies this`alerts, this`firingDelivered, this`firingSent, this`resolvedSent
      ensures View() == HandleAll(old(View()), d, told, order, outcomes)
    {
      ghost var s := View();
      assert order[..0] == [];
      for k := 0 to |events|
        invariant View() == HandleAll(s, d, told, order[..k], outcomes)
      {
        assert events[k] == (order[k], told[order[k]]);
        HandleNth(d, events, ResultsFor(results, events[k].0), k, s, told, order, outcomes);
      }
      assert order[..|events|] == order;
    }

    ghost predicate SomeoneTakes(results: map<Channel, Delivery>)
      reads this`channels
    {
      exists ch :: ch in channels && ch in results && Taken(results[ch])
    }

    method Resolve(id: AlertId, at: Time, silenced: bool, results: map<Channel, Delivery>)
      requires id in alerts
      modifies this`alerts, this`firingSent, this`resolvedSent
      ensures firingSent == old(firingSent)
      ensures alerts == old(alerts)[id := old(alerts)[id].(state := AlertResolved, resolvedAt := Some(at), lastObserved := at)]
      ensures resolvedSent == if !silenced && old(alerts)[id].notified then old(resolvedSent) + multiset{id} else old(resolvedSent)
    {
      var alert := alerts[id].(state := AlertResolved, resolvedAt := Some(at), lastObserved := at);
      alerts := alerts[id := alert];
      if !silenced && alert.notified {
        var _ := Dispatch(id, false, results);
      }
    }

    method SaveAndNotify(id: AlertId, alert: Alert, silenced: bool, results: map<Channel, Delivery>)
      modifies this`alerts, this`firingDelivered, this`firingSent, this`resolvedSent
      ensures View() == Notify(old(View()), id, alert, Outcome(silenced, old(SomeoneTakes(results))))
    {
      ghost var before := alerts;
      alerts := alerts[id := alert];
      if !silenced && !alert.notified {
        var delivered := Dispatch(id, true, results);
        if delivered {
          alerts := alerts[id := alert.(notified := true)];
          firingDelivered := firingDelivered + {id};
          assert alerts == before[id := alert.(notified := true)];
        }
      }
    }
  }

  // ---------------------------------------------------------------- the health service

  lemma {:induction false} HandleAllAppend(s: Alerts, d: Device, events: map<Code, Event>, order: seq<Code>, c: Code, o: map<Code, Outcome>)
    requires forall x :: x in order + [c] ==> x in events && x in o
    ensures HandleAll(s, d, events, order + [c], o) == HandleEvent(HandleAll(s, d, events, order, o), d, c, events[c], o[c])
    decreases |order|
  {
    if order == [] {
      assert [c][1..] == [];
    } else {
      assert (order + [c])[0] == order[0] && (order + [c])[1..] == order[1..] + [c];
      HandleAllAppend(HandleEvent(s, d, order[0], events[order[0]], o[order[0]]), d, events, order[1..], c, o);
    }
  }

  /** Before the event of a code is handled, the code still has at most the alert of its earlier reason. */
  lemma OneActiveAlert(cfg: Config, w: World, d: Device, input: Input, order: seq<Code>, o: map<Code, Outcome>, k: nat)
    requires Inv(w) && Alerting.Enabled(cfg, w, EvaluateDevice(d, input, order, o)) && k < |order|
    ensures var events := Events(Latest(w, d), Evaluate(cfg, input, Latest(w, d)));
            OneActive(HandleAll(w.alerts, d, events, order[..k], o), d, order[k])
  {
    var prev := Latest(w, d);
    var s := HandleAll(w.alerts, d, Events(prev, Evaluate(cfg, input, prev)), order[..k], o);
    AllUntouched(cfg, w, d, input);
    HandleAllMatches(w.alerts, d, prev, Evaluate(cfg, input, prev), order[..k], o);
    assert Untouched(w.alerts, d, prev, Evaluate(cfg, input, prev), order[k]);
    SameAlertsMatch(w.alerts, s, d, prev, order[k]);
    forall i, j | Active(s, d, order[k], i) && Active(s, d, order[k], j)
      ensures i == j
    {
      assert i == AlertId(d, order[k], i.openedAt) && j == AlertId(d, order[k], j.openedAt);
    }
  }

  function OrderOf(events: seq<(Code, Event)>): seq<Code> {
    seq(|events|, i requires 0 <= i < |events| => events[i].0)
  }

  class HealthMonitor {
    var snapshots: map<Device, Snapshot>
    const alerting: AlertService

    ghost function View(): World
      reads this, alerting
    {
      World(snapshots, alerting.View())
    }

    constructor (alerting: AlertService)
      ensures this.alerting == alerting && snapshots == map[]
    {
      this.alerting := alerting;
      snapshots := map[];
    }

    /** Hands the events of a stored snapshot to the alert service. */
    method NotifyListeners(cfg: Config, d: Device, input: Input, events: seq<(Code, Event)>,
                           results: map<Code, map<Channel, Delivery>>, ghost w: World)
      returns (ghost order: seq<Code>, ghost outcomes: map<Code, Outcome>)
      requires Inv(w) && (d in w.snapshots ==> w.snapshots[d].evaluatedAt < input.now) && alerting.View() == w.alerts
      requires Lists(events, Events(Latest(w, d), Evaluate(cfg, input, Latest(w, d))))
      modifies alerting
      ensures Alerting.Enabled(cfg, w, Alerting.EvaluateDevice(d, input, order, outcomes))
      ensures alerting.View() == HandleAll(w.alerts, d, Events(Latest(w, d), Evaluate(cfg, input, Latest(w, d))), order, outcomes)
    {
      order := OrderOf(events);
      outcomes := map c: Code | c in order :: alerting.OutcomeOf(d, c, input.now, ResultsFor(results, c));
      EventsReady(cfg, w, d, input, Evaluate(cfg, input, Latest(w, d)), events, outcomes);
      alerting.HandleHealthEvents(d, events, results, Events(Latest(w, d), Evaluate(cfg, input, Latest(w, d))), order, outcomes);
    }

    /** One evaluation: the snapshot is stored and its events are handed to the alert service. */
    method EvaluateDevice(cfg: Config, d: Device, input: Input, results: map<Code, map<Channel, Delivery>>)
      returns (snapshot: Snapshot, ghost order: seq<Code>, ghost outcomes: map<Code, Outcome>)
      requires Inv(View())
      requires d in snapshots ==> snapshots[d].evaluatedAt < input.now
      modifies this, alerting
      ensures var step := Alerting.EvaluateDevice(d, input, order, outcomes);
              Alerting.Enabled(cfg, old(View()), step) && View() == Next(cfg, old(View()), step)
      ensures snapshot == snapshots[d]
    {
      ghost var w := View();
      var prev := if d in snapshots then Some(snapshots[d]) else None;
      snapshot := Assess(cfg, input, prev);
      var events := GenerateEvents(prev, snapshot);
      snapshots := snapshots[d := snapshot];
      order, outcomes := NotifyListeners(cfg, d, input, events, results, w);
    }
  }

  /** The list is the events in this order, and each finds at most one alert. */
  ghost predicate Ready(s: Alerts, d: Device, list: seq<(Code, Event)>, events: map<Code, Event>, order: seq<Code>,
                        o: map<Code, Outcome>)
  {
    && |order| == |list| && (forall c :: c in order ==> c in events && c in o)
    && (forall i :: 0 <= i < |list| ==> list[i] == (order[i], events[order[i]]))
    && (forall k :: 0 <= k < |order| ==> OneActive(HandleAll(s, d, events, order[..k], o), d, order[k]))
  }

  lemma HandleNext(s: Alerts, d: Device, list: seq<(Code, Event)>, events: map<Code, Event>, order: seq<Code>,
                   o: map<Code, Outcome>, k: nat)
    requires Ready(s, d, list, events, order, o) && k < |list|
    ensures var (c, e) := list[k];
            && c == order[k] && c in events && e == events[c] && c in o
            && (forall x :: x in order[..k] + [c] ==> x in events && x in o)
            && OneActive(HandleAll(s, d, events, order[..k], o), d, c)
            && HandleAll(s, d, events, order[..k + 1], o) == HandleEvent(HandleAll(s, d, events, order[..k], o), d, c, e, o[c])
  {
    HandleAllAppend(s, d, events, order[..k], order[k], o);
    assert order[..k] + [order[k]] == order[..k + 1];
  }

  lemma EventsEnabled(cfg: Config, w: World, d: Device, input: Input, cur: Snapshot, list: seq<(Code, Event)>,
                      o: map<Code, Outcome>)
    requires d in w.snapshots ==> w.snapshots[d].evaluatedAt < input.now
    requires cur == Evaluate(cfg, input, Latest(w, d)) && Lists(list, Events(Latest(w, d), cur))
    requires forall c :: c in OrderOf(list) ==> c in o
    ensures var order := OrderOf(list); var events := Events(Latest(w, d), cur);
            && Alerting.Enabled(cfg, w, EvaluateDevice(d, input, order, o))
            && (forall c :: c in order ==> c in events && events[c].at == input.now)
            && (forall i :: 0 <= i < |list| ==> list[i] == (order[i], events[order[i]]))
  {
    OrderEnumerates(list, Events(Latest(w, d), cur));
  }

  /** The list of events is ready to be handled: it enumerates them, and each finds at most one alert. */
  lemma EventsReady(cfg: Config, w: World, d: Device, input: Input, cur: Snapshot, list: seq<(Code, Event)>,
                    o: map<Code, Outcome>)
    requires Inv(w) && (d in w.snapshots ==> w.snapshots[d].evaluatedAt < input.now)
    requires cur == Evaluate(cfg, input, Latest(w, d)) && Lists(list, Events(Latest(w, d), cur))
    requires forall c :: c in OrderOf(list) ==> c in o
    ensures var order := OrderOf(list); var events := Events(Latest(w, d), cur);
            && Alerting.Enabled(cfg, w, EvaluateDevice(d, input, order, o))
            && (forall c :: c in order ==> c in events && events[c].at == input.now)
            && Ready(w.alerts, d, list, events, order, o)
  {
    EventsEnabled(cfg, w, d, input, cur, list, o);
    forall k | 0 <= k < |list|
      ensures OneActive(HandleAll(w.alerts, d, Events(Latest(w, d), cur), OrderOf(list)[..k], o), d, OrderOf(list)[k])
    {
      OneActiveAlert(cfg, w, d, input, OrderOf(list), o, k);
    }
  }

  function ResultsFor(results: map<Code, map<Channel, Delivery>>, c: Code): map<Channel, Delivery> {
    if c in results then results[c] else map[]
  }

  /** The evaluation itself, from findings to snapshot. */
  method Assess(cfg: Config, input: Input, prev: Option<Snapshot>) returns (snapshot: Snapshot)
    ensures snapshot == Evaluate(cfg, input, prev)
  {
    var findings := CollectFindings(cfg, input, prev);
    var reasons := ToReasons(cfg, input, prev, findings);
    var status := OverallStatus(reasons, Reasons(cfg, input, prev));
    var since, revision := input.now, 1;
    if prev.Some? {
      revision := prev.value.revision + 1;
      if prev.value.status == status {
        since := prev.value.since;
      }
    }
    AsMapOfList(reasons, Reasons(cfg, input, prev));
    snapshot := Snapshot(status, input.now, since, AsMap(reasons), revision);
  }

  function AsMap(list: seq<(Code, Reason)>): map<Code, Reason> {
    if list == [] then map[] else AsMap(list[..|list| - 1])[list[|list| - 1].0 := list[|list| - 1].1]
  }

  lemma ListsRest(list: seq<(Code, Reason)>, m: map<Code, Reason>)
    requires Lists(list, m) && list != []
    ensures Lists(list[..|list| - 1], Without(m, list[|list| - 1].0))
  {
    var n := |list| - 1;
    forall c | c in Without(m, list[n].0)
      ensures exists i :: 0 <= i < n && list[..n][i].0 == c
    {
      var i :| 0 <= i < |list| && list[i].0 == c;
      assert list[..n][i].0 == c;
    }
  }

  lemma {:induction false} AsMapOfList(list: seq<(Code, Reason)>, m: map<Code, Reason>)
    requires Lists(list, m)
    ensures AsMap(list) == m
    decreases |list|
  {
    if list != [] {
      var (c, r) := list[|list| - 1];
      ListsRest(list, m);
      AsMapOfList(list[..|list| - 1], Without(m, c));
      assert m == Without(m, c)[c := r];
    } else {
      assert m.Keys == {};
    }
  }

  lemma OrderEnumerates(list: seq<(Code, Event)>, events: map<Code, Event>)
    requires Lists(list, events)
    ensures Enumerates(OrderOf(list), events)
    ensures forall i :: 0 <= i < |list| ==> OrderOf(list)[i] == list[i].0 && events[list[i].0] == list[i].1
  {
    forall c | c in events
      ensures c in OrderOf(list)
    {
      var i :| 0 <= i < |list| && list[i].0 == c;
      assert OrderOf(list)[i] == c;
    }
  }
}
