/** The server's own AAAA records: detection, debounce, write and verify (internal/servernetwork/coordinator.go). */
module ServerNetwork {
  import opened Basics

  /** A managed domain name. */
  type Name = nat

  type Addr = nat

  datatype Status = Blank | Disabled | WaitingAddress | Pending | Syncing | Verifying | Synced | Failed

  datatype Record = Record(desired: Option<Addr>, desiredVersion: nat, confirmed: Option<Addr>, confirmedVersion: nat,
                           status: Status, lastSuccess: Option<Time>, hasError: bool, retryAt: Option<Time>, retries: nat,
                           updatedAt: Time)

  const NEW := Record(None, 0, None, 0, Blank, None, false, None, 0, 0)

  type State = map<Name, Record>

  datatype Detection = Detection(interface: nat, gateway: nat, address: Addr)

  /** The provider during one pass, for one record: the answer to the periodic query, whether the write
      succeeds, the answer to the verifying query (None for an error), and the delay chosen before a retry. */
  datatype Answers = Answers(check: Option<seq<Addr>>, written: bool, verify: Option<seq<Addr>>, delay: Time)

  /** One pass: the clock, what is detected, the provider, and which of the state writes, in order, fail. */
  datatype Pass = Pass(now: Time, detected: Option<Detection>, answers: map<Name, Answers>, failing: set<nat>)

  function AnswersFor(p: Pass, rec: Name): Answers {
    if rec in p.answers then p.answers[rec] else Answers(None, false, None, 0)
  }

  function Get(s: State, rec: Name): Record {
    if rec in s then s[rec] else NEW
  }

  // ---------------------------------------------------------------- one record

  predicate BackingOff(r: Record, desired: Addr, now: Time) {
    r.retryAt.Some? && now < r.retryAt.value && r.status == Failed && r.desired == Some(desired)
  }

  predicate Rewritten(desired: Addr, check: Option<seq<Addr>>) {
    check.Some? && desired !in check.value
  }

  predicate NeedsSync(r: Record, desired: Addr, check: Option<seq<Addr>>) {
    r.confirmed != Some(desired) || r.status != Synced || Rewritten(desired, check)
  }

  function StartSync(r: Record, desired: Addr, now: Time): Record {
    r.(desired := Some(desired),
       desiredVersion := if r.desired != Some(desired) then r.desiredVersion + 1 else r.desiredVersion,
       status := Syncing, updatedAt := now)
  }

  function Fail(r: Record, now: Time, delay: Time): Record {
    r.(status := Failed, hasError := true, retries := r.retries + 1, retryAt := Some(now + delay), updatedAt := now)
  }

  function Confirm(r: Record, desired: Addr, now: Time): Record {
    r.(status := Synced, confirmed := Some(desired), confirmedVersion := r.desiredVersion, lastSuccess := Some(now),
       hasError := false, retries := 0, retryAt := None, updatedAt := now)
  }

  /** Write and verify. */
  function Pushed(r: Record, desired: Addr, now: Time, a: Answers): seq<Record> {
    var syncing := StartSync(r, desired, now);
    if !a.written then [syncing, Fail(syncing, now, a.delay)]
    else [syncing, syncing.(status := Verifying), Verified(syncing, desired, now, a)]
  }

  function Verified(r: Record, desired: Addr, now: Time, a: Answers): Record {
    var verifying := r.(status := Verifying, updatedAt := now);
    if a.verify.Some? && desired in a.verify.value then Confirm(verifying, desired, now) else Fail(verifying, now, a.delay)
  }

  /** The values of the record that a pass saves, in order. */
  function Stages(r: Record, desired: Addr, now: Time, a: Answers): seq<Record> {
    if BackingOff(r, desired, now) || !NeedsSync(r, desired, a.check) then [] else Pushed(r, desired, now, a)
  }

  function Final(r: Record, stages: seq<Record>): Record {
    if stages == [] then r else stages[|stages| - 1]
  }

  // ---------------------------------------------------------------- all records

  /** Where the loop over the records stands: the state in memory, the states it saved, the addresses it wrote. */
  datatype Progress = Progress(state: State, saved: seq<State>, written: seq<(Name, Addr)>)

  function Snapshots(s: State, rec: Name, stages: seq<Record>): seq<State> {
    seq(|stages|, i requires 0 <= i < |stages| => s[rec := stages[i]])
  }

  function Loop(s: State, records: seq<Name>, desired: Addr, p: Pass): Progress
    decreases |records|
  {
    if records == [] then Progress(s, [], [])
    else
      var before, rec := Loop(s, records[..|records| - 1], desired, p), records[|records| - 1];
      var r := Get(before.state, rec);
      var stages := Stages(r, desired, p.now, AnswersFor(p, rec));
      Progress(before.state[rec := Final(r, stages)], before.saved + Snapshots(before.state, rec, stages),
               before.written + (if stages == [] then [] else [(rec, desired)]))
  }

  datatype Mark = Disable | Wait | Await(desired: Addr)

  function Marked(r: Record, mark: Mark, now: Time): Record {
    match mark
    case Disable => r.(status := Disabled, updatedAt := now)
    case Wait => r.(status := WaitingAddress, hasError := true, updatedAt := now)
    case Await(desired) => r.(status := Pending, desired := Some(desired), updatedAt := now)
  }

  function MarkedAll(s: State, records: seq<Name>, mark: Mark, now: Time): State
    decreases |records|
  {
    if records == [] then s
    else
      var before, rec := MarkedAll(s, records[..|records| - 1], mark, now), records[|records| - 1];
      before[rec := Marked(Get(before, rec), mark, now)]
  }

  /** The confirmed address of the first record that has one. */
  function FirstConfirmed(s: State, records: seq<Name>): Option<Addr> {
    if records == [] then None
    else if Get(s, records[0]).confirmed.Some? then Get(s, records[0]).confirmed
    else FirstConfirmed(s, records[1..])
  }

  /** What is stored after the given writes, some of which fail. */
  function Persisted(stored: State, saved: seq<State>, failing: set<nat>): State
    decreases |saved|
  {
    if saved == [] then stored
    else if |saved| - 1 !in failing then saved[|saved| - 1]
    else Persisted(stored, saved[..|saved| - 1], failing)
  }

  lemma {:induction false} PersistedIsOneOf(stored: State, saved: seq<State>, failing: set<nat>)
    ensures Persisted(stored, saved, failing) == stored || Persisted(stored, saved, failing) in saved
    decreases |saved|
  {
    if saved != [] && |saved| - 1 in failing {
      PersistedIsOneOf(stored, saved[..|saved| - 1], failing);
      assert saved == saved[..|saved| - 1] + [saved[|saved| - 1]];
    }
  }

  // ---------------------------------------------------------------- one pass

  datatype Config = Config(enabled: bool, records: seq<Name>, version: int, debounce: Time)

  /** The changed detection being watched, and since when. */
  datatype Watch = Watch(detection: Detection, since: Time)

  datatype World = World(config: Config, stored: State, watch: Option<Watch>)

  datatype Outcome = Outcome(watch: Option<Watch>, saved: seq<State>, written: seq<(Name, Addr)>)

  /** A detection other than the confirmed address has not been seen for long enough. */
  predicate Debounced(w: World, d: Detection, now: Time) {
    w.watch.Some? && w.watch.value.detection == d && now - w.watch.value.since >= w.config.debounce
  }

  function Reconciled(w: World, p: Pass): Outcome {
    var s, records, current := w.stored, w.config.records, FirstConfirmed(w.stored, w.config.records);
    if !w.config.enabled then Outcome(w.watch, [MarkedAll(s, records, Disable, p.now)], [])
    else if p.detected == None then Outcome(w.watch, [MarkedAll(s, records, Wait, p.now)], [])
    else
      var d := p.detected.value;
      if current.Some? && current.value != d.address && !Debounced(w, d, p.now) then
        if w.watch.Some? && w.watch.value.detection == d then Outcome(w.watch, [], [])
        else Outcome(Some(Watch(d, p.now)), [MarkedAll(s, records, Await(d.address), p.now)], [])
      else
        var done := Loop(s, records, d.address, p);
        Outcome(None, done.saved, done.written)
  }

  class Coordinator {
    var config: Config
    var pendingDetection: Option<Detection>
    var pendingSince: Time
    var stored: State
    ghost var written: seq<(Name, Addr)>

    ghost function View(): World
      reads this
    {
      World(config, stored, if pendingDetection.Some? then Some(Watch(pendingDetection.value, pendingSince)) else None)
    }

    constructor (c: Config, s: State)
      ensures View() == World(c, s, None) && written == []
    {
      config, pendingDetection, pendingSince, stored, written := c, None, 0, s, [];
    }

    method Save(state: State, p: Pass, n: nat, ghost before: State, ghost saved: seq<State>)
      requires stored == Persisted(before, saved, p.failing) && n == |saved|
      modifies `stored
      ensures stored == Persisted(before, saved + [state], p.failing)
    {
      assert (saved + [state])[..|saved|] == saved;
      if n !in p.failing {
        stored := state;
      }
    }

    method MarkAll(mark: Mark, p: Pass)
      modifies `stored
      ensures stored == Persisted(old(stored), [MarkedAll(old(stored), config.records, mark, p.now)], p.failing)
    {
      var state, i := stored, 0;
      while i < |config.records|
        invariant 0 <= i <= |config.records| && stored == old(stored)
        invariant state == MarkedAll(old(stored), config.records[..i], mark, p.now)
      {
        var rec := config.records[i];
        assert config.records[..i + 1][..i] == config.records[..i];
        var rs := if rec in state then state[rec] else NEW;
        state := state[rec := Marked(rs, mark, p.now)];
        i := i + 1;
      }
      assert config.records[..i] == config.records;
      Save(state, p, 0, stored, []);
    }

    /** Queries the written address back and saves the record before and after that. */
    method VerifyRecord(loaded: State, rec: Name, r: Record, desired: Addr, p: Pass, saves: nat,
                        ghost before: State, ghost saved: seq<State>)
      returns (state: State, n: nat)
      requires stored == Persisted(before, saved, p.failing) && saves == |saved|
      modifies `stored
      ensures var verifying, last := r.(status := Verifying, updatedAt := p.now), Verified(r, desired, p.now, AnswersFor(p, rec));
              && state == loaded[rec := last] && n == saves + 2
              && stored == Persisted(before, saved + [loaded[rec := verifying]] + [loaded[rec := last]], p.failing)
    {
      var rs, a := r.(status := Verifying, updatedAt := p.now), AnswersFor(p, rec);
      var first := loaded[rec := rs];
      Save(first, p, saves, before, saved);
      rs := if a.verify.Some? && desired in a.verify.value then Confirm(rs, desired, p.now) else Fail(rs, p.now, a.delay);
      state := loaded[rec := rs];
      Save(state, p, saves + 1, before, saved + [first]);
      n := saves + 2;
    }

    /** Writes the address and saves the record at each stage. */
    method PushRecord(loaded: State, rec: Name, r: Record, desired: Addr, p: Pass, saves: nat,
                      ghost before: State, ghost saved: seq<State>)
      returns (state: State, n: nat)
      requires stored == Persisted(before, saved, p.failing) && saves == |saved|
      modifies `stored, `written
      ensures var stages := Pushed(r, desired, p.now, AnswersFor(p, rec));
              && state == loaded[rec := Final(r, stages)]
              && n == saves + |stages|
              && stored == Persisted(before, saved + Snapshots(loaded, rec, stages), p.failing)
              && written == old(written) + [(rec, desired)]
    {
      var rs, a := r, AnswersFor(p, rec);
      ghost var snaps := Snapshots(loaded, rec, Pushed(r, desired, p.now, a));
      if rs.desired != Some(desired) {
        rs := rs.(desired := Some(desired), desiredVersion := rs.desiredVersion + 1);
      }
      rs := rs.(status := Syncing, updatedAt := p.now);
      Save(loaded[rec := rs], p, saves, before, saved);
      written := written + [(rec, desired)];
      if !a.written {
        rs := Fail(rs, p.now, a.delay);
        state, n := loaded[rec := rs], saves + 2;
        Save(state, p, saves + 1, before, saved + [snaps[0]]);
        assert saved + [snaps[0]] + [snaps[1]] == saved + snaps;
        return;
      }
      state, n := VerifyRecord(loaded, rec, rs, desired, p, saves + 1, before, saved + [snaps[0]]);
      assert saved + [snaps[0]] + [snaps[1]] + [snaps[2]] == saved + snaps;
    }

    /** Syncs one record of the state in memory; returns the state and how many saves were made so far. */
    method SyncRecord(loaded: State, rec: Name, desired: Addr, p: Pass, saves: nat, ghost before: State, ghost saved: seq<State>)
      returns (state: State, n: nat)
      requires stored == Persisted(before, saved, p.failing) && saves == |saved|
      modifies `stored, `written
      ensures var stages := Stages(Get(loaded, rec), desired, p.now, AnswersFor(p, rec));
              && state == loaded[rec := Final(Get(loaded, rec), stages)]
              && n == saves + |stages|
              && stored == Persisted(before, saved + Snapshots(loaded, rec, stages), p.failing)
              && written == old(written) + (if stages == [] then [] else [(rec, desired)])
    {
      var rs := if rec in loaded then loaded[rec] else NEW;
      state, n := loaded[rec := rs], saves;
      var a := AnswersFor(p, rec);
      assert saved + [] == saved;
      if rs.retryAt.Some? && p.now < rs.retryAt.value && rs.status == Failed && rs.desired == Some(desired) {
        return;
      }
      var needSync := rs.confirmed != Some(desired) || rs.status != Synced;
      if !needSync && a.check.Some? && desired !in a.check.value {
        needSync := true;
      }
      if !needSync {
        return;
      }
      state, n := PushRecord(loaded, rec, rs, desired, p, saves, before, saved);
    }

    method CurrentConfirmed() returns (current: Option<Addr>)
      ensures current == FirstConfirmed(stored, config.records)
    {
      var i := 0;
      while i < |config.records|
        invariant 0 <= i <= |config.records|
        invariant FirstConfirmed(stored, config.records) == FirstConfirmed(stored, config.records[i..])
      {
        var rec := config.records[i];
        if rec in stored && stored[rec].confirmed.Some? {
          return stored[rec].confirmed;
        }
        i := i + 1;
      }
      return None;
    }

    method SyncAll(desired: Addr, p: Pass)
      modifies `stored, `written
      ensures var done := Loop(old(stored), config.records, desired, p);
              && stored == Persisted(old(stored), done.saved, p.failing)
              && written == old(written) + done.written
    {
      var state, n, i := stored, 0, 0;
      ghost var before := stored;
      while i < |config.records|
        invariant 0 <= i <= |config.records|
        invariant var done := Loop(before, config.records[..i], desired, p);
                  && state == done.state && n == |done.saved|
                  && stored == Persisted(before, done.saved, p.failing)
                  && written == old(written) + done.written
      {
        ghost var done := Loop(before, config.records[..i], desired, p);
        assert config.records[..i + 1][..i] == config.records[..i];
        state, n := SyncRecord(state, config.records[i], desired, p, n, before, done.saved);
        i := i + 1;
      }
      assert config.records[..i] == config.records;
    }

    method Reconcile(p: Pass)
      modifies `pendingDetection, `pendingSince, `stored, `written
      ensures var o := Reconciled(old(View()), p);
              && View() == World(old(config), Persisted(old(stored), o.saved, p.failing), o.watch)
              && written == old(written) + o.written
    {
      if !config.enabled {
        MarkAll(Disable, p);
        return;
      }
      var current := CurrentConfirmed();
      if p.detected == None {
        MarkAll(Wait, p);
        return;
      }
      var detection := p.detected.value;
      var desired := detection.address;
      if current.Some? && current.value != desired {
        if pendingDetection != Some(detection) {
          pendingDetection, pendingSince := Some(detection), p.now;
          MarkAll(Await(desired), p);
          return;
        }
        if p.now - pendingSince < config.debounce {
          return;
        }
      }
      pendingDetection := None;
      SyncAll(desired, p);
    }

    /** A change made for another version of the configuration is refused; one that cannot be saved changes nothing. */
    method UpdateConfig(enabled: bool, records: seq<Name>, version: int, saveWorks: bool, p: Pass) returns (ok: bool)
      modifies `config, `pendingDetection, `pendingSince, `stored, `written
      ensures ok <==> (enabled ==> records != []) && (version <= 0 || version == old(config.version)) && saveWorks
      ensures !ok ==> View() == old(View()) && written == old(written)
      ensures ok ==>
                var w := old(View()).(config := Config(enabled, records, old(config.version) + 1, old(config.debounce)));
                var o := Reconciled(w, p);
                View() == World(w.config, Persisted(w.stored, o.saved, p.failing), o.watch) && written == old(written) + o.written
    {
      ok := false;
      if enabled && records == [] {
        return;
      }
      if version > 0 && version != config.version {
        return;
      }
      if !saveWorks {
        return;
      }
      config := config.(enabled := enabled, records := records, version := config.version + 1);
      Reconcile(p);
      ok := true;
    }
  }

  // ---------------------------------------------------------------- what holds of every record

  predicate Good(r: Record) {
    && r.confirmedVersion <= r.desiredVersion
    && (r.status == Synced ==>
          && r.confirmed.Some? && r.confirmed == r.desired && r.confirmedVersion == r.desiredVersion
          && r.retries == 0 && r.retryAt == None && !r.hasError)
    && (r.status == Failed ==> r.retryAt.Some? && r.hasError && r.retries > 0)
  }

  ghost predicate AllGood(s: State) {
    forall rec :: rec in s ==> Good(s[rec])
  }

  /** Every value a pass saves for a record is good, keeps its confirmed address or confirms the desired one that
      the provider just returned, and keeps the versions from going back. */
  lemma StagesAreGood(r: Record, desired: Addr, now: Time, a: Answers, i: nat)
    requires Good(r) && i < |Stages(r, desired, now, a)|
    ensures var x := Stages(r, desired, now, a)[i];
            && Good(x) && r.desiredVersion <= x.desiredVersion && r.confirmedVersion <= x.confirmedVersion
            && ((x.confirmed == r.confirmed && x.lastSuccess == r.lastSuccess)
                || (x.status == Synced && x.confirmed == Some(desired) && a.written && a.verify.Some? && desired in a.verify.value))
  {
  }

  /** How a saved state may differ from the stored one. */
  ghost predicate Follows(s: State, t: State, p: Pass, desired: Option<Addr>) {
    && (forall rec :: rec in s ==> rec in t)
    && (forall rec :: rec in t ==> Good(t[rec]) && ConfirmedFollows(Get(s, rec), t[rec], AnswersFor(p, rec), desired))
  }

  predicate ConfirmedFollows(r: Record, x: Record, a: Answers, desired: Option<Addr>) {
    || x.confirmed == r.confirmed
    || (desired.Some? && x.confirmed == desired && a.written && a.verify.Some? && desired.value in a.verify.value)
  }

  lemma {:induction false} MarksFollow(s: State, records: seq<Name>, mark: Mark, p: Pass, desired: Option<Addr>)
    requires AllGood(s)
    ensures Follows(s, MarkedAll(s, records, mark, p.now), p, desired)
    decreases |records|
  {
    if records != [] {
      MarksFollow(s, records[..|records| - 1], mark, p, desired);
    }
  }

  lemma FollowsUpdate(s: State, t: State, rec: Name, x: Record, p: Pass, desired: Addr)
    requires Follows(s, t, p, Some(desired))
    requires x == Get(t, rec) || x in Stages(Get(t, rec), desired, p.now, AnswersFor(p, rec))
    ensures Follows(s, t[rec := x], p, Some(desired))
  {
    if x in Stages(Get(t, rec), desired, p.now, AnswersFor(p, rec)) {
      var i: nat :| i < |Stages(Get(t, rec), desired, p.now, AnswersFor(p, rec))|
                    && Stages(Get(t, rec), desired, p.now, AnswersFor(p, rec))[i] == x;
      StagesAreGood(Get(t, rec), desired, p.now, AnswersFor(p, rec), i);
    }
  }

  lemma SnapshotsFollow(s: State, t: State, rec: Name, p: Pass, desired: Addr)
    requires Follows(s, t, p, Some(desired))
    ensures var stages := Stages(Get(t, rec), desired, p.now, AnswersFor(p, rec));
            && Follows(s, t[rec := Final(Get(t, rec), stages)], p, Some(desired))
            && forall u :: u in Snapshots(t, rec, stages) ==> Follows(s, u, p, Some(desired))
  {
    var stages := Stages(Get(t, rec), desired, p.now, AnswersFor(p, rec));
    FollowsUpdate(s, t, rec, Final(Get(t, rec), stages), p, desired);
    forall u | u in Snapshots(t, rec, stages)
      ensures Follows(s, u, p, Some(desired))
    {
      var i :| 0 <= i < |stages| && u == t[rec := stages[i]];
      FollowsUpdate(s, t, rec, stages[i], p, desired);
    }
  }

  lemma {:induction false} LoopFollows(s: State, records: seq<Name>, desired: Addr, p: Pass)
    requires AllGood(s)
    ensures Follows(s, Loop(s, records, desired, p).state, p, Some(desired))
    ensures forall t :: t in Loop(s, records, desired, p).saved ==> Follows(s, t, p, Some(desired))
    decreases |records|
  {
    if records != [] {
      LoopFollows(s, records[..|records| - 1], desired, p);
      SnapshotsFollow(s, Loop(s, records[..|records| - 1], desired, p).state, records[|records| - 1], p, desired);
    }
  }

  function Sought(w: World, p: Pass): Option<Addr> {
    if p.detected.Some? then Some(p.detected.value.address) else None
  }

  /** Every state a pass saves, and so every state that failed writes or a crash can leave stored, keeps all
      records and changes a confirmed address only to one the provider returned in that pass. */
  lemma EverySavedStateFollows(w: World, p: Pass)
    requires AllGood(w.stored)
    ensures forall t :: t in Reconciled(w, p).saved ==> Follows(w.stored, t, p, Sought(w, p))
  {
    MarksFollow(w.stored, w.config.records, Disable, p, Sought(w, p));
    MarksFollow(w.stored, w.config.records, Wait, p, Sought(w, p));
    if p.detected.Some? {
      MarksFollow(w.stored, w.config.records, Await(p.detected.value.address), p, Sought(w, p));
      LoopFollows(w.stored, w.config.records, p.detected.value.address, p);
    }
  }

  // ---------------------------------------------------------------- runs

  /** A pass in which only the first `reached` writes of the state happen before the process dies, if it does;
      a restart; an unreadable state file; a new configuration. */
  datatype Event =
    | Reconcile(pass: Pass)
    | Crash(pass: Pass, reached: nat)
    | Lose
    | Configure(enabled: bool, records: seq<Name>, version: int)

  datatype Sighting = Sighting(detection: Detection, time: Time)

  datatype History = History(world: World, sightings: seq<Sighting>)

  function See(h: History, p: Pass): seq<Sighting> {
    if h.world.config.enabled && p.detected.Some? then h.sightings + [Sighting(p.detected.value, p.now)] else h.sightings
  }

  function Step(h: History, e: Event): History {
    var w := h.world;
    match e
    case Reconcile(p) =>
      var o := Reconciled(w, p);
      History(World(w.config, Persisted(w.stored, o.saved, p.failing), o.watch), See(h, p))
    case Crash(p, reached) =>
      var o := Reconciled(w, p);
      History(World(w.config, Persisted(w.stored, o.saved[..Min(reached, |o.saved|)], p.failing), None), See(h, p))
    case Lose => h.(world := w.(stored := map[], watch := None))
    case Configure(enabled, records, version) =>
      if version > 0 && version != w.config.version then h
      else h.(world := w.(config := Config(enabled, records, w.config.version + 1, w.config.debounce)))
  }

  function Run(h: History, events: seq<Event>): History
    decreases |events|
  {
    if events == [] then h else Step(Run(h, events[..|events| - 1]), events[|events| - 1])
  }

  function Booted(c: Config): History {
    History(World(c, map[], None), [])
  }

  /** The same detection from position i on. */
  predicate SteadyFrom(s: seq<Sighting>, d: Detection, since: Time, i: nat) {
    i < |s| && s[i].time == since && forall j :: i <= j < |s| ==> s[j].detection == d
  }

  ghost predicate Inv(h: History) {
    && AllGood(h.world.stored)
    && (h.world.watch.Some? ==> exists i: nat :: SteadyFrom(h.sightings, h.world.watch.value.detection, h.world.watch.value.since, i))
  }

  lemma SteadyExtends(s: seq<Sighting>, d: Detection, since: Time, i: nat, now: Time)
    requires SteadyFrom(s, d, since, i)
    ensures SteadyFrom(s + [Sighting(d, now)], d, since, i)
  {
  }

  lemma PassKeepsStored(w: World, p: Pass, saved: seq<State>)
    requires AllGood(w.stored) && forall t :: t in saved ==> t in Reconciled(w, p).saved
    ensures AllGood(Persisted(w.stored, saved, p.failing))
  {
    EverySavedStateFollows(w, p);
    PersistedIsOneOf(w.stored, saved, p.failing);
  }

  lemma PassKeepsWatch(h: History, p: Pass)
    requires Inv(h)
    ensures var watch := Reconciled(h.world, p).watch;
            watch.Some? ==> exists i: nat :: SteadyFrom(See(h, p), watch.value.detection, watch.value.since, i)
  {
    var before, watch := h.world.watch, Reconciled(h.world, p).watch;
    if watch.Some? {
      if before == watch {
        var i: nat :| SteadyFrom(h.sightings, watch.value.detection, watch.value.since, i);
        if See(h, p) != h.sightings {
          SteadyExtends(h.sightings, watch.value.detection, watch.value.since, i, p.now);
        }
      } else {
        assert SteadyFrom(See(h, p), watch.value.detection, p.now, |h.sightings|);
      }
    }
  }

  lemma StepKeepsInv(h: History, e: Event)
    requires Inv(h)
    ensures Inv(Step(h, e))
  {
    match e {
      case Reconcile(p) =>
        PassKeepsStored(h.world, p, Reconciled(h.world, p).saved);
        PassKeepsWatch(h, p);
      case Crash(p, reached) =>
        var saved := Reconciled(h.world, p).saved;
        PassKeepsStored(h.world, p, saved[..Min(reached, |saved|)]);
      case Lose =>
      case Configure(_, _, _) =>
    }
  }

  lemma {:induction false} RunKeepsInv(h: History, events: seq<Event>)
    requires Inv(h)
    ensures Inv(Run(h, events))
    decreases |events|
  {
    if events != [] {
      RunKeepsInv(h, events[..|events| - 1]);
      StepKeepsInv(Run(h, events[..|events| - 1]), events[|events| - 1]);
    }
  }

  /** Whatever fails or crashes, every stored record of every run is good. */
  lemma RecordsAreGood(c: Config, events: seq<Event>)
    ensures AllGood(Run(Booted(c), events).world.stored)
  {
    RunKeepsInv(Booted(c), events);
  }

  lemma {:induction false} LoopWritesDesired(s: State, records: seq<Name>, desired: Addr, p: Pass)
    ensures forall x :: x in Loop(s, records, desired, p).written ==> x.1 == desired && x.0 in records
    decreases |records|
  {
    if records != [] {
      LoopWritesDesired(s, records[..|records| - 1], desired, p);
    }
  }

  /** The k-th configured record has this address confirmed, whatever its status, and none before it has one. */
  predicate ConfirmedAt(w: World, k: nat, x: Addr) {
    && k < |w.config.records| && w.config.records[k] in w.stored && w.stored[w.config.records[k]].confirmed == Some(x)
    && forall j :: 0 <= j < k ==> w.config.records[j] in w.stored ==> w.stored[w.config.records[j]].confirmed == None
  }

  lemma {:induction false} FirstConfirmedIs(s: State, records: seq<Name>, k: nat)
    requires k < |records| && records[k] in s && s[records[k]].confirmed.Some?
    requires forall j :: 0 <= j < k ==> records[j] in s ==> s[records[j]].confirmed == None
    ensures FirstConfirmed(s, records) == s[records[k]].confirmed
    decreases k
  {
    if k > 0 {
      assert forall j :: 0 <= j < k - 1 ==> records[1..][j] == records[j + 1];
      FirstConfirmedIs(s, records[1..], k - 1);
    }
  }

  /** While an address is confirmed, a pass of any run writes another one only if the same detection of it was
      already there at least the debounce time earlier and every sighting since then was the same. */
  lemma OtherAddressOnlyAfterDebounce(c: Config, events: seq<Event>, p: Pass, rec: Name, a: Addr, k: nat, x: Addr)
    requires var w := Run(Booted(c), events).world;
             (rec, a) in Reconciled(w, p).written && ConfirmedAt(w, k, x) && x != a
    ensures var h := Run(Booted(c), events);
            && p.detected.Some? && p.detected.value.address == a
            && exists i: nat :: i < |h.sightings| && p.now - h.sightings[i].time >= h.world.config.debounce
                                && forall j :: i <= j < |h.sightings| ==> h.sightings[j].detection == p.detected.value
  {
    var h := Run(Booted(c), events);
    RunKeepsInv(Booted(c), events);
    FirstConfirmedIs(h.world.stored, h.world.config.records, k);
    var d := p.detected.value;
    LoopWritesDesired(h.world.stored, h.world.config.records, d.address, p);
    assert Debounced(h.world, d, p.now);
    var i: nat :| SteadyFrom(h.sightings, d, h.world.watch.value.since, i);
  }
}
