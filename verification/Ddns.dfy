/** Keeping a device's AAAA record in step with its addresses (internal/ddns/service.go). */
module Ddns {
  import opened Basics
  import opened Prefixes

  datatype Status = Pending | Syncing | Synced | Failed | GracePeriod

  /** The stored state of a device. */
  datatype Device = Device(revision: nat, reported: seq<Option<Addr>>, desired: Option<Addr>, applied: Option<Addr>,
                           appliedRevision: nat, status: Status, hasError: bool, updatedAt: Time, graceEnd: Option<Time>)

  /** What is stored about the network's router: nothing, or its prefixes (None for one that is not usable as a
      range) and when it was last heard. */
  datatype Network = Unknown | Known(prefixes: seq<(Option<Range>, Lifetime)>, lastSeen: Time)

  /** One reconcile: two readings of the clock (the second after the publisher answered), whether the publisher's
      call succeeds, and whether each of the two state writes reaches the store. */
  datatype Pass = Pass(network: Network, staleAfter: Time, now: Time, later: Time, published: bool, saved: (bool, bool))

  datatype Write = NoWrite | Upsert(address: Addr) | Delete

  // ---------------------------------------------------------------- what a reconcile sees

  function ActiveRanges(prefixes: seq<(Option<Range>, Lifetime)>, now: Time): seq<Range> {
    if prefixes == [] then []
    else
      var last := prefixes[|prefixes| - 1];
      ActiveRanges(prefixes[..|prefixes| - 1], now) + (if last.0.Some? && Alive(last.1, now) then [last.0.value] else [])
  }

  predicate Stale(p: Pass) {
    p.network.Known? && p.staleAfter > 0 && p.now - p.network.lastSeen > p.staleAfter
  }

  /** A network without any report has no prefixes and is not stale. */
  function Active(p: Pass): seq<Range> {
    if p.network.Unknown? then [] else ActiveRanges(p.network.prefixes, p.now)
  }

  function PassCandidates(d: Device, p: Pass): seq<Addr> {
    Candidates(d.reported, Active(p))
  }

  function Wanted(d: Device, p: Pass): Option<Addr> {
    Selected(PassCandidates(d, p), d.applied)
  }

  // ---------------------------------------------------------------- one reconcile

  function Keep(stored: Device, update: Device, saved: bool): Device {
    if saved then update else stored
  }

  /** The write asked of the publisher. */
  function Asked(d: Device, p: Pass): Write {
    if Stale(p) then NoWrite
    else if Wanted(d, p).Some? then
      if d.applied == Wanted(d, p) && d.status == Synced then NoWrite else Upsert(Wanted(d, p).value)
    else if d.applied.Some? && d.graceEnd.Some? && d.graceEnd.value <= p.now then Delete
    else NoWrite
  }

  function Reconciled(d: Device, p: Pass, grace: Time): Device {
    if Stale(p) then d
    else if Wanted(d, p).Some? then
      if Asked(d, p) == NoWrite then d
      else
        var syncing := d.(graceEnd := None, desired := Wanted(d, p), status := Syncing);
        var first := Keep(d, syncing, p.saved.0);
        if p.published then
          Keep(first, syncing.(updatedAt := p.later, applied := Wanted(d, p), appliedRevision := d.revision, status := Synced, hasError := false), p.saved.1)
        else
          Keep(first, syncing.(updatedAt := p.later, status := Failed, hasError := true), p.saved.1)
    else if d.applied == None then Keep(d, d.(desired := None, status := Synced, updatedAt := p.now), p.saved.0)
    else if d.graceEnd == None then Keep(d, d.(graceEnd := Some(p.now + grace), status := GracePeriod, updatedAt := p.now), p.saved.0)
    else if p.now < d.graceEnd.value then d
    else
      var syncing := d.(status := Syncing);
      var first := Keep(d, syncing, p.saved.0);
      if p.published then
        Keep(first, syncing.(updatedAt := p.later, applied := None, desired := None, graceEnd := None, status := Synced, hasError := false), p.saved.1)
      else
        Keep(first, syncing.(updatedAt := p.later, status := Failed, hasError := true), p.saved.1)
  }

  /** The provider's record; a failed call has no effect on it. */
  function RecordAfter(record: Option<Addr>, w: Write, published: bool): Option<Addr> {
    if !published then record
    else match w
      case NoWrite => record
      case Upsert(a) => Some(a)
      case Delete => None
  }

  /** A newer report replaces the addresses; changed ones make the state pending. */
  function AfterReport(d: Device, revision: nat, reported: seq<Option<Addr>>): Device {
    d.(revision := revision, reported := reported, status := if reported != d.reported then Pending else d.status)
  }

  class Service {
    var stored: Device
    ghost var record: Option<Addr>
    const grace: Time

    constructor (d: Device, gracePeriod: Time)
      ensures stored == d && record == None && grace == if gracePeriod <= 0 then 600000000000 else gracePeriod
    {
      stored, record := d, None;
      grace := if gracePeriod <= 0 then 600000000000 else gracePeriod;
    }

    method GetActivePrefixes(p: Pass) returns (active: seq<Range>, isStale: bool)
      requires p.network.Known?
      ensures active == ActiveRanges(p.network.prefixes, p.now) && isStale == Stale(p)
    {
      isStale := false;
      if p.staleAfter > 0 && p.now - p.network.lastSeen > p.staleAfter {
        isStale := true;
      }
      active := [];
      var i, prefixes := 0, p.network.prefixes;
      while i < |prefixes|
        invariant 0 <= i <= |prefixes|
        invariant active == ActiveRanges(prefixes[..i], p.now)
      {
        assert prefixes[..i + 1][..i] == prefixes[..i];
        if Alive(prefixes[i].1, p.now) && prefixes[i].0.Some? {
          active := active + [prefixes[i].0.value];
        }
        i := i + 1;
      }
      assert prefixes[..i] == prefixes;
    }

    method Save(d: Device, works: bool)
      modifies `stored
      ensures stored == Keep(old(stored), d, works)
    {
      if works {
        stored := d;
      }
    }

    /** The publisher's call, as the provider sees it. */
    method Publish(ghost w: Write, works: bool) returns (ok: bool)
      modifies `record
      ensures ok == works && record == RecordAfter(old(record), w, works)
    {
      record := RecordAfter(record, w, works);
      ok := works;
    }

    method ReconcileDevice(p: Pass)
      modifies this
      ensures stored == Reconciled(old(stored), p, grace)
      ensures record == RecordAfter(old(record), Asked(old(stored), p), p.published)
    {
      var st := stored;
      var active, isStale := [], false;
      if p.network.Known? {
        active, isStale := GetActivePrefixes(p);
      }
      if isStale {
        return;
      }
      var candidates := Intersect(st.reported, active);
      var chosen := SelectAddress(candidates, st.applied);
      if chosen.Some? {
        st := st.(graceEnd := None, desired := chosen);
        if st.applied == chosen && st.status == Synced {
          return;
        }
        st := st.(status := Syncing);
        Save(st, p.saved.0);
        var ok := Publish(Upsert(chosen.value), p.published);
        st := st.(updatedAt := p.later);
        if !ok {
          st := st.(status := Failed, hasError := true);
          Save(st, p.saved.1);
          return;
        }
        st := st.(applied := chosen, appliedRevision := st.revision, status := Synced, hasError := false);
        Save(st, p.saved.1);
        return;
      }
      if st.applied == None {
        st := st.(desired := None, status := Synced, updatedAt := p.now);
        Save(st, p.saved.0);
        return;
      }
      if st.graceEnd == None {
        st := st.(graceEnd := Some(p.now + grace), status := GracePeriod, updatedAt := p.now);
        Save(st, p.saved.0);
        return;
      }
      if p.now < st.graceEnd.value {
        return;
      }
      st := st.(status := Syncing);
      Save(st, p.saved.0);
      var ok := Publish(Delete, p.published);
      st := st.(updatedAt := p.later);
      if !ok {
        st := st.(status := Failed, hasError := true);
        Save(st, p.saved.1);
        return;
      }
      st := st.(applied := None, desired := None, graceEnd := None, status := Synced, hasError := false);
      Save(st, p.saved.1);
    }
  }

  // ---------------------------------------------------------------- runs

  datatype Event = Report(revision: nat, reported: seq<Option<Addr>>) | Reconcile(pass: Pass)

  /** A reconcile that looked at the addresses: when, whether it found a candidate, and whether it stored anything. */
  datatype Look = Look(time: Time, found: bool, stored: bool)

  datatype World = World(device: Device, record: Option<Addr>, looks: seq<Look>)

  function Step(w: World, e: Event, grace: Time): World {
    match e
    case Report(revision, reported) => w.(device := AfterReport(w.device, revision, reported))
    case Reconcile(p) =>
      World(Reconciled(w.device, p, grace),
            RecordAfter(w.record, Asked(w.device, p), p.published),
            if Stale(p) then w.looks
            else w.looks + [Look(p.now, Wanted(w.device, p).Some?, p.saved.0 || p.saved.1)])
  }

  function Run(w: World, events: seq<Event>, grace: Time): World
    decreases |events|
  {
    if events == [] then w else Step(Run(w, events[..|events| - 1], grace), events[|events| - 1], grace)
  }

  /** A device just reported for the first time. */
  function Fresh(revision: nat, reported: seq<Option<Addr>>, now: Time): World {
    World(Device(revision, reported, None, None, 0, Pending, false, now, None), None, [])
  }

  predicate GraceShape(d: Device) {
    && (d.graceEnd.Some? ==> d.applied.Some? && d.status != Synced)
    && (d.status == Synced ==> d.desired == d.applied)
  }

  /** An empty look from which the grace period was counted, with no stored look that found a candidate after it. */
  predicate Opened(looks: seq<Look>, end: Time, grace: Time, i: nat) {
    && i < |looks| && !looks[i].found && looks[i].time + grace == end
    && forall j :: i < j < |looks| ==> !(looks[j].found && looks[j].stored)
  }

  ghost predicate GraceIsOpened(w: World, grace: Time) {
    w.device.graceEnd.Some? ==> exists i: nat :: Opened(w.looks, w.device.graceEnd.value, grace, i)
  }

  ghost predicate Inv(w: World, grace: Time) {
    GraceShape(w.device) && GraceIsOpened(w, grace)
  }

  lemma OpenedExtends(looks: seq<Look>, end: Time, grace: Time, i: nat, l: Look)
    requires Opened(looks, end, grace, i) && !(l.found && l.stored)
    ensures Opened(looks + [l], end, grace, i)
  {
  }

  lemma ReconcileKeepsInv(w: World, p: Pass, grace: Time)
    requires Inv(w, grace)
    ensures Inv(Step(w, Reconcile(p), grace), grace)
  {
    var d, n := w.device, Step(w, Reconcile(p), grace);
    if !Stale(p) && n.device.graceEnd.Some? {
      var l := Look(p.now, Wanted(d, p).Some?, p.saved.0 || p.saved.1);
      if d.graceEnd.Some? {
        var i: nat :| Opened(w.looks, d.graceEnd.value, grace, i);
        OpenedExtends(w.looks, d.graceEnd.value, grace, i, l);
      } else {
        assert Opened(n.looks, p.now + grace, grace, |w.looks|);
      }
    }
  }

  lemma {:induction false} RunKeepsInv(w: World, events: seq<Event>, grace: Time)
    requires Inv(w, grace)
    ensures Inv(Run(w, events, grace), grace)
    decreases |events|
  {
    if events != [] {
      RunKeepsInv(w, events[..|events| - 1], grace);
      var before, last := Run(w, events[..|events| - 1], grace), events[|events| - 1];
      if last.Reconcile? {
        ReconcileKeepsInv(before, last.pass, grace);
      }
    }
  }

  /** A running grace period means that a record is applied and the state is not synced; a synced state applies
      what it desires. */
  lemma {:induction false} GraceMeansAppliedAndUnsynced(revision: nat, reported: seq<Option<Addr>>, now: Time, events: seq<Event>, grace: Time)
    ensures var d := Run(Fresh(revision, reported, now), events, grace).device;
            && (d.graceEnd.Some? ==> d.applied.Some? && d.status != Synced)
            && (d.status == Synced ==> d.desired == d.applied)
  {
    RunKeepsInv(Fresh(revision, reported, now), events, grace);
  }

  /** The record is deleted only by a reconcile without candidates, and only if one at least a grace period earlier
      found none either and no reconcile since then has stored a candidate it found. */
  lemma DeletedOnlyAfterGrace(revision: nat, reported: seq<Option<Addr>>, start: Time, events: seq<Event>, p: Pass, grace: Time)
    requires Asked(Run(Fresh(revision, reported, start), events, grace).device, p) == Delete
    ensures var w := Run(Fresh(revision, reported, start), events, grace);
            && PassCandidates(w.device, p) == []
            && exists i: nat :: i < |w.looks| && !w.looks[i].found && w.looks[i].time + grace <= p.now
                 && forall j :: i < j < |w.looks| ==> !(w.looks[j].found && w.looks[j].stored)
  {
    var w := Run(Fresh(revision, reported, start), events, grace);
    RunKeepsInv(Fresh(revision, reported, start), events, grace);
    var i: nat :| Opened(w.looks, w.device.graceEnd.value, grace, i);
  }

  /** A reconcile that finds a candidate ends a running grace period exactly if it can store something. */
  lemma FindingEndsGraceExactly(d: Device, p: Pass, grace: Time)
    requires GraceShape(d) && d.graceEnd.Some? && !Stale(p) && Wanted(d, p).Some?
    ensures Reconciled(d, p, grace).graceEnd == None <==> p.saved.0 || p.saved.1
    ensures !(p.saved.0 || p.saved.1) ==> Reconciled(d, p, grace) == d
  {
  }

  /** If every look that found a candidate stored something, none since the empty one found any. */
  lemma DeletedOnlyWithoutCandidates(revision: nat, reported: seq<Option<Addr>>, start: Time, events: seq<Event>, p: Pass, grace: Time)
    requires var w := Run(Fresh(revision, reported, start), events, grace);
             Asked(w.device, p) == Delete && forall k :: 0 <= k < |w.looks| && w.looks[k].found ==> w.looks[k].stored
    ensures var w := Run(Fresh(revision, reported, start), events, grace);
            && PassCandidates(w.device, p) == []
            && exists i: nat :: i < |w.looks| && w.looks[i].time + grace <= p.now && forall j :: i <= j < |w.looks| ==> !w.looks[j].found
  {
    DeletedOnlyAfterGrace(revision, reported, start, events, p, grace);
    var w := Run(Fresh(revision, reported, start), events, grace);
    var i: nat :| i < |w.looks| && !w.looks[i].found && w.looks[i].time + grace <= p.now
                  && forall j :: i < j < |w.looks| ==> !(w.looks[j].found && w.looks[j].stored);
    assert forall j :: i <= j < |w.looks| ==> !w.looks[j].found;
  }

  /** A network with the addresses 0 to 9 at the time `now`, seen or unseen, and whether the state can be written. */
  function Sight(seen: bool, now: Time, saved: bool): Pass {
    Pass(if seen then Known([(Some(Range(0, 9)), Lifetime(None, None))], 0) else Unknown, 0, now, now, true, (saved, saved))
  }

  lemma SevenIsWanted(d: Device, p: Pass)
    requires d.reported == [Some(7)] && p.network == Known([(Some(Range(0, 9)), Lifetime(None, None))], 0)
    ensures Wanted(d, p) == Some(7)
  {
    var entry := (Some(Range(0, 9)), Lifetime(None, None));
    assert [entry][..0] == [] && ActiveRanges([entry], p.now) == [] + [Range(0, 9)];
    assert Active(p) == [Range(0, 9)];
    assert Matches(7, Active(p)) by {
      assert Active(p)[0].low <= 7 <= Active(p)[0].high;
    }
    CandidatesExactly(d.reported, Active(p));
    var c := PassCandidates(d, p);
    assert 7 in c && c[0] in c;
  }

  lemma FirstIsIn(c: seq<Addr>)
    ensures c == [] || c[0] in c
  {
  }

  lemma NothingIsWanted(d: Device, now: Time, saved: bool)
    ensures Wanted(d, Sight(false, now, saved)) == None
  {
    CandidatesExactly(d.reported, []);
    FirstIsIn(PassCandidates(d, Sight(false, now, saved)));
  }

  /** The address is applied; then it is missed, with the grace period running; then it is found unnoticed. */
  function Applied7(): World {
    World(Device(1, [Some(7)], Some(7), Some(7), 1, Synced, false, 1, None), Some(7), [Look(1, true, true)])
  }

  function Missed(): World {
    World(Device(1, [Some(7)], Some(7), Some(7), 1, GracePeriod, false, 10, Some(610)), Some(7), [Look(1, true, true), Look(10, false, true)])
  }

  function FoundUnnoticed(): World {
    Missed().(looks := [Look(1, true, true), Look(10, false, true), Look(100, true, false)])
  }

  lemma FirstSight()
    ensures Step(Fresh(1, [Some(7)], 0), Reconcile(Sight(true, 1, true)), 600) == Applied7()
  {
    SevenIsWanted(Fresh(1, [Some(7)], 0).device, Sight(true, 1, true));
  }

  lemma SightLost()
    ensures Step(Applied7(), Reconcile(Sight(false, 10, true)), 600) == Missed()
  {
    NothingIsWanted(Applied7().device, 10, true);
  }

  lemma SightAgain()
    ensures Step(Missed(), Reconcile(Sight(true, 100, false)), 600) == FoundUnnoticed()
  {
    SevenIsWanted(Missed().device, Sight(true, 100, false));
  }

  lemma RunEnds(w: World, init: seq<Event>, last: Event, before: World, after: World, grace: Time)
    requires Run(w, init, grace) == before && Step(before, last, grace) == after
    ensures Run(w, init + [last], grace) == after
  {
    assert (init + [last])[..|init|] == init;
  }

  lemma ThreeSights()
    ensures Run(Fresh(1, [Some(7)], 0),
                [Reconcile(Sight(true, 1, true)), Reconcile(Sight(false, 10, true)), Reconcile(Sight(true, 100, false))], 600)
            == FoundUnnoticed()
  {
    var w, a, b, c := Fresh(1, [Some(7)], 0), Reconcile(Sight(true, 1, true)), Reconcile(Sight(false, 10, true)), Reconcile(Sight(true, 100, false));
    FirstSight();
    SightLost();
    SightAgain();
    RunEnds(w, [], a, w, Applied7(), 600);
    RunEnds(w, [] + [a], b, Applied7(), Missed(), 600);
    RunEnds(w, [] + [a] + [b], c, Missed(), FoundUnnoticed(), 600);
    assert [] + [a] + [b] + [c] == [a, b, c];
  }

  /** The address is applied, is out of sight at 10, is found again at 100 while the state cannot be written, and is
      out of sight at 700: the record is deleted although it was found within the grace period of 600. */
  lemma UnstoredFindingIsForgotten()
    ensures var w := Run(Fresh(1, [Some(7)], 0),
                         [Reconcile(Sight(true, 1, true)), Reconcile(Sight(false, 10, true)), Reconcile(Sight(true, 100, false))], 600);
            && w.looks == [Look(1, true, true), Look(10, false, true), Look(100, true, false)]
            && w.record == Some(7) && Asked(w.device, Sight(false, 700, true)) == Delete
  {
    ThreeSights();
    NothingIsWanted(FoundUnnoticed().device, 700, true);
  }

  // ---------------------------------------------------------------- the applied address is the record

  /** The one case in which the store loses track of the record: the provider took a change, the write that
      should have noted it failed. */
  predicate Lost(d: Device, p: Pass) {
    && p.published && !p.saved.1
    && (Asked(d, p) == Delete || (Asked(d, p).Upsert? && d.applied != Some(Asked(d, p).address)))
  }

  lemma AppliedIsRecordExactly(d: Device, record: Option<Addr>, p: Pass, grace: Time)
    requires d.applied == record
    ensures Reconciled(d, p, grace).applied == RecordAfter(record, Asked(d, p), p.published) <==> !Lost(d, p)
  {
  }

  /** The provider takes the first address, the write that should note it fails: the record is there, the store
      does not know it. */
  lemma UnnotedChangeIsLost()
    ensures var d := Device(1, [Some(7)], None, None, 0, Pending, false, 0, None);
            var p := Pass(Known([(Some(Range(0, 9)), Lifetime(None, None))], 0), 10, 1, 2, true, (true, false));
            && Reconciled(d, p, 600).applied == None && RecordAfter(None, Asked(d, p), true) == Some(7)
  {
    var d := Device(1, [Some(7)], None, None, 0, Pending, false, 0, None);
    var p := Pass(Known([(Some(Range(0, 9)), Lifetime(None, None))], 0), 10, 1, 2, true, (true, false));
    SevenIsWanted(d, p);
  }

  /** No reconcile of the run lost track. */
  predicate NeverLost(w: World, events: seq<Event>, grace: Time)
    decreases |events|
  {
    events == [] ||
    (var init, last := events[..|events| - 1], events[|events| - 1];
     NeverLost(w, init, grace) && (last.Reconcile? ==> !Lost(Run(w, init, grace).device, last.pass)))
  }

  /** Over every run whose writes of a taken change succeed, the applied address is the provider's record. */
  lemma {:induction false} AppliedIsAlwaysRecord(w: World, events: seq<Event>, grace: Time)
    requires w.device.applied == w.record && NeverLost(w, events, grace)
    ensures Run(w, events, grace).device.applied == Run(w, events, grace).record
    decreases |events|
  {
    if events != [] {
      var init, last := events[..|events| - 1], events[|events| - 1];
      AppliedIsAlwaysRecord(w, init, grace);
      if last.Reconcile? {
        AppliedIsRecordExactly(Run(w, init, grace).device, Run(w, init, grace).record, last.pass, grace);
      }
    }
  }

  // ---------------------------------------------------------------- which address is written

  /** An address is written only if it was reported and lies in an active prefix; it differs from the applied one
      only when that one no longer does, and then it is the smallest that does. */
  lemma WritesAreSticky(d: Device, p: Pass)
    requires Asked(d, p).Upsert?
    ensures var a := Asked(d, p).address;
            && Some(a) in d.reported && Matches(a, Active(p))
            && (d.applied.Some? && d.applied.value != a ==> !(d.applied in d.reported && Matches(d.applied.value, Active(p))))
            && (d.applied != Some(a) ==> forall b :: Some(b) in d.reported && Matches(b, Active(p)) ==> a <= b)
  {
    var c := PassCandidates(d, p);
    CandidatesExactly(d.reported, Active(p));
    assert c[0] in c;
    forall b | b in c
      ensures c[0] <= b
    {
      var i :| 0 <= i < |c| && c[i] == b;
    }
  }

  /** While every reconcile finds the applied address among the candidates, no run changes the record. */
  predicate Held(w: World, events: seq<Event>, grace: Time, a: Addr)
    decreases |events|
  {
    events == [] ||
    (var init, last := events[..|events| - 1], events[|events| - 1];
     Held(w, init, grace, a)
     && (last.Reconcile? && !Stale(last.pass) ==> a in PassCandidates(Run(w, init, grace).device, last.pass)))
  }

  lemma {:induction false} RecordHolds(w: World, events: seq<Event>, grace: Time, a: Addr)
    requires w.device.applied == Some(a) == w.record && Held(w, events, grace, a)
    ensures Run(w, events, grace).device.applied == Some(a) == Run(w, events, grace).record
    decreases |events|
  {
    if events != [] {
      RecordHolds(w, events[..|events| - 1], grace, a);
    }
  }

  /** After a successful reconcile with the same view of the network nothing is left to do. */
  lemma SuccessIsStable(d: Device, p: Pass, q: Pass, grace: Time)
    requires Asked(d, p).Upsert? && p.published && p.saved.1
    requires !Stale(q) && Active(q) == Active(p)
    ensures var n := Reconciled(d, p, grace);
            n.status == Synced && n.applied == Wanted(d, p) && Asked(n, q) == NoWrite && Reconciled(n, q, grace) == n
  {
    var c := PassCandidates(d, p);
    assert PassCandidates(Reconciled(d, p, grace), q) == c;
    assert c[0] in c;
  }
}
