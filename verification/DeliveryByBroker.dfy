/** The replay of the delivery model is the broker's. */
module DeliveryByBroker {
  import opened Basics
  import opened Replays
  import opened EventStream
  import opened Broker
  import CommandLedger
  import CommandDelivery

  /** The events carry the IDs of these commands: equal where the commands are equal. */
  ghost predicate Carry(events: seq<Event>, log: seq<CommandLedger.Id>) {
    |events| == |log| && forall i, j :: 0 <= i < |log| && 0 <= j < |log| ==> (events[i].id == events[j].id <==> log[i] == log[j])
  }

  lemma SamePlace(events: seq<Event>, log: seq<CommandLedger.Id>, start: nat, p: nat, q: nat)
    requires Carry(events, log) && p < |log|
    ensures FirstFrom(Ids(events), start, events[p].id, q) <==> FirstFrom(log, start, log[p], q)
  {
  }

  lemma EndsCarry(events: seq<Event>, log: seq<CommandLedger.Id>, k: nat)
    requires Carry(events, log) && k <= |log|
    ensures Carry(events[k..], log[k..])
  {
    forall i, j | 0 <= i < |log| - k && 0 <= j < |log| - k
      ensures events[k..][i].id == events[k..][j].id <==> log[k..][i] == log[k..][j]
    {
      assert events[k..][i] == events[k + i] && events[k..][j] == events[k + j];
    }
  }

  lemma SameOccurrence(events: seq<Event>, log: seq<CommandLedger.Id>, start: nat, p: nat)
    requires Carry(events, log) && p < |log| && !Occurs(Ids(events), start, events[p].id)
    ensures !Occurs(log, start, log[p])
  {
    forall j: nat | start <= j < |log|
      ensures log[j] != log[p]
    {
      assert Ids(events)[j] == events[j].id;
    }
  }

  lemma GivenReplay(events: seq<Event>, v: CommandDelivery.Server, p: nat, q: nat)
    requires Carry(events, v.log) && p < |v.log| && FirstFrom(Ids(events), v.start, events[p].id, q)
    ensures Carry(events[q + 1..], CommandDelivery.ReplayAfter(v, Some(v.log[p])))
  {
    SamePlace(events, v.log, v.start, p, q);
    FindIs(v.log, v.start, v.log[p], q);
    EndsCarry(events, v.log, q + 1);
  }

  /** What the model gives an agent after its cursor carries what the broker gives it, in the same order. */
  lemma BrokerReplays(events: seq<Event>, v: CommandDelivery.Server, p: nat)
    requires Carry(events, v.log) && v.start == HistoryStart(|v.log|) && p < |v.log| && events[p].id != ""
    ensures var replayed, model := ReplayOf(LastOf(events, HISTORY_SIZE), events[p].id), CommandDelivery.ReplayAfter(v, Some(v.log[p]));
            if replayed.None? then model == [] else Carry(replayed.value, model)
  {
    var id := events[p].id;
    ReplayIsExact(events, id);
    var replayed := ReplayOf(LastOf(events, HISTORY_SIZE), id);
    if replayed.Some? {
      var q: nat :| ReplaysFrom(events, id, q, replayed.value);
      GivenReplay(events, v, p, q);
    } else {
      SameOccurrence(events, v.log, v.start, p);
    }
  }
}
