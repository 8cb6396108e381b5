/** The event broker between server and agents: bounded history, queues and replay
    (internal/broker/broker.go, internal/api/api.go). */
module Broker {
  import opened Basics
  import opened Replays
  import opened EventStream

  type Device = string
  type Channel = nat

  function LastOf(log: seq<Event>, n: nat): seq<Event> {
    if |log| > n then log[|log| - n..] else log
  }

  function Digits(n: nat): string {
    if n < 10 then [DIGITS[n]] else Digits(n / 10) + [DIGITS[n % 10]]
  }

  const DIGITS := "0123456789"

  function ZeroPadded(s: string, width: nat): string
    decreases width - |s|
  {
    if |s| >= width then s else ZeroPadded("0" + s, width)
  }

  function SequenceId(d: Device, n: nat): string {
    d + ":" + ZeroPadded(Digits(n), 20)
  }

  function DigitValue(c: char): nat {
    if '0' <= c <= '9' then c as int - '0' as int else 0
  }

  /** The number that decimal digits stand for. */
  function Value(s: string): nat {
    if s == "" then 0 else 10 * Value(s[..|s| - 1]) + DigitValue(s[|s| - 1])
  }

  lemma DigitsAreDigits(k: nat)
    requires k < 10
    ensures DigitValue(DIGITS[k]) == k
  {
  }

  lemma {:induction false} ValueOfDigits(n: nat)
    ensures Value(Digits(n)) == n
    decreases n
  {
    DigitsAreDigits(n % 10);
    if n < 10 {
      assert Digits(n)[..0] == "";
    } else {
      ValueOfDigits(n / 10);
      var s := Digits(n / 10);
      assert Digits(n) == s + [DIGITS[n % 10]] && (s + [DIGITS[n % 10]])[..|s|] == s;
    }
  }

  lemma {:induction false} ValueAfterZero(s: string)
    ensures Value("0" + s) == Value(s)
    decreases |s|
  {
    if s == "" {
      assert ("0" + s)[..0] == "";
    } else {
      ValueAfterZero(s[..|s| - 1]);
      assert ("0" + s)[..|s|] == "0" + s[..|s| - 1] && ("0" + s)[|s|] == s[|s| - 1];
    }
  }

  lemma {:induction false} ValueOfPadded(s: string, width: nat)
    ensures Value(ZeroPadded(s, width)) == Value(s)
    decreases width - |s|
  {
    if |s| < width {
      ValueAfterZero(s);
      ValueOfPadded("0" + s, width);
    }
  }

  /** Different numbers give different IDs. */
  lemma SequenceIdsDiffer(d: Device, m: nat, n: nat)
    requires m != n
    ensures SequenceId(d, m) != SequenceId(d, n)
  {
    var head, x, y := d + ":", ZeroPadded(Digits(m), 20), ZeroPadded(Digits(n), 20);
    ValueOfDigits(m);
    ValueOfDigits(n);
    ValueOfPadded(Digits(m), 20);
    ValueOfPadded(Digits(n), 20);
    assert (head + x)[|head|..] == x && (head + y)[|head|..] == y;
  }

  function Ids(log: seq<Event>): (ids: seq<string>)
    ensures |ids| == |log| && forall i :: 0 <= i < |log| ==> ids[i] == log[i].id
  {
    seq(|log|, i requires 0 <= i < |log| => log[i].id)
  }

  ghost function ReplayOf(history: seq<Event>, lastId: string): Option<seq<Event>> {
    if lastId == "" then None
    else
      var p := FindFrom(Ids(history), 0, lastId);
      if p.Some? then Some(history[p.value + 1..]) else None
  }

  datatype Queue = Queue(queue: seq<Event>, taken: seq<Event>, dropped: bool)

  predicate HasRoom(q: Queue) {
    |q.queue| < QUEUE_SIZE
  }

  /** The event is queued behind the others, or dropped because the queue is full. */
  function Offered(q: Queue, e: Event): Queue {
    if HasRoom(q) then q.(queue := q.queue + [e]) else q.(dropped := true)
  }

  /** Unless an event was dropped, the connection got everything published since it was opened. */
  ghost predicate IsComplete(q: Queue, since: nat, log: seq<Event>) {
    since <= |log| && |q.queue| <= QUEUE_SIZE && (!q.dropped ==> q.taken + q.queue == log[since..])
  }

  lemma OfferedIsComplete(q: Queue, since: nat, log: seq<Event>, e: Event)
    requires IsComplete(q, since, log)
    ensures IsComplete(Offered(q, e), since, log + [e])
  {
    assert (log + [e])[since..] == log[since..] + [e];
    assert q.taken + (q.queue + [e]) == q.taken + q.queue + [e];
  }

  /** One connection: its queue, and for the specification the number of events published before it was
      opened, the events already taken from it and whether one was dropped because the queue was full. */
  class Subscription {
    var queue: seq<Event>
    ghost const since: nat
    ghost var taken: seq<Event>
    ghost var dropped: bool

    constructor (ghost since: nat)
      ensures this.since == since && queue == [] && taken == [] && !dropped
    {
      this.since := since;
      queue := [];
      taken := [];
      dropped := false;
    }

    ghost function View(): Queue
      reads this
    {
      Queue(queue, taken, dropped)
    }

    ghost predicate Complete(log: seq<Event>)
      reads this
    {
      IsComplete(View(), since, log)
    }

    method Offer(e: Event) returns (queued: bool)
      modifies this
      ensures View() == Offered(old(View()), e)
      ensures queued <==> HasRoom(old(View()))
    {
      queued := |queue| < QUEUE_SIZE;
      if queued {
        queue := queue + [e];
      } else {
        dropped := true;
      }
    }

    method Take(ghost log: seq<Event>) returns (e: Event)
      requires Complete(log) && queue != []
      modifies this
      ensures Complete(log) && dropped == old(dropped)
      ensures e == old(queue)[0] && queue == old(queue)[1..] && taken == old(taken) + [e]
    {
      e := queue[0];
      assert taken + queue == taken + [e] + queue[1..];
      queue := queue[1..];
      taken := taken + [e];
    }
  }

  /** The broker's books for one device. */
  class DeviceChannel {
    const device: Device
    var subscribers: set<Subscription>
    var history: seq<Event>
    var sequence: nat
    ghost var published: seq<Event>

    constructor (device: Device)
      ensures this.device == device && Valid() && published == [] && subscribers == {}
    {
      this.device := device;
      subscribers, history, sequence, published := {}, [], 0, [];
    }

    ghost predicate Valid()
      reads this, subscribers
    {
      && history == LastOf(published, HISTORY_SIZE)
      && forall s :: s in subscribers ==> s.Complete(published)
    }

    method Subscribe() returns (s: Subscription)
      requires Valid()
      modifies this`subscribers
      ensures Valid() && fresh(s) && subscribers == old(subscribers) + {s}
      ensures s.since == |published| && s.queue == [] && !s.dropped
    {
      s := new Subscription(|published|);
      subscribers := subscribers + {s};
    }

    method Unsubscribe(s: Subscription)
      requires Valid()
      modifies this`subscribers
      ensures Valid() && subscribers == old(subscribers) - {s}
    {
      subscribers := subscribers - {s};
    }

    /** Every event so far was published without an ID, so each one is numbered by its place. */
    ghost predicate OnlyNumbered()
      reads this
    {
      sequence == |published| && NumberedInOrder(device, published)
    }

    /** Every event published is remembered, numbered if it has no ID, and queued for exactly the connections
        with room; the others have dropped it. */
    method Publish(event: Event) returns (count: nat, ghost served: set<Subscription>)
      requires Valid()
      modifies this`history, this`sequence, this`published, subscribers
      ensures Valid()
      ensures event.id != "" ==> published == old(published) + [event] && sequence == old(sequence)
      ensures event.id == "" ==>
                sequence == old(sequence) + 1 &&
                published == old(published) + [event.(id := SequenceId(device, sequence))]
      ensures forall s :: s in subscribers ==> s.View() == Offered(old(s.View()), published[|published| - 1])
      ensures forall s :: s in served <==> s in subscribers && |old(s.queue)| < 16
      ensures forall s :: s in served ==> s.queue == old(s.queue) + [published[|published| - 1]] && s.dropped == old(s.dropped)
      ensures forall s :: s in subscribers && s !in served ==> s.queue == old(s.queue) && s.dropped
      ensures count == |served| && served <= subscribers && forall s :: s in subscribers ==> (s in served <==> HasRoom(old(s.View())))
      ensures event.id == "" && old(OnlyNumbered()) ==> OnlyNumbered()
    {
      ghost var before := published;
      var e := Remember(event);
      assert forall s :: s in subscribers ==> s.Complete(before);
      count, served := OfferAll(e);
      forall s | s in subscribers
        ensures s.Complete(published)
      {
        OfferedIsComplete(old(s.View()), s.since, before, e);
      }
    }

    /** Numbers the event if it has no ID and puts it into the bounded history. */
    method Remember(event: Event) returns (e: Event)
      requires history == LastOf(published, HISTORY_SIZE)
      modifies this`history, this`sequence, this`published
      ensures history == LastOf(published, HISTORY_SIZE) && published == old(published) + [e]
      ensures if event.id != "" then e == event && sequence == old(sequence)
              else sequence == old(sequence) + 1 && e == event.(id := SequenceId(device, sequence))
      ensures event.id == "" && old(OnlyNumbered()) ==> OnlyNumbered()
    {
      e := event;
      if e.id == "" {
        sequence := sequence + 1;
        e := e.(id := SequenceId(device, sequence));
      }
      ghost var before := published;
      history := history + [e];
      published := published + [e];
      if |history| > HISTORY_SIZE {
        history := history[|history| - HISTORY_SIZE..];
      }
      HistoryAppend(before, e);
      if event.id == "" && old(OnlyNumbered()) {
        NumberedAppend(device, before, e);
      }
    }

    method OfferAll(e: Event) returns (count: nat, ghost served: set<Subscription>)
      modifies subscribers
      ensures forall s :: s in subscribers ==> s.View() == Offered(old(s.View()), e)
      ensures count == |served| && served <= subscribers && forall s :: s in subscribers ==> (s in served <==> HasRoom(old(s.View())))
    {
      count, served := 0, {};
      var todo := subscribers;
      while todo != {}
        invariant todo <= subscribers
        invariant forall s :: s in todo ==> s.View() == old(s.View())
        invariant forall s :: s in subscribers - todo ==> s.View() == Offered(old(s.View()), e)
        invariant served <= subscribers - todo && count == |served|
        invariant forall s :: s in subscribers - todo ==> (s in served <==> HasRoom(old(s.View())))
        decreases |todo|
      {
        var s :| s in todo;
        var queued := s.Offer(e);
        if queued {
          count := count + 1;
          served := served + {s};
        }
        todo := todo - {s};
      }
    }

    /** A connecting agent: the server subscribes it first and replays then, whatever is published in between. */
    method Connect(lastId: string, between: seq<Event>) returns (s: Subscription, replayed: Option<seq<Event>>)
      requires Valid()
      modifies this`subscribers, this`history, this`sequence, this`published, subscribers
      ensures Valid() && fresh(s) && subscribers == old(subscribers) + {s}
      ensures s.since == |old(published)| <= |published| && old(published) <= published
      ensures replayed == ReplayOf(LastOf(published, HISTORY_SIZE), lastId)
    {
      s := Subscribe();
      for i := 0 to |between|
        invariant Valid() && subscribers == old(subscribers) + {s} && old(published) <= published
      {
        var _, _ := Publish(between[i]);
      }
      replayed := Replay(lastId);
    }

    /** The events after the first one in the history with this ID, or a refusal when none of the last 64 has it. */
    method Replay(lastId: string) returns (r: Option<seq<Event>>)
      requires Valid()
      ensures r == ReplayOf(history, lastId)
      ensures r.None? <==> lastId == "" || !Occurs(Ids(published), HistoryStart(|published|), lastId)
      ensures r.Some? ==> exists q :: ReplaysFrom(published, lastId, q, r.value)
    {
      ReplayIsExact(published, lastId);
      if lastId == "" {
        return None;
      }
      for i := 0 to |history|
        invariant forall j :: 0 <= j < i ==> history[j].id != lastId
      {
        if history[i].id == lastId {
          assert FirstFrom(Ids(history), 0, lastId, i);
          FindIs(Ids(history), 0, lastId, i);
          return Some(history[i + 1..]);
        }
      }
      r := None;
    }
  }

  ghost predicate NumberedInOrder(d: Device, log: seq<Event>) {
    forall k :: 0 <= k < |log| ==> log[k].id == SequenceId(d, k + 1)
  }

  lemma NumberedAppend(d: Device, log: seq<Event>, e: Event)
    requires NumberedInOrder(d, log) && e.id == SequenceId(d, |log| + 1)
    ensures NumberedInOrder(d, log + [e])
  {
  }

  lemma HistoryAppend(log: seq<Event>, e: Event)
    ensures LastOf(log + [e], HISTORY_SIZE) == LastOf(LastOf(log, HISTORY_SIZE) + [e], HISTORY_SIZE)
  {
  }

  ghost predicate UniqueIds(log: seq<Event>) {
    forall i, j :: 0 <= i < j < |log| ==> log[i].id != log[j].id
  }

  /** A channel to which only events without an ID were published has unique IDs. */
  lemma NumberedIdsAreUnique(c: DeviceChannel)
    requires c.OnlyNumbered()
    ensures UniqueIds(c.published)
  {
    forall i, j | 0 <= i < j < |c.published|
      ensures c.published[i].id != c.published[j].id
    {
      SequenceIdsDiffer(c.device, i + 1, j + 1);
    }
  }

  /** These are all events after place q, the first one in the history that carries the ID. */
  ghost predicate ReplaysFrom(log: seq<Event>, lastId: string, q: nat, replayed: seq<Event>) {
    FirstFrom(Ids(log), HistoryStart(|log|), lastId, q) && replayed == log[q + 1..]
  }

  lemma FirstInEnd(log: seq<Event>, skip: nat, id: string, p: nat)
    requires skip <= |log|
    ensures FirstFrom(Ids(log[skip..]), 0, id, p) <==> FirstFrom(Ids(log), skip, id, skip + p)
  {
    if FirstFrom(Ids(log[skip..]), 0, id, p) {
      forall j | skip <= j < skip + p
        ensures Ids(log)[j] != id
      {
        assert log[skip..][j - skip] == log[j];
      }
    }
  }

  lemma NoneInEnd(log: seq<Event>, skip: nat, id: string)
    requires skip <= |log| && !Occurs(Ids(log[skip..]), 0, id)
    ensures !Occurs(Ids(log), skip, id)
  {
    forall j: nat | skip <= j < |log|
      ensures Ids(log)[j] != id
    {
      assert log[skip..][j - skip] == log[j];
      assert Ids(log[skip..])[j - skip] != id;
    }
  }

  /** Replaying from the bounded history is replaying from everything ever published, after the first of the last 64
      events that carries the ID, or a refusal: exactly when none of them does. */
  lemma ReplayIsExact(log: seq<Event>, lastId: string)
    ensures var r := ReplayOf(LastOf(log, HISTORY_SIZE), lastId);
            && (r.None? <==> lastId == "" || !Occurs(Ids(log), HistoryStart(|log|), lastId))
            && (r.Some? ==> exists q :: ReplaysFrom(log, lastId, q, r.value))
  {
    var skip := HistoryStart(|log|);
    var history := LastOf(log, HISTORY_SIZE);
    assert history == log[skip..];
    var found := FindFrom(Ids(history), 0, lastId);
    if found.Some? {
      FirstInEnd(log, skip, lastId, found.value);
      DropTwice(log, skip, found.value + 1);
      assert Ids(log)[skip + found.value] == lastId;
      if lastId != "" {
        assert ReplaysFrom(log, lastId, skip + found.value, history[found.value + 1..]);
      }
    } else {
      NoneInEnd(log, skip, lastId);
    }
  }

  lemma DropTwice(log: seq<Event>, a: nat, b: nat)
    requires a + b <= |log|
    ensures log[a..][b..] == log[a + b..]
  {
  }

  // ---------------------------------------------------------------- reconnecting

  lemma {:induction false} LastIdConcat(cursor: string, a: seq<Event>, b: seq<Event>)
    ensures LastId(cursor, a + b) == LastId(LastId(cursor, a), b)
    decreases |a|
  {
    if a == [] {
      assert a + b == b;
    } else {
      assert (a + b)[0] == a[0] && (a + b)[1..] == a[1..] + b;
      LastIdConcat(if a[0].id != "" then a[0].id else cursor, a[1..], b);
    }
  }

  lemma {:induction false} LastIdOfLog(cursor: string, log: seq<Event>)
    requires forall e :: e in log ==> e.id != ""
    ensures LastId(cursor, log) == if log == [] then cursor else log[|log| - 1].id
    decreases |log|
  {
    if log != [] {
      LastIdOfLog(log[0].id, log[1..]);
    }
  }

  lemma {:induction false} LastIdOfUnnumbered(cursor: string, extra: seq<Event>)
    requires forall e :: e in extra ==> e.id == ""
    ensures LastId(cursor, extra) == cursor
    decreases |extra|
  {
    if extra != [] {
      LastIdOfUnnumbered(cursor, extra[1..]);
    }
  }

  ghost predicate Numbered(events: seq<Event>) {
    forall e :: e in events ==> WellFormed(e) && e.id != ""
  }

  ghost predicate Unnumbered(events: seq<Event>) {
    forall e :: e in events ==> WellFormed(e) && e.id == ""
  }

  lemma LastIdOfParts(cursor: string, replay: seq<Event>, extra: seq<Event>, queued: seq<Event>)
    requires Numbered(replay) && Unnumbered(extra) && Numbered(queued)
    ensures LastId(cursor, replay + extra + queued)
         == if queued != [] then queued[|queued| - 1].id else if replay != [] then replay[|replay| - 1].id else cursor
  {
    LastIdConcat(cursor, replay + extra, queued);
    LastIdConcat(cursor, replay, extra);
    LastIdOfLog(cursor, replay);
    LastIdOfUnnumbered(LastId(cursor, replay), extra);
    LastIdOfLog(LastId(cursor, replay), queued);
  }

  lemma PartsAreWellFormed(replay: seq<Event>, extra: seq<Event>, queued: seq<Event>)
    requires Numbered(replay) && Unnumbered(extra) && Numbered(queued)
    ensures AllWellFormed(replay + extra + queued)
  {
    forall e | e in replay + extra + queued
      ensures WellFormed(e)
    {
      assert e in replay || e in extra || e in queued;
    }
  }

  lemma NumberedPart(log: seq<Event>, from: nat, to: nat)
    requires Numbered(log) && from <= to <= |log|
    ensures Numbered(log[from..to])
  {
    forall e | e in log[from..to]
      ensures e in log
    {
    }
  }

  lemma SliceOfPrefix(log: seq<Event>, a: nat, b: nat)
    requires a <= b <= |log|
    ensures log[..b][a..] == log[a..b]
  {
  }

  lemma JoinSlices(log: seq<Event>, a: nat, b: nat, since: nat)
    requires a <= b <= |log| && since <= b
    ensures log[a..b] + log[since..][b - since..] == log[a..]
  {
    DropTwice(log, since, b - since);
  }

  /** The replay ends with all events after place p. */
  predicate Covers(log: seq<Event>, p: nat, replayed: seq<Event>) {
    p < |log| <= |replayed| + p + 1 && replayed[|replayed| + p + 1 - |log|..] == log[p + 1..]
  }

  lemma ReplayPlace(log: seq<Event>, p: nat, replayed: seq<Event>) returns (q: nat)
    requires p < |log| && ReplayOf(LastOf(log, HISTORY_SIZE), log[p].id) == Some(replayed)
    ensures ReplaysFrom(log, log[p].id, q, replayed)
    ensures q <= p <==> |log| <= p + HISTORY_SIZE
    ensures Covers(log, p, replayed) <==> q <= p
  {
    ReplayIsExact(log, log[p].id);
    q :| ReplaysFrom(log, log[p].id, q, replayed);
    assert Ids(log)[p] == log[p].id;
    if q <= p {
      DropTwice(log, q + 1, p - q);
    }
  }

  /** For an agent that stopped at place p: a replay is given exactly if p is among the last 64 events or one of them
      carries its ID again; and one that is given has everything after p exactly in the first case. In the second the
      events in between are left out without a sign. */
  lemma ReplayCoversExactly(log: seq<Event>, p: nat)
    requires p < |log| && log[p].id != ""
    ensures var r := ReplayOf(LastOf(log, HISTORY_SIZE), log[p].id);
            && (r.Some? <==> |log| <= p + HISTORY_SIZE || Occurs(Ids(log), HistoryStart(|log|), log[p].id))
            && (r.Some? ==> (Covers(log, p, r.value) <==> |log| <= p + HISTORY_SIZE))
  {
    ReplayIsExact(log, log[p].id);
    assert Ids(log)[p] == log[p].id;
    var r := ReplayOf(LastOf(log, HISTORY_SIZE), log[p].id);
    if r.Some? {
      var _ := ReplayPlace(log, p, r.value);
    }
  }

  /** With unique IDs nothing is left out without a sign. */
  lemma UniqueIdsAreCovered(log: seq<Event>, p: nat, replayed: seq<Event>)
    requires UniqueIds(log) && p < |log| && ReplayOf(LastOf(log, HISTORY_SIZE), log[p].id) == Some(replayed)
    ensures Covers(log, p, replayed)
  {
    var q := ReplayPlace(log, p, replayed);
    assert Ids(log)[q] == log[q].id;
  }

  /** A command that nobody listened to is published under its ID, and again under the same ID eleven events later. */
  function Republished(d: Device, n: nat): (log: seq<Event>)
    ensures |log| == n
  {
    seq(n, i requires 0 <= i < n => Event("upgrade", SequenceId(d, if i == 11 then 1 else i + 1), "{}"))
  }

  /** An agent that stopped at the first of 66 such events is given a replay that begins after the second one: the
      ten events in between are skipped. */
  lemma RepublishedIdSkips(d: Device)
    ensures var log := Republished(d, 66);
            ReplayOf(LastOf(log, HISTORY_SIZE), log[0].id) == Some(log[12..]) && !Covers(log, 0, log[12..])
  {
    var log := Republished(d, 66);
    var id := log[0].id;
    forall j | 2 <= j < 11
      ensures Ids(log)[j] != id
    {
      SequenceIdsDiffer(d, 1, j + 1);
    }
    assert Ids(log)[11] == log[11].id == id;
    assert FirstFrom(Ids(log), 2, id, 11);
    ReplayIsExact(log, id);
    assert Occurs(Ids(log), 2, id) && id == SequenceId(d, 1) && id[|d|] == ':';
    var r := ReplayOf(LastOf(log, HISTORY_SIZE), id);
    var q :| ReplaysFrom(log, id, q, r.value);
    FirstIsUnique(Ids(log), 2, id, q, 11);
  }

  /** A connection that subscribed before it was replayed, and dropped nothing since: the replay, followed by what
      has gone through its queue since the replay and what is still queued, are all events after some place q with the
      known ID, in order and without a gap. They are all events after the place p where the agent stopped exactly if p
      was in the history when the replay was taken. */
  lemma QueueContinuesReplay(c: DeviceChannel, s: Subscription, p: nat, at: nat, replayed: seq<Event>) returns (q: nat)
    requires c.Valid() && s in c.subscribers && !s.dropped
    requires s.since <= at <= |c.published| && p < at
    requires ReplayOf(LastOf(c.published[..at], HISTORY_SIZE), c.published[p].id) == Some(replayed)
    ensures q < at && c.published[q].id == c.published[p].id
    ensures replayed + (s.taken + s.queue)[at - s.since..] == c.published[q + 1..]
    ensures q <= p <==> at <= p + HISTORY_SIZE
  {
    var before := c.published[..at];
    assert before[p] == c.published[p];
    q := ReplayPlace(before, p, replayed);
    assert Ids(before)[q] == c.published[q].id;
    SliceOfPrefix(c.published, q + 1, at);
    JoinSlices(c.published, q + 1, at, s.since);
  }

  /** The server writes the replay, some snapshots without ID and what it takes from the queue. Once the queue of
      such a connection is empty, the agent has handed on everything after place q, and its cursor is the newest event;
      nothing after the place p where it stopped is missing exactly if p was in the history. */
  lemma ReconnectLosesNothing(c: DeviceChannel, s: Subscription, p: nat, at: nat, replayed: seq<Event>,
                              extra: seq<Event>, done: seq<Event>) returns (q: nat)
    requires c.Valid() && s in c.subscribers && !s.dropped && s.queue == []
    requires Numbered(c.published) && Unnumbered(extra) && s.since <= at <= |c.published| && p < at
    requires ReplayOf(LastOf(c.published[..at], HISTORY_SIZE), c.published[p].id) == Some(replayed)
    ensures var cursor, written := c.published[p].id, replayed + extra + s.taken;
            && HandsOn(cursor, done, PrintAll(written), written)
            && LastId(cursor, written) == c.published[|c.published| - 1].id
    ensures q < at && c.published[q].id == c.published[p].id && replayed + s.taken[at - s.since..] == c.published[q + 1..]
    ensures q <= p <==> at <= p + HISTORY_SIZE
  {
    q := QueueContinuesReplay(c, s, p, at, replayed);
    assert s.taken + s.queue == s.taken;
    var before := c.published[..at];
    assert before[p] == c.published[p];
    var k := ReplayPlace(before, p, replayed);
    SliceOfPrefix(c.published, k + 1, at);
    assert Ids(before)[k] == c.published[k].id;
    WrittenIsHandedOn(c.published, k, s.since, at, extra, done);
  }

  lemma WrittenIsHandedOn(log: seq<Event>, i: nat, since: nat, at: nat, extra: seq<Event>, done: seq<Event>)
    requires i < at <= |log| && since <= at && Numbered(log) && Unnumbered(extra)
    ensures var written := log[i + 1..at] + extra + log[since..];
            HandsOn(log[i].id, done, PrintAll(written), written) && LastId(log[i].id, written) == log[|log| - 1].id
  {
    NumberedPart(log, i + 1, at);
    NumberedPart(log, since, |log|);
    assert log[since..] == log[since..|log|];
    PartsAreHandedOn(log[i].id, done, log[i + 1..at], extra, log[since..]);
    NewestId(log, i, since, at);
  }

  lemma PartsAreHandedOn(cursor: string, done: seq<Event>, replay: seq<Event>, extra: seq<Event>, queued: seq<Event>)
    requires Numbered(replay) && Unnumbered(extra) && Numbered(queued)
    ensures var written := replay + extra + queued;
            && HandsOn(cursor, done, PrintAll(written), written)
            && LastId(cursor, written)
               == if queued != [] then queued[|queued| - 1].id else if replay != [] then replay[|replay| - 1].id else cursor
  {
    PartsAreWellFormed(replay, extra, queued);
    RoundTripHandsOn(cursor, done, replay + extra + queued);
    LastIdOfParts(cursor, replay, extra, queued);
  }

  lemma RoundTripHandsOn(cursor: string, done: seq<Event>, written: seq<Event>)
    requires AllWellFormed(written)
    ensures HandsOn(cursor, done, PrintAll(written), written)
  {
    RoundTrip(cursor, done, written);
  }

  lemma NewestId(log: seq<Event>, i: nat, since: nat, at: nat)
    requires i < at <= |log| && since <= at
    ensures var replay, queued := log[i + 1..at], log[since..];
            log[|log| - 1].id
            == if queued != [] then queued[|queued| - 1].id else if replay != [] then replay[|replay| - 1].id else log[i].id
  {
  }
}
