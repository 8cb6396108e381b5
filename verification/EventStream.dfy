/** The server-sent event framing: what the server writes and how the agent reads it back
    (internal/api/api.go, internal/daemon/client.go). */
module EventStream {
  import opened Basics
  import opened Text

  datatype Event = Event(kind: string, id: string, data: string)

  const EVENT := "event:"
  const ID := "id:"
  const DATA := "data:"
  const COMMENT := ":"

  // ---------------------------------------------------------------- writing

  function FieldText(name: string, value: string): string {
    name + " " + value
  }

  function Line(text: string): string {
    text + "\n"
  }

  function PrintEvent(e: Event): string {
    (if e.kind != "" then Line(FieldText(EVENT, e.kind)) else "")
    + (if e.id != "" then Line(FieldText(ID, e.id)) else "")
    + Line(FieldText(DATA, e.data)) + Line("")
  }

  function PrintAll(events: seq<Event>): string {
    if events == [] then "" else PrintEvent(events[0]) + PrintAll(events[1..])
  }

  // ---------------------------------------------------------------- reading

  /** The reader's variables, the cursor it saves and the events it has handed on. */
  datatype Reader = Reader(kind: string, data: string, id: string, cursor: string, dispatched: seq<Event>)

  function Field(line: string, name: string): string
    requires HasPrefix(line, name)
  {
    TrimSpace(line[|name|..])
  }

  function Dispatch(r: Reader): Reader {
    if r.kind != "" || r.data != "" then
      Reader("", "", "", if r.id != "" then r.id else r.cursor, r.dispatched + [Event(r.kind, r.id, r.data)])
    else r
  }

  function Feed(r: Reader, raw: string): Reader {
    var line := TrimRight(raw, LineEnds);
    if line == "" then Dispatch(r)
    else if HasPrefix(line, COMMENT) then r
    else if HasPrefix(line, EVENT) then r.(kind := Field(line, EVENT))
    else if HasPrefix(line, ID) then r.(id := Field(line, ID))
    else if HasPrefix(line, DATA) then
      var v := Field(line, DATA);
      r.(data := if r.data == "" then v else r.data + "\n" + v)
    else r
  }

  function LineEnd(s: string): (n: nat)
    ensures n <= |s| && '\n' !in s[..n] && (n < |s| ==> s[n] == '\n')
  {
    if s == "" || s[0] == '\n' then 0 else 1 + LineEnd(s[1..])
  }

  /** All complete lines are read; an unfinished last line is not. */
  function Read(r: Reader, s: string): Reader
    decreases |s|
  {
    var n := LineEnd(s);
    if n == |s| then r else Read(Feed(r, s[..n]), s[n + 1..])
  }

  lemma ReadMore(r: Reader, s: string)
    requires LineEnd(s) < |s|
    ensures Read(r, s) == Read(Feed(r, s[..LineEnd(s)]), s[LineEnd(s) + 1..])
  {
  }

  ghost predicate ReadsTo(r: Reader, s: string, end: Reader) {
    Read(r, s) == end
  }

  /** Reading the rest from r ends where reading the whole body from the start does. */
  ghost predicate SameEnd(r: Reader, rest: string, start: Reader, body: string) {
    forall end {:trigger ReadsTo(r, rest, end)} :: ReadsTo(r, rest, end) ==> ReadsTo(start, body, end)
  }

  lemma SameEndStep(r: Reader, rest: string, start: Reader, body: string)
    requires SameEnd(r, rest, start, body)
    ensures LineEnd(rest) == |rest| ==> Read(start, body) == r
    ensures LineEnd(rest) < |rest| ==> SameEnd(Feed(r, rest[..LineEnd(rest)]), rest[LineEnd(rest) + 1..], start, body)
  {
    if LineEnd(rest) < |rest| {
      ReadMore(r, rest);
      forall end | ReadsTo(Feed(r, rest[..LineEnd(rest)]), rest[LineEnd(rest) + 1..], end)
        ensures ReadsTo(start, body, end)
      {
        assert ReadsTo(r, rest, end);
      }
    } else {
      assert ReadsTo(r, rest, r);
    }
  }

  class StreamReader {
    var cursor: string
    var dispatched: seq<Event>

    /** One line; the three values are the event being collected. */
    method ReadOneLine(event: string, data: string, id: string, raw: string)
      returns (currentEvent: string, currentData: string, currentID: string)
      modifies this
      ensures Reader(currentEvent, currentData, currentID, cursor, dispatched)
           == Feed(Reader(event, data, id, old(cursor), old(dispatched)), raw)
    {
      currentEvent, currentData, currentID := event, data, id;
      var line := TrimRight(raw, LineEnds);
      if line == "" {
        if currentEvent != "" || currentData != "" {
          if currentID != "" {
            cursor := currentID;
          }
          dispatched := dispatched + [Event(currentEvent, currentID, currentData)];
          currentEvent, currentData, currentID := "", "", "";
        }
      } else if HasPrefix(line, COMMENT) {
      } else if HasPrefix(line, EVENT) {
        currentEvent := TrimSpace(line[|EVENT|..]);
      } else if HasPrefix(line, ID) {
        currentID := TrimSpace(line[|ID|..]);
      } else if HasPrefix(line, DATA) {
        var dataVal := TrimSpace(line[|DATA|..]);
        currentData := if currentData == "" then dataVal else currentData + "\n" + dataVal;
      }
    }

    /** The reading loop over the bytes received until the stream breaks. */
    method ReadStream(body: string)
      modifies this
      ensures var r := Read(Reader("", "", "", old(cursor), old(dispatched)), body);
              cursor == r.cursor && dispatched == r.dispatched
    {
      var currentEvent, currentData, currentID := "", "", "";
      var rest := body;
      ghost var start := Reader("", "", "", cursor, dispatched);
      while true
        invariant SameEnd(Reader(currentEvent, currentData, currentID, cursor, dispatched), rest, start, body)
        decreases |rest|
      {
        var n := LineEnd(rest);
        SameEndStep(Reader(currentEvent, currentData, currentID, cursor, dispatched), rest, start, body);
        if n == |rest| {
          return;
        }
        currentEvent, currentData, currentID := ReadOneLine(currentEvent, currentData, currentID, rest[..n]);
        rest := rest[n + 1..];
      }
    }
  }

  // ---------------------------------------------------------------- the round trip

  /** A field that survives on its line: one line, no white space at its ends. */
  predicate CleanField(s: string) {
    '\n' !in s && Trimmed(s)
  }

  predicate WellFormed(e: Event) {
    CleanField(e.kind) && CleanField(e.id) && CleanField(e.data) && (e.kind != "" || e.data != "")
  }

  ghost predicate AllWellFormed(events: seq<Event>) {
    forall e :: e in events ==> WellFormed(e)
  }

  lemma FirstAndRest(events: seq<Event>)
    requires AllWellFormed(events) && events != []
    ensures WellFormed(events[0]) && AllWellFormed(events[1..])
  {
  }

  lemma {:induction false} LineEndOfLine(text: string, rest: string)
    requires '\n' !in text
    ensures LineEnd(Line(text) + rest) == |text|
    decreases |text|
  {
    var s := Line(text) + rest;
    if text != "" {
      assert s[0] == text[0] && s[1..] == Line(text[1..]) + rest;
      LineEndOfLine(text[1..], rest);
    }
  }

  lemma ReadLine(r: Reader, text: string, rest: string)
    requires '\n' !in text
    ensures Read(r, Line(text) + rest) == Read(Feed(r, text), rest)
  {
    var s := Line(text) + rest;
    LineEndOfLine(text, rest);
    assert s[..|text|] == text && s[|text| + 1..] == rest;
  }

  lemma FieldTextShape(name: string, value: string)
    requires name != ""
    ensures var line := FieldText(name, value);
            && line != "" && line[0] == name[0] && HasPrefix(line, name)
            && line[|name|..] == " " + value
            && line[|line| - 1] == if value == "" then ' ' else value[|value| - 1]
  {
  }

  lemma FieldTextUntrimmed(name: string, value: string)
    requires name != "" && Trimmed(value)
    ensures TrimRight(FieldText(name, value), LineEnds) == FieldText(name, value)
  {
    FieldTextShape(name, value);
    assert value != "" && IsLineEnd(value[|value| - 1]) ==> IsSpace(value[|value| - 1]);
  }

  /** A printed field line is split back into its name and its value. */
  lemma FieldLine(name: string, value: string)
    requires CleanField(value) && name != ""
    ensures var line := FieldText(name, value);
            && line != "" && line[0] == name[0]
            && TrimRight(line, LineEnds) == line && HasPrefix(line, name) && Field(line, name) == value
  {
    FieldTextShape(name, value);
    FieldTextUntrimmed(name, value);
    TrimSpaceAfterBlank(value);
  }

  lemma NotPrefix(line: string, name: string)
    requires line != "" && name != "" && line[0] != name[0]
    ensures !HasPrefix(line, name)
  {
  }

  lemma FirstLetters()
    ensures EVENT[0] == 'e' && ID[0] == 'i' && DATA[0] == 'd' && COMMENT[0] == ':'
  {
  }

  lemma FeedKind(r: Reader, v: string)
    requires CleanField(v)
    ensures Feed(r, FieldText(EVENT, v)) == r.(kind := v)
  {
    FirstLetters();
    FieldLine(EVENT, v);
    NotPrefix(FieldText(EVENT, v), COMMENT);
  }

  lemma FeedId(r: Reader, v: string)
    requires CleanField(v)
    ensures Feed(r, FieldText(ID, v)) == r.(id := v)
  {
    FirstLetters();
    FieldLine(ID, v);
    NotPrefix(FieldText(ID, v), COMMENT);
    NotPrefix(FieldText(ID, v), EVENT);
  }

  lemma FeedData(r: Reader, v: string)
    requires CleanField(v) && r.data == ""
    ensures Feed(r, FieldText(DATA, v)) == r.(data := v)
  {
    FirstLetters();
    FieldLine(DATA, v);
    NotPrefix(FieldText(DATA, v), COMMENT);
    NotPrefix(FieldText(DATA, v), EVENT);
    NotPrefix(FieldText(DATA, v), ID);
  }

  lemma NoNewline(name: string, v: string)
    requires '\n' !in name && '\n' !in v
    ensures '\n' !in FieldText(name, v)
  {
  }

  lemma NamesAreClean()
    ensures '\n' !in EVENT && '\n' !in ID && '\n' !in DATA
  {
  }

  /** The three parts of a printed event. */
  function KindPart(e: Event): string { if e.kind != "" then Line(FieldText(EVENT, e.kind)) else "" }
  function IdPart(e: Event): string { if e.id != "" then Line(FieldText(ID, e.id)) else "" }

  lemma ReadKind(r: Reader, e: Event, rest: string)
    requires CleanField(e.kind) && r.kind == ""
    ensures Read(r, KindPart(e) + rest) == Read(r.(kind := e.kind), rest)
  {
    if e.kind != "" {
      NamesAreClean();
      NoNewline(EVENT, e.kind);
      FeedKind(r, e.kind);
      ReadLine(r, FieldText(EVENT, e.kind), rest);
    } else {
      assert KindPart(e) + rest == rest;
    }
  }

  lemma ReadId(r: Reader, e: Event, rest: string)
    requires CleanField(e.id) && r.id == ""
    ensures Read(r, IdPart(e) + rest) == Read(r.(id := e.id), rest)
  {
    if e.id != "" {
      NamesAreClean();
      NoNewline(ID, e.id);
      FeedId(r, e.id);
      ReadLine(r, FieldText(ID, e.id), rest);
    } else {
      assert IdPart(e) + rest == rest;
    }
  }

  lemma ReadData(r: Reader, e: Event, rest: string)
    requires CleanField(e.data) && r.data == ""
    ensures Read(r, Line(FieldText(DATA, e.data)) + rest) == Read(r.(data := e.data), rest)
  {
    NamesAreClean();
    NoNewline(DATA, e.data);
    FeedData(r, e.data);
    ReadLine(r, FieldText(DATA, e.data), rest);
  }

  /** Reading one printed event hands on that event, whatever follows it. */
  lemma ReadEvent(cursor: string, done: seq<Event>, e: Event, rest: string)
    requires WellFormed(e)
    ensures Read(Reader("", "", "", cursor, done), PrintEvent(e) + rest)
         == Read(Reader("", "", "", if e.id != "" then e.id else cursor, done + [e]), rest)
  {
    var r := Reader("", "", "", cursor, done);
    var dataPart := Line(FieldText(DATA, e.data));
    assert PrintEvent(e) + rest == KindPart(e) + (IdPart(e) + (dataPart + (Line("") + rest)));
    ReadKind(r, e, IdPart(e) + (dataPart + (Line("") + rest)));
    ReadId(r.(kind := e.kind), e, dataPart + (Line("") + rest));
    ReadData(r.(kind := e.kind, id := e.id), e, Line("") + rest);
    var full := Reader(e.kind, e.data, e.id, cursor, done);
    ReadLine(full, "", rest);
    assert Feed(full, "") == Dispatch(full);
  }

  function LastId(cursor: string, events: seq<Event>): string
    decreases |events|
  {
    if events == [] then cursor else LastId(if events[0].id != "" then events[0].id else cursor, events[1..])
  }

  /** The reader between two events. */
  function Between(cursor: string, done: seq<Event>): Reader {
    Reader("", "", "", cursor, done)
  }

  /** Reading this text hands on exactly these events and saves the last of their IDs. */
  ghost predicate HandsOn(cursor: string, done: seq<Event>, text: string, events: seq<Event>) {
    forall end {:trigger ReadsTo(Between(cursor, done), text, end)} ::
      ReadsTo(Between(cursor, done), text, end) ==> end.dispatched == done + events && end.cursor == LastId(cursor, events)
  }

  /** Reading this text leaves the reader between two events, with these handed on. */
  ghost predicate Reads(cursor: string, done: seq<Event>, text: string, events: seq<Event>) {
    Read(Between(cursor, done), text) == Between(LastId(cursor, events), done + events)
  }

  lemma ReadsNothing(cursor: string, done: seq<Event>)
    ensures Reads(cursor, done, "", [])
  {
    assert done + [] == done;
  }

  function Moved(cursor: string, e: Event): string {
    if e.id != "" then e.id else cursor
  }

  lemma HandedOnMore(cursor: string, done: seq<Event>, e: Event, events: seq<Event>)
    ensures Between(LastId(Moved(cursor, e), events), done + [e] + events) == Between(LastId(cursor, [e] + events), done + ([e] + events))
  {
    assert done + [e] + events == done + ([e] + events);
    assert ([e] + events)[1..] == events;
  }

  lemma ReadsFirst(cursor: string, done: seq<Event>, e: Event, text: string, events: seq<Event>)
    requires WellFormed(e) && Reads(Moved(cursor, e), done + [e], text, events)
    ensures Reads(cursor, done, PrintEvent(e) + text, [e] + events)
  {
    ReadEvent(cursor, done, e, text);
    HandedOnMore(cursor, done, e, events);
  }

  lemma {:induction false} ReadsAll(cursor: string, done: seq<Event>, events: seq<Event>)
    requires AllWellFormed(events)
    ensures Reads(cursor, done, PrintAll(events), events)
    decreases |events|
  {
    if events == [] {
      ReadsNothing(cursor, done);
    } else {
      var e, rest := events[0], events[1..];
      FirstAndRest(events);
      ReadsAll(Moved(cursor, e), done + [e], rest);
      ReadsFirst(cursor, done, e, PrintAll(rest), rest);
      assert [e] + rest == events;
    }
  }

  /** Whatever list of well-formed events the server prints, the agent hands on exactly that list in order,
      with the same types, IDs and data, and its cursor is the last non-empty ID. */
  lemma RoundTrip(cursor: string, done: seq<Event>, events: seq<Event>)
    requires AllWellFormed(events)
    ensures Read(Reader("", "", "", cursor, done), PrintAll(events))
         == Reader("", "", "", LastId(cursor, events), done + events)
  {
    ReadsAll(cursor, done, events);
  }

  // ---------------------------------------------------------------- broken connections

  /** No complete line of the text is blank, so reading it hands on nothing. */
  predicate NoBlankLine(s: string)
    decreases |s|
  {
    var n := LineEnd(s);
    n == |s| || (TrimRight(s[..n], LineEnds) != "" && NoBlankLine(s[n + 1..]))
  }

  lemma FeedOfText(r: Reader, raw: string)
    requires TrimRight(raw, LineEnds) != ""
    ensures Feed(r, raw).dispatched == r.dispatched && Feed(r, raw).cursor == r.cursor
  {
  }

  lemma {:induction false} NothingDispatched(r: Reader, s: string)
    requires NoBlankLine(s)
    ensures Read(r, s).dispatched == r.dispatched && Read(r, s).cursor == r.cursor
    decreases |s|
  {
    var n := LineEnd(s);
    if n < |s| {
      FeedOfText(r, s[..n]);
      ReadMore(r, s);
      NothingDispatched(Feed(r, s[..n]), s[n + 1..]);
    }
  }

  lemma {:induction false} NoLineEnd(s: string)
    requires '\n' !in s
    ensures LineEnd(s) == |s|
    decreases |s|
  {
    if s != "" {
      NoLineEnd(s[1..]);
    }
  }

  /** Cutting a text that starts with a full line cuts either inside that line or after it. */
  lemma CutAfterLine(text: string, rest: string, k: nat)
    requires k <= |Line(text) + rest| && '\n' !in text && TrimRight(text, LineEnds) != ""
    requires k > |text| ==> NoBlankLine(rest[..k - |text| - 1])
    ensures NoBlankLine((Line(text) + rest)[..k])
  {
    var s := (Line(text) + rest)[..k];
    if k <= |text| {
      assert s == text[..k];
      NoLineEnd(s);
    } else {
      var more := rest[..k - |text| - 1];
      assert s == Line(text) + more;
      LineEndOfLine(text, more);
      assert s[..|text|] == text && s[|text| + 1..] == more;
    }
  }

  lemma CutField(name: string, value: string, rest: string, k: nat)
    requires name != "" && '\n' !in name && CleanField(value) && k <= |Line(FieldText(name, value)) + rest|
    requires forall j: nat :: j <= |rest| && j + |FieldText(name, value)| + 1 == k ==> NoBlankLine(rest[..j])
    ensures NoBlankLine((Line(FieldText(name, value)) + rest)[..k])
  {
    FieldLine(name, value);
    NoNewline(name, value);
    CutAfterLine(FieldText(name, value), rest, k);
  }

  function DataPart(e: Event): string { Line(FieldText(DATA, e.data)) }

  lemma TornData(e: Event, k: nat)
    requires WellFormed(e) && k <= |DataPart(e)|
    ensures NoBlankLine(DataPart(e)[..k])
  {
    NamesAreClean();
    assert DataPart(e) == DataPart(e) + "";
    CutField(DATA, e.data, "", k);
  }

  lemma TornId(e: Event, k: nat)
    requires WellFormed(e) && k <= |IdPart(e) + DataPart(e)|
    ensures NoBlankLine((IdPart(e) + DataPart(e))[..k])
  {
    NamesAreClean();
    forall j: nat | j <= |DataPart(e)| { TornData(e, j); }
    if e.id != "" {
      CutField(ID, e.id, DataPart(e), k);
    } else {
      assert IdPart(e) + DataPart(e) == DataPart(e);
    }
  }

  function Fields(e: Event): string {
    KindPart(e) + (IdPart(e) + DataPart(e))
  }

  lemma EventIsFields(e: Event)
    ensures PrintEvent(e) == Fields(e) + Line("")
  {
  }

  lemma TornFields(e: Event, k: nat)
    requires WellFormed(e) && k <= |Fields(e)|
    ensures NoBlankLine(Fields(e)[..k])
  {
    var tail := IdPart(e) + DataPart(e);
    forall j: nat | j <= |tail| { TornId(e, j); }
    if e.kind != "" {
      NamesAreClean();
      CutField(EVENT, e.kind, tail, k);
    } else {
      assert Fields(e) == tail;
    }
  }

  /** A printed event cut short has no blank line yet. */
  lemma TornEvent(e: Event, k: nat)
    requires WellFormed(e) && k < |PrintEvent(e)|
    ensures NoBlankLine(PrintEvent(e)[..k])
  {
    EventIsFields(e);
    assert |Line("")| == 1;
    CutFirst(Fields(e), Line(""), k);
    TornFields(e, k);
  }

  lemma CutFirst(a: string, b: string, k: nat)
    requires k <= |a|
    ensures (a + b)[..k] == a[..k]
  {
  }

  lemma TornFirst(cursor: string, done: seq<Event>, e: Event, k: nat)
    requires WellFormed(e) && k < |PrintEvent(e)|
    ensures HandsOn(cursor, done, PrintEvent(e)[..k], [])
  {
    TornEvent(e, k);
    NothingDispatched(Between(cursor, done), PrintEvent(e)[..k]);
    assert done + [] == done;
  }

  lemma WholeFirst(cursor: string, done: seq<Event>, e: Event, text: string, events: seq<Event>)
    requires WellFormed(e) && HandsOn(Moved(cursor, e), done + [e], text, events)
    ensures HandsOn(cursor, done, PrintEvent(e) + text, [e] + events)
  {
    ReadEvent(cursor, done, e, text);
    HandedOnMore(cursor, done, e, events);
    forall end | ReadsTo(Between(cursor, done), PrintEvent(e) + text, end)
      ensures end.dispatched == done + ([e] + events) && end.cursor == LastId(cursor, [e] + events)
    {
      assert ReadsTo(Between(Moved(cursor, e), done + [e]), text, end);
    }
  }

  lemma NothingHandedOn(cursor: string, done: seq<Event>)
    ensures HandsOn(cursor, done, "", [])
  {
    assert done + [] == done;
  }

  lemma CutAll(events: seq<Event>, k: nat)
    requires events != [] && k <= |PrintAll(events)|
    ensures k <= |PrintEvent(events[0])| ==> PrintAll(events)[..k] == PrintEvent(events[0])[..k]
    ensures k >= |PrintEvent(events[0])| ==>
              && k - |PrintEvent(events[0])| <= |PrintAll(events[1..])|
              && PrintAll(events)[..k] == PrintEvent(events[0]) + PrintAll(events[1..])[..k - |PrintEvent(events[0])|]
  {
  }

  lemma TornLater(cursor: string, done: seq<Event>, events: seq<Event>, k: nat, m: nat)
    requires events != [] && WellFormed(events[0]) && |PrintEvent(events[0])| <= k <= |PrintAll(events)| && m < |events|
    requires k - |PrintEvent(events[0])| <= |PrintAll(events[1..])|
    requires HandsOn(Moved(cursor, events[0]), done + [events[0]], PrintAll(events[1..])[..k - |PrintEvent(events[0])|], events[1..][..m])
    ensures HandsOn(cursor, done, PrintAll(events)[..k], events[..m + 1])
  {
    CutAll(events, k);
    assert events[..m + 1] == [events[0]] + events[1..][..m];
    WholeFirst(cursor, done, events[0], PrintAll(events[1..])[..k - |PrintEvent(events[0])|], events[1..][..m]);
  }

  /** Wherever the connection breaks, the agent has handed on some of the first events, whole and in order,
      and its cursor is the last non-empty ID among exactly those. */
  lemma {:induction false} TornStream(cursor: string, done: seq<Event>, events: seq<Event>, k: nat) returns (n: nat)
    requires k <= |PrintAll(events)| && AllWellFormed(events)
    ensures n <= |events| && HandsOn(cursor, done, PrintAll(events)[..k], events[..n])
    decreases |events|
  {
    n := 0;
    if events == [] {
      NothingHandedOn(cursor, done);
    } else {
      FirstAndRest(events);
      CutAll(events, k);
      var first := |PrintEvent(events[0])|;
      if k < first {
        TornFirst(cursor, done, events[0], k);
      } else {
        var m := TornStream(Moved(cursor, events[0]), done + [events[0]], events[1..], k - first);
        TornLater(cursor, done, events, k, m);
        n := m + 1;
      }
    }
  }
}
