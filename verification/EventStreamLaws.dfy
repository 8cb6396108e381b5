/** How the agent reads a stream that was not printed by this server's own code: comments, fields in any order, data on
    several lines, and both line ends (internal/daemon/client.go; section 9.2.6 of the WHATWG HTML standard). */
module EventStreamLaws {
  import opened Text
  import opened EventStream

  /** One line before the blank one that ends an event. */
  datatype Piece =
    | Kind(value: string)
    | Id(value: string)
    | Data(value: string)
    | Other(text: string)

  /** A line may have a blank after the colon, and may end with a carriage return. */
  datatype Layout = Layout(blank: bool, crlf: bool)

  /** Neither a comment's nor another field's text begins like one of the three fields. */
  predicate Readable(p: Piece) {
    if p.Other? then
      p.text != "" && '\n' !in p.text && '\r' !in p.text
      && (p.text[0] == ':' || !(HasPrefix(p.text, "event:") || HasPrefix(p.text, "id:") || HasPrefix(p.text, "data:")))
    else
      CleanField(p.value)
  }

  function Name(p: Piece): string
    requires !p.Other?
  {
    match p
    case Kind(_) => "event:"
    case Id(_) => "id:"
    case Data(_) => "data:"
  }

  function LineOf(p: Piece, l: Layout): string {
    (if p.Other? then p.text else Name(p) + (if l.blank then " " else "") + p.value) + (if l.crlf then "\r" else "")
  }

  function Print(pieces: seq<(Piece, Layout)>): string {
    if pieces == [] then "" else LineOf(pieces[0].0, pieces[0].1) + "\n" + Print(pieces[1..])
  }

  // ---------------------------------------------------------------- what the lines mean

  /** The value of the last line of this name. */
  function LastKind(pieces: seq<(Piece, Layout)>, before: string): string {
    if pieces == [] then before else LastKind(pieces[1..], if pieces[0].0.Kind? then pieces[0].0.value else before)
  }

  function LastIdOf(pieces: seq<(Piece, Layout)>, before: string): string {
    if pieces == [] then before else LastIdOf(pieces[1..], if pieces[0].0.Id? then pieces[0].0.value else before)
  }

  /** The values of all data lines, one under the other; empty ones at the start leave no trace. */
  function AllData(pieces: seq<(Piece, Layout)>, before: string): string {
    if pieces == [] then before
    else
      AllData(pieces[1..], if !pieces[0].0.Data? then before else if before == "" then pieces[0].0.value else before + "\n" + pieces[0].0.value)
  }

  // ---------------------------------------------------------------- one line

  lemma TrimTrimmed(v: string)
    requires Trimmed(v)
    ensures TrimSpace(v) == v
  {
    TrimNothing(v, Spaces);
  }

  /** The end of a line that begins like this one is not cut off with its line end. */
  lemma LineIsUncut(text: string, l: Layout)
    requires text != "" && !IsLineEnd(text[|text| - 1])
    ensures TrimRight(text + (if l.crlf then "\r" else ""), LineEnds) == text
  {
    TrimRightStep(text, '\r', LineEnds);
    TrimNothing(text, LineEnds);
    assert text + "" == text && text + ['\r'] == text + "\r";
  }

  /** A line on which this name introduces this value. */
  predicate Introduces(text: string, name: string, v: string) {
    && text != "" && name != "" && text[0] == name[0] && !IsLineEnd(text[|text| - 1])
    && HasPrefix(text, name) && Field(text, name) == v
  }

  lemma TrimmedEnd(v: string)
    requires Trimmed(v) && v != ""
    ensures !IsLineEnd(v[|v| - 1])
  {
  }

  lemma PlainShape(name: string, v: string)
    requires name != "" && !IsLineEnd(name[|name| - 1]) && (v != "" ==> !IsLineEnd(v[|v| - 1]))
    ensures var text := name + v;
            text != "" && text[0] == name[0] && !IsLineEnd(text[|text| - 1]) && HasPrefix(text, name) && text[|name|..] == v
  {
  }

  lemma WithoutBlank(name: string, v: string)
    requires name != "" && !IsLineEnd(name[|name| - 1]) && CleanField(v)
    ensures Introduces(name + v, name, v)
  {
    if v != "" {
      TrimmedEnd(v);
    }
    PlainShape(name, v);
    TrimTrimmed(v);
  }

  lemma WithBlank(name: string, v: string)
    requires name != "" && CleanField(v)
    ensures Introduces(FieldText(name, v), name, v)
  {
    FieldTextShape(name, v);
    FieldLine(name, v);
    if v != "" {
      TrimmedEnd(v);
    }
  }

  function Took(r: Reader, p: Piece): Reader {
    match p
    case Kind(v) => r.(kind := v)
    case Id(v) => r.(id := v)
    case Data(v) => r.(data := if r.data == "" then v else r.data + "\n" + v)
    case Other(_) => r
  }

  lemma FeedOther(r: Reader, p: Piece, l: Layout)
    requires p.Other? && Readable(p)
    ensures Feed(r, LineOf(p, l)) == r
  {
    LineIsUncut(p.text, l);
  }

  lemma FeedKindLine(r: Reader, raw: string, text: string, v: string)
    requires Introduces(text, EVENT, v) && TrimRight(raw, LineEnds) == text
    ensures Feed(r, raw) == r.(kind := v)
  {
    FirstLetters();
    NotPrefix(text, COMMENT);
  }

  lemma FeedIdLine(r: Reader, raw: string, text: string, v: string)
    requires Introduces(text, ID, v) && TrimRight(raw, LineEnds) == text
    ensures Feed(r, raw) == r.(id := v)
  {
    FirstLetters();
    NotPrefix(text, COMMENT);
    NotPrefix(text, EVENT);
  }

  lemma FeedDataLine(r: Reader, raw: string, text: string, v: string)
    requires Introduces(text, DATA, v) && TrimRight(raw, LineEnds) == text
    ensures Feed(r, raw) == r.(data := if r.data == "" then v else r.data + "\n" + v)
  {
    FirstLetters();
    NotPrefix(text, COMMENT);
    NotPrefix(text, EVENT);
    NotPrefix(text, ID);
  }

  lemma NamesEnd()
    ensures EVENT != "" && !IsLineEnd(EVENT[|EVENT| - 1]) && ID != "" && !IsLineEnd(ID[|ID| - 1]) && DATA != "" && !IsLineEnd(DATA[|DATA| - 1])
  {
  }

  lemma FieldIsIntroduced(name: string, v: string, l: Layout)
    requires name != "" && !IsLineEnd(name[|name| - 1]) && CleanField(v)
    ensures Introduces(name + (if l.blank then " " else "") + v, name, v)
  {
    if l.blank {
      WithBlank(name, v);
    } else {
      WithoutBlank(name, v);
      assert name + "" + v == name + v;
    }
  }

  function FieldOf(name: string, v: string, l: Layout): string {
    name + (if l.blank then " " else "") + v
  }

  lemma FieldIsCut(name: string, v: string, l: Layout)
    requires name != "" && !IsLineEnd(name[|name| - 1]) && CleanField(v)
    ensures Introduces(FieldOf(name, v, l), name, v)
    ensures TrimRight(FieldOf(name, v, l) + (if l.crlf then "\r" else ""), LineEnds) == FieldOf(name, v, l)
  {
    FieldIsIntroduced(name, v, l);
    LineIsUncut(FieldOf(name, v, l), l);
  }

  lemma FeedKindPiece(r: Reader, v: string, l: Layout)
    requires CleanField(v)
    ensures Feed(r, LineOf(Kind(v), l)) == r.(kind := v)
  {
    NamesEnd();
    FieldIsCut(EVENT, v, l);
    FeedKindLine(r, LineOf(Kind(v), l), FieldOf(EVENT, v, l), v);
  }

  lemma FeedIdPiece(r: Reader, v: string, l: Layout)
    requires CleanField(v)
    ensures Feed(r, LineOf(Id(v), l)) == r.(id := v)
  {
    NamesEnd();
    FieldIsCut(ID, v, l);
    FeedIdLine(r, LineOf(Id(v), l), FieldOf(ID, v, l), v);
  }

  lemma FeedDataPiece(r: Reader, v: string, l: Layout)
    requires CleanField(v)
    ensures Feed(r, LineOf(Data(v), l)) == r.(data := if r.data == "" then v else r.data + "\n" + v)
  {
    NamesEnd();
    FieldIsCut(DATA, v, l);
    FeedDataLine(r, LineOf(Data(v), l), FieldOf(DATA, v, l), v);
  }

  lemma FeedField(r: Reader, p: Piece, l: Layout)
    requires !p.Other? && Readable(p)
    ensures Feed(r, LineOf(p, l)) == Took(r, p)
  {
    match p
    case Kind(v) => FeedKindPiece(r, v, l);
    case Id(v) => FeedIdPiece(r, v, l);
    case Data(v) => FeedDataPiece(r, v, l);
  }

  lemma NoNewlineIn(p: Piece, l: Layout)
    requires Readable(p)
    ensures '\n' !in LineOf(p, l)
  {
    if !p.Other? {
      assert '\n' !in Name(p);
    }
  }

  // ---------------------------------------------------------------- whole events

  ghost predicate AllReadable(pieces: seq<(Piece, Layout)>) {
    forall i :: 0 <= i < |pieces| ==> Readable(pieces[i].0)
  }

  lemma {:induction false} ReadPieces(r: Reader, pieces: seq<(Piece, Layout)>, rest: string)
    requires AllReadable(pieces)
    ensures Read(r, Print(pieces) + rest)
         == Read(r.(kind := LastKind(pieces, r.kind), id := LastIdOf(pieces, r.id), data := AllData(pieces, r.data)), rest)
    decreases |pieces|
  {
    if pieces == [] {
      assert "" + rest == rest;
    } else {
      var (p, l) := pieces[0];
      assert Readable(p) && AllReadable(pieces[1..]);
      assert Print(pieces) + rest == Line(LineOf(p, l)) + (Print(pieces[1..]) + rest);
      NoNewlineIn(p, l);
      ReadLine(r, LineOf(p, l), Print(pieces[1..]) + rest);
      if p.Other? {
        FeedOther(r, p, l);
      } else {
        FeedField(r, p, l);
      }
      ReadPieces(Took(r, p), pieces[1..], rest);
    }
  }

  /** Whatever the lines before a blank one are: the event that is handed on has the last kind, the last ID and all data
      lines; comments and unknown fields are skipped. Lines with neither kind nor data hand on nothing, and leave their
      ID to the next event. The cursor moves exactly to the ID of an event that is handed on and has one. */
  lemma AnyEventIsRead(id: string, cursor: string, done: seq<Event>, pieces: seq<(Piece, Layout)>, crlf: bool, rest: string)
    requires AllReadable(pieces)
    ensures var kind, i, data := LastKind(pieces, ""), LastIdOf(pieces, id), AllData(pieces, "");
            Read(Reader("", "", id, cursor, done), Print(pieces) + ((if crlf then "\r" else "") + "\n" + rest))
            == if kind == "" && data == "" then Read(Reader("", "", i, cursor, done), rest)
               else Read(Reader("", "", "", if i == "" then cursor else i, done + [Event(kind, i, data)]), rest)
  {
    var end := if crlf then "\r" else "";
    ReadPieces(Reader("", "", id, cursor, done), pieces, end + "\n" + rest);
    var r := Reader(LastKind(pieces, ""), AllData(pieces, ""), LastIdOf(pieces, id), cursor, done);
    assert Line(end) + rest == end + "\n" + rest;
    ReadLine(r, end, rest);
    BlankLine(crlf);
  }

  lemma BlankLine(crlf: bool)
    ensures TrimRight(if crlf then "\r" else "", LineEnds) == ""
  {
    TrimRightStep("", '\r', LineEnds);
    TrimNothing("", LineEnds);
    assert "" + ['\r'] == "\r";
  }

  /** What the server prints for an event. */
  lemma PrintedExactly(e: Event)
    ensures PrintEvent(e)
         == (if e.kind == "" then "" else "event: " + e.kind + "\n")
            + (if e.id == "" then "" else "id: " + e.id + "\n")
            + "data: " + e.data + "\n\n"
  {
    assert FieldText(EVENT, e.kind) == "event: " + e.kind;
    assert FieldText(ID, e.id) == "id: " + e.id;
    assert FieldText(DATA, e.data) == "data: " + e.data;
    var head := (if e.kind == "" then "" else "event: " + e.kind + "\n") + (if e.id == "" then "" else "id: " + e.id + "\n");
    assert head + ("data: " + e.data + "\n") + ("" + "\n") == head + "data: " + e.data + "\n\n";
  }
}
