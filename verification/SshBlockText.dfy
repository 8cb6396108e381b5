/** The text of the managed block, and what becomes of the text around it (internal/githubsync/config.go). */
module SshBlockText {
  import opened Text
  import opened SshBlock

  function Lines(lines: seq<string>): string
    requires lines != []
  {
    if |lines| == 1 then lines[0] else Lines(lines[..|lines| - 1]) + "\n" + lines[|lines| - 1]
  }

  const BEGIN := "# BEGIN" + " HOMEAGENT GITHUB MANAGED"
  const END := "# END" + " HOMEAGENT GITHUB MANAGED"

  function BlockLines(path: string): (lines: seq<string>)
    ensures |lines| == 7
  {
    [BEGIN,
     "Host github.com",
     "    HostName github.com",
     "    User git",
     "    IdentityFile " + (if path == "" then "~/.ssh/homeagent_github_id_ed25519" else path),
     "    IdentitiesOnly yes",
     END]
  }

  lemma BeginText()
    ensures GITHUB.begin == BEGIN
  {
  }

  lemma EndText()
    ensures GITHUB.end == END
  {
  }

  lemma LinesMore(lines: seq<string>, line: string)
    requires lines != []
    ensures Lines(lines + [line]) == Lines(lines) + "\n" + line
  {
    assert (lines + [line])[..|lines|] == lines;
  }

  lemma {:induction false} LinesBefore(line: string, lines: seq<string>)
    requires lines != []
    ensures Lines([line] + lines) == line + "\n" + Lines(lines)
    decreases |lines|
  {
    var n := |lines| - 1;
    assert ([line] + lines)[..n + 1] == [line] + lines[..n] && ([line] + lines)[n + 1] == lines[n];
    if n > 0 {
      LinesBefore(line, lines[..n]);
      assert line + "\n" + Lines(lines[..n]) + "\n" + lines[n] == line + "\n" + (Lines(lines[..n]) + "\n" + lines[n]);
    }
  }

  lemma FiveLines(a: string, b: string, c: string, d: string, e: string)
    ensures Lines([a, b, c, d, e]) == Join(Join(Join(Join(a, b), c), d), e)
  {
    assert [a] + [b] == [a, b] && [a, b] + [c] == [a, b, c] && [a, b, c] + [d] == [a, b, c, d] && [a, b, c, d] + [e] == [a, b, c, d, e];
    LinesMore([a], b);
    LinesMore([a, b], c);
    LinesMore([a, b, c], d);
    LinesMore([a, b, c, d], e);
  }

  lemma WrappedLines(begin: string, inner: seq<string>, end: string)
    requires inner != []
    ensures Lines([begin] + inner + [end]) == Join(Join(begin, Lines(inner)), end)
  {
    LinesBefore(begin, inner);
    LinesMore([begin] + inner, end);
  }

  /** The block is seven lines, the fifth of which names the key file. */
  lemma BlockIsItsLines(path: string)
    ensures Wrap(GITHUB, Inner(Path(path))) == Lines(BlockLines(path))
  {
    BeginText();
    EndText();
    var inner := BlockLines(path)[1..6];
    FiveLines(HOST, HOST_NAME, USER, IDENTITY + Path(path), ONLY);
    assert inner == [HOST, HOST_NAME, USER, IDENTITY + Path(path), ONLY];
    WrappedLines(GITHUB.begin, inner, GITHUB.end);
    assert BlockLines(path) == [GITHUB.begin] + inner + [GITHUB.end];
  }

  // ---------------------------------------------------------------- the text around it

  predicate FirstAt(s: string, part: string, i: nat) {
    At(s, part, i) && forall k: nat :: k < i ==> !At(s, part, k)
  }

  lemma IndexIsFirst(s: string, part: string, i: nat)
    requires FirstAt(s, part, i)
    ensures Index(s, part) == i && Found(s, part)
  {
  }

  /** A block is written once, in the place of the old one: the text before and after it is kept up to the line ends next
      to it, one empty line apart. */
  lemma BlockIsReplaced(t: string, path: string, i: nat, j: nat)
    requires FirstAt(t, BEGIN, i) && FirstAt(t, END, j) && i <= j
    ensures var before, after := TrimRight(t[..i], LineEnds), TrimLeft(t[j + |END|..], LineEnds);
            Update(t, path)
            == (if before == "" then "" else before + "\n\n") + Lines(BlockLines(path)) + (if after == "" then "\n" else "\n\n" + after + "\n")
  {
    BeginText();
    EndText();
    BlockIsItsLines(path);
    PutReplaces(GITHUB, t, Inner(Path(path)), i, j);
    LeadText(TrimRight(t[..i], LineEnds));
    TailText(TrimLeft(t[j + |END|..], LineEnds));
  }

  lemma PutReplaces(k: Markers, t: string, inner: string, i: nat, j: nat)
    requires FirstAt(t, k.begin, i) && FirstAt(t, k.end, j) && i <= j
    ensures Put(k, t, inner) == Lead(TrimRight(t[..i], LineEnds)) + Wrap(k, inner) + Tail(TrimLeft(t[j + |k.end|..], LineEnds))
  {
    IndexIsFirst(t, k.begin, i);
    IndexIsFirst(t, k.end, j);
    PartsAt(k, t, i, j);
    PutAround(k, t, inner, TrimRight(t[..i], LineEnds), TrimLeft(t[j + |k.end|..], LineEnds));
  }

  lemma PartsAt(k: Markers, t: string, i: nat, j: nat)
    requires HasBlock(k, t) && Index(t, k.begin) == i <= |t| && Index(t, k.end) == j && j + |k.end| <= |t|
    ensures Before(k, t) == TrimRight(t[..i], LineEnds) && After(k, t) == TrimLeft(t[j + |k.end|..], LineEnds)
  {
  }

  lemma PutAround(k: Markers, t: string, inner: string, before: string, after: string)
    requires HasBlock(k, t) && Before(k, t) == before && After(k, t) == after
    ensures Put(k, t, inner) == Lead(before) + Wrap(k, inner) + Tail(after)
  {
  }

  /** Without a block the text is kept up to white space at its ends, and the block follows it. */
  lemma BlockIsAppended(t: string, path: string)
    requires Free(t, BEGIN) || Free(t, END)
    ensures var before := TrimSpace(t);
            Update(t, path) == (if before == "" then "" else before + "\n\n") + Lines(BlockLines(path)) + "\n"
  {
    BeginText();
    EndText();
    BlockIsItsLines(path);
    GithubIsWellMarked();
    FoundIffNotFree(t, GITHUB.begin);
    FoundIffNotFree(t, GITHUB.end);
    LeadText(TrimSpace(t));
    TailText("");
  }

  lemma RemoveAround(k: Markers, t: string, before: string, after: string)
    requires HasBlock(k, t) && Before(k, t) == before && After(k, t) == after
    ensures Remove(k, t) == if before == "" && after == "" then ""
                            else if before == "" || after == "" then before + after + "\n" else before + "\n\n" + after + "\n"
  {
    LeadText(before);
    var rest := if before != "" && after != "" then Lead(before) + after else before + after;
    assert rest + "\n" + "" == rest + "\n";
  }

  /** Removing the block keeps the text before and after it up to the line ends next to it, one empty line apart. */
  lemma BlockIsRemoved(t: string, i: nat, j: nat)
    requires FirstAt(t, BEGIN, i) && FirstAt(t, END, j) && i <= j
    ensures var before, after := TrimRight(t[..i], LineEnds), TrimLeft(t[j + |END|..], LineEnds);
            Remove(GITHUB, t) == if before == "" && after == "" then ""
                                 else if before == "" || after == "" then before + after + "\n" else before + "\n\n" + after + "\n"
  {
    BeginText();
    EndText();
    IndexIsFirst(t, GITHUB.begin, i);
    IndexIsFirst(t, GITHUB.end, j);
    PartsAt(GITHUB, t, i, j);
    RemoveAround(GITHUB, t, TrimRight(t[..i], LineEnds), TrimLeft(t[j + |END|..], LineEnds));
  }

  /** Without a block there is nothing to remove. */
  lemma NothingIsRemoved(t: string)
    requires Free(t, BEGIN) || Free(t, END)
    ensures Remove(GITHUB, t) == t
  {
    BeginText();
    EndText();
    GithubIsWellMarked();
    FoundIffNotFree(t, GITHUB.begin);
    FoundIffNotFree(t, GITHUB.end);
  }

  lemma LeadText(before: string)
    ensures Lead(before) == if before == "" then "" else before + "\n\n"
  {
    if before != "" {
      assert before + "\n" + "" + "\n" + "" == before + "\n\n";
    }
  }

  lemma TailText(after: string)
    ensures Tail(after) == if after == "" then "\n" else "\n\n" + after + "\n"
  {
    if after != "" {
      assert "" + "\n" + ("" + "\n" + (after + "\n" + "")) == "\n\n" + after + "\n";
    }
  }
}
