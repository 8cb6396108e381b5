/** The managed block in ~/.ssh/config: inserting, replacing and removing it
    (internal/githubsync/config.go). */
module SshBlock {
  import opened Text

  /** The two marker lines of a managed block. */
  datatype Markers = Markers(begin: string, end: string)

  const OWNER := " HOMEAGENT GITHUB MANAGED"
  const GITHUB := Markers("# BEGIN" + OWNER, "# END" + OWNER)
  const HOST := "Host github.com"
  const HOST_NAME := "    HostName github.com"
  const USER := "    User git"
  const IDENTITY := "    IdentityFile "
  const ONLY := "    IdentitiesOnly yes"
  const DEFAULT_IDENTITY := "~/.ssh/homeagent_github_id_ed25519"

  function Join(a: string, b: string): string {
    a + "\n" + b
  }

  function Wrap(k: Markers, inner: string): string {
    Join(Join(k.begin, inner), k.end)
  }

  function Path(path: string): string {
    if path == "" then DEFAULT_IDENTITY else path
  }

  /** The lines of the block between its two markers. */
  function Inner(path: string): string {
    Join(Join(Join(Join(HOST, HOST_NAME), USER), IDENTITY + path), ONLY)
  }

  function Index(s: string, marker: string): nat {
    IndexFrom(s, marker, 0)
  }

  predicate Found(s: string, marker: string) {
    Index(s, marker) <= |s|
  }

  /** Both markers are there and the first end is not before the first begin. */
  predicate HasBlock(k: Markers, s: string) {
    Found(s, k.begin) && Found(s, k.end) && Index(s, k.begin) <= Index(s, k.end)
  }

  function Before(k: Markers, s: string): string
    requires HasBlock(k, s)
  {
    TrimRight(s[..Index(s, k.begin)], LineEnds)
  }

  function After(k: Markers, s: string): string
    requires HasBlock(k, s)
  {
    TrimLeft(s[Index(s, k.end) + |k.end|..], LineEnds)
  }

  function Lead(before: string): string {
    if before != "" then Join(Join(before, ""), "") else ""
  }

  function Tail(after: string): string {
    if after != "" then Join("", Join("", Join(after, ""))) else Join("", "")
  }

  function Surround(before: string, block: string, after: string): string {
    Lead(before) + block + Tail(after)
  }

  function Put(k: Markers, existing: string, inner: string): string {
    if HasBlock(k, existing) then Surround(Before(k, existing), Wrap(k, inner), After(k, existing))
    else Surround(TrimSpace(existing), Wrap(k, inner), "")
  }

  function Update(existing: string, path: string): string {
    Put(GITHUB, existing, Inner(Path(path)))
  }

  function Remove(k: Markers, existing: string): string {
    if !HasBlock(k, existing) then existing
    else
      var before, after := Before(k, existing), After(k, existing);
      var rest := if before != "" && after != "" then Lead(before) + after else before + after;
      if rest != "" then Join(rest, "") else ""
  }

  // ---------------------------------------------------------------- where markers can be

  /** All that matters about a marker: it starts with '#', ends with a letter and stays on its line. */
  predicate MarkerLike(m: string) {
    |m| >= 2 && m[0] == '#' && m[|m| - 1] == 'D' && '\n' !in m
  }

  predicate Free(s: string, m: string) {
    forall i: nat :: i <= |s| ==> !At(s, m, i)
  }

  predicate WellMarked(k: Markers) {
    MarkerLike(k.begin) && MarkerLike(k.end) && Free(k.begin, k.end)
  }

  predicate MarkerFree(k: Markers, s: string) {
    Free(s, k.begin) && Free(s, k.end)
  }

  lemma FoundIffNotFree(s: string, m: string)
    requires MarkerLike(m)
    ensures Found(s, m) <==> !Free(s, m)
  {
  }

  lemma IndexAtMost(s: string, m: string, i: nat)
    requires At(s, m, i)
    ensures Index(s, m) <= i && Found(s, m)
  {
  }

  lemma SliceOfSlice(s: string, k: nat, n: nat, i: nat, j: nat)
    requires k + n <= |s| && i <= j <= n
    ensures s[k..k + n][i..j] == s[k + i..k + j]
  {
    var a, b := s[k..k + n][i..j], s[k + i..k + j];
    assert |a| == |b| && forall x :: 0 <= x < |a| ==> a[x] == b[x];
  }

  lemma AtInSlice(s: string, k: nat, n: nat, m: string, i: nat)
    requires k + n <= |s| && i + |m| <= n
    ensures At(s, m, k + i) <==> At(s[k..k + n], m, i)
  {
    SliceOfSlice(s, k, n, i, i + |m|);
  }

  lemma NoHashIsFree(s: string, m: string)
    requires MarkerLike(m) && '#' !in s
    ensures Free(s, m)
  {
    forall i: nat | i + |m| <= |s|
      ensures !At(s, m, i)
    {
      assert s[i..i + |m|][0] == s[i];
    }
  }

  /** A marker cannot straddle a line break. */
  lemma FreeAcrossLines(a: string, b: string, m: string)
    requires MarkerLike(m) && Free(a, m) && Free(b, m)
    ensures Free(Join(a, b), m)
  {
    var s := Join(a, b);
    forall i: nat | i + |m| <= |s|
      ensures !At(s, m, i)
    {
      if i + |m| <= |a| {
        assert s[i..i + |m|] == a[i..i + |m|];
        assert !At(a, m, i);
      } else if i > |a| {
        var j := i - |a| - 1;
        assert s[i..i + |m|] == b[j..j + |m|];
        assert !At(b, m, j);
      } else {
        assert s[i..i + |m|][|a| - i] == '\n';
      }
    }
  }

  /** Nor can it start in a text without '#'. */
  lemma FreeAfterPlain(a: string, b: string, m: string)
    requires MarkerLike(m) && '#' !in a && Free(b, m)
    ensures Free(a + b, m)
  {
    var s := a + b;
    forall i: nat | i + |m| <= |s|
      ensures !At(s, m, i)
    {
      if i < |a| {
        assert s[i..i + |m|][0] == a[i];
      } else {
        assert s[i..i + |m|] == b[i - |a|..i - |a| + |m|];
        assert !At(b, m, i - |a|);
      }
    }
  }

  /** The first marker of a text whose lines before it are free of it. */
  lemma IndexAfterFreeLines(a: string, m: string, rest: string)
    requires MarkerLike(m) && Free(a, m)
    ensures Index(Join(a, m + rest), m) == |a| + 1
  {
    var s := Join(a, m + rest);
    assert s[|a| + 1..|a| + 1 + |m|] == m;
    assert At(s, m, |a| + 1);
    forall i: nat | i <= |a|
      ensures !At(s, m, i)
    {
      if i + |m| <= |s| {
        if i + |m| <= |a| {
          assert s[i..i + |m|] == a[i..i + |m|];
          assert !At(a, m, i);
        } else {
          assert s[i..i + |m|][|a| - i] == '\n';
        }
      }
    }
  }

  lemma IndexAtStart(m: string, rest: string)
    ensures Index(m + rest, m) == 0
  {
    assert (m + rest)[0..|m|] == m;
    assert At(m + rest, m, 0);
  }

  lemma IndexInPrefix(t: string, rest: string, m: string)
    requires MarkerLike(m) && Found(t, m)
    ensures Index(t + rest, m) == Index(t, m)
  {
    var s, k := t + rest, Index(t, m);
    assert s[k..k + |m|] == t[k..k + |m|];
    assert At(s, m, k);
    forall j: nat | j < k
      ensures !At(s, m, j)
    {
      assert s[j..j + |m|] == t[j..j + |m|];
      assert !At(t, m, j);
    }
  }

  // ---------------------------------------------------------------- reading back what was written

  predicate EndsOffLineEnd(s: string) {
    s != "" ==> !IsLineEnd(s[|s| - 1])
  }

  predicate StartsOffLineEnd(s: string) {
    s != "" ==> !IsLineEnd(s[0])
  }

  lemma LeadIsFree(before: string, m: string)
    requires MarkerLike(m) && Free(before, m) && before != ""
    ensures Free(Join(before, ""), m)
  {
    NoHashIsFree("", m);
    FreeAcrossLines(before, "", m);
  }

  lemma LeadJoins(before: string, text: string)
    requires before != ""
    ensures Lead(before) + text == Join(Join(before, ""), text)
  {
  }

  lemma SurroundFromBegin(k: Markers, before: string, inner: string, after: string)
    ensures Surround(before, Wrap(k, inner), after)
         == Lead(before) + (k.begin + ("\n" + inner + "\n" + k.end + Tail(after)))
  {
    Associate(Lead(before), Wrap(k, inner), Tail(after));
    WrapFromBegin(k, inner, Tail(after));
  }

  lemma Associate(a: string, b: string, c: string)
    ensures a + b + c == a + (b + c)
  {
  }

  lemma WrapFromBegin(k: Markers, inner: string, rest: string)
    ensures Wrap(k, inner) + rest == k.begin + ("\n" + inner + "\n" + k.end + rest)
  {
  }

  lemma WrapFromEnd(k: Markers, inner: string, rest: string)
    ensures Wrap(k, inner) + rest == Join(Join(k.begin, inner), k.end + rest)
  {
  }

  lemma SurroundFromEnd(k: Markers, before: string, inner: string, after: string)
    ensures Surround(before, Wrap(k, inner), after)
         == Lead(before) + Join(Join(k.begin, inner), k.end + Tail(after))
  {
    Associate(Lead(before), Wrap(k, inner), Tail(after));
    WrapFromEnd(k, inner, Tail(after));
  }

  lemma BeginOfSurround(k: Markers, before: string, inner: string, after: string)
    requires WellMarked(k) && Free(before, k.begin)
    ensures Index(Surround(before, Wrap(k, inner), after), k.begin) == |Lead(before)|
  {
    SurroundFromBegin(k, before, inner, after);
    var rest := "\n" + inner + "\n" + k.end + Tail(after);
    if before == "" {
      IndexAtStart(k.begin, rest);
      assert "" + (k.begin + rest) == k.begin + rest;
    } else {
      LeadIsFree(before, k.begin);
      LeadJoins(before, k.begin + rest);
      IndexAfterFreeLines(Join(before, ""), k.begin, rest);
    }
  }

  lemma JoinAssociates(a: string, b: string, c: string)
    ensures Join(a, Join(b, c)) == Join(Join(a, b), c)
  {
  }

  lemma EndOfSurround(k: Markers, before: string, inner: string, after: string)
    requires WellMarked(k) && Free(before, k.end) && Free(inner, k.end)
    ensures Index(Surround(before, Wrap(k, inner), after), k.end) + |k.end| == |Lead(before)| + |Wrap(k, inner)|
    ensures Found(Surround(before, Wrap(k, inner), after), k.end)
  {
    SurroundFromEnd(k, before, inner, after);
    var body, rest := Join(k.begin, inner), k.end + Tail(after);
    FreeAcrossLines(k.begin, inner, k.end);
    if before == "" {
      IndexAfterFreeLines(body, k.end, Tail(after));
      assert "" + Join(body, rest) == Join(body, rest);
    } else {
      LeadIsFree(before, k.end);
      FreeAcrossLines(Join(before, ""), body, k.end);
      LeadJoins(before, Join(body, rest));
      JoinAssociates(Join(before, ""), body, rest);
      IndexAfterFreeLines(Join(Join(before, ""), body), k.end, Tail(after));
    }
  }

  lemma TrimLeadBack(before: string)
    requires EndsOffLineEnd(before)
    ensures TrimRight(Lead(before), LineEnds) == before
  {
    TrimNothing(before, LineEnds);
    if before != "" {
      TrimRightStep(before, '\n', LineEnds);
      TrimRightStep(before + ['\n'], '\n', LineEnds);
      assert Lead(before) == before + ['\n'] + ['\n'];
    }
  }

  lemma TrimTailBack(after: string)
    requires StartsOffLineEnd(after)
    ensures TrimLeft(Tail(after), LineEnds) == if after != "" then Join(after, "") else ""
  {
    if after != "" {
      var rest := Join(after, "");
      assert rest[0] == after[0];
      TrimNothing(rest, LineEnds);
      TrimLeftStep('\n', rest, LineEnds);
      TrimLeftStep('\n', ['\n'] + rest, LineEnds);
      TailShape(after);
    } else {
      TrimNothing("", LineEnds);
      TrimLeftStep('\n', "", LineEnds);
      TailShape(after);
    }
  }

  lemma TailShape(after: string)
    ensures Tail(after) == if after != "" then ['\n'] + (['\n'] + Join(after, "")) else ['\n'] + ""
  {
  }

  lemma Thirds(a: string, b: string, c: string)
    ensures (a + b + c)[..|a|] == a && (a + b + c)[|a| + |b|..] == c
  {
  }

  /** The text written around a block is read back as the same parts; text after the block has gained a line end. */
  lemma WrittenIsReadBack(k: Markers, before: string, inner: string, after: string)
    requires WellMarked(k) && MarkerFree(k, before) && Free(inner, k.end)
    requires EndsOffLineEnd(before) && StartsOffLineEnd(after)
    ensures var s := Surround(before, Wrap(k, inner), after);
            && HasBlock(k, s) && Before(k, s) == before
            && After(k, s) == if after != "" then Join(after, "") else ""
  {
    BeginOfSurround(k, before, inner, after);
    EndOfSurround(k, before, inner, after);
    Thirds(Lead(before), Wrap(k, inner), Tail(after));
    TrimLeadBack(before);
    TrimTailBack(after);
  }

  // ---------------------------------------------------------------- trimming keeps the markers

  predicate Blank(s: string) {
    forall c :: c in s ==> IsSpace(c)
  }

  lemma {:induction false} TrimLeftDropsBlanks(s: string)
    ensures Blank(s[..|s| - |TrimLeft(s, Spaces)|])
    decreases |s|
  {
    if s != "" && IsSpace(s[0]) {
      TrimLeftDropsBlanks(s[1..]);
      var k := |s| - |TrimLeft(s, Spaces)|;
      assert s[..k] == [s[0]] + s[1..][..k - 1];
    }
  }

  lemma {:induction false} TrimRightDropsBlanks(s: string)
    ensures Blank(s[|TrimRight(s, Spaces)|..])
    decreases |s|
  {
    if s != "" && IsSpace(s[|s| - 1]) {
      var cut := s[..|s| - 1];
      TrimRightDropsBlanks(cut);
      var k := |TrimRight(s, Spaces)|;
      assert s[k..] == cut[k..] + [s[|s| - 1]];
    }
  }

  /** How much TrimSpace drops in front. */
  function Margin(s: string): nat {
    |s| - |TrimLeft(s, Spaces)|
  }

  lemma TrimSpaceParts(s: string)
    ensures Trimmed(TrimSpace(s))
    ensures Margin(s) + |TrimSpace(s)| <= |s| && TrimSpace(s) == s[Margin(s)..Margin(s) + |TrimSpace(s)|]
    ensures Blank(s[..Margin(s)]) && Blank(s[Margin(s) + |TrimSpace(s)|..])
  {
    var l := TrimLeft(s, Spaces);
    TrimLeftDropsBlanks(s);
    TrimRightDropsBlanks(l);
    assert s[Margin(s) + |TrimSpace(s)|..] == l[|TrimSpace(s)|..];
  }

  lemma BlankAt(s: string)
    requires Blank(s)
    ensures forall j :: 0 <= j < |s| ==> IsSpace(s[j])
  {
  }

  /** Nothing that starts with '#' and ends with 'D' reaches into the blanks around a text. */
  lemma MarkerInsideBlanks(s: string, k: nat, n: nat, m: string, i: nat)
    requires k + n <= |s| && Blank(s[..k]) && Blank(s[k + n..])
    requires MarkerLike(m) && At(s, m, i)
    ensures k <= i && i + |m| <= k + n
  {
    var last := i + |m| - 1;
    assert s[i..i + |m|][0] == s[i] && s[i..i + |m|][|m| - 1] == s[last];
    assert !IsSpace(s[i]) && !IsSpace(s[last]);
    assert forall j :: 0 <= j < k ==> s[j] in s[..k];
    BlankAt(s[k + n..]);
    assert forall j :: k + n <= j < |s| ==> s[j] == s[k + n..][j - k - n];
  }

  /** A marker has no white space at its ends, so trimming neither removes nor moves one. */
  lemma MarkerIsKept(s: string, m: string, i: nat)
    requires MarkerLike(m) && At(s, m, i)
    ensures i >= Margin(s) && At(TrimSpace(s), m, i - Margin(s))
  {
    TrimSpaceParts(s);
    MarkerInsideBlanks(s, Margin(s), |TrimSpace(s)|, m, i);
    AtInSlice(s, Margin(s), |TrimSpace(s)|, m, i - Margin(s));
  }

  lemma MarkerWasThere(s: string, m: string, i: nat)
    requires At(TrimSpace(s), m, i)
    ensures At(s, m, Margin(s) + i)
  {
    TrimSpaceParts(s);
    AtInSlice(s, Margin(s), |TrimSpace(s)|, m, i);
  }

  lemma FoundIsThere(s: string, m: string)
    requires Found(s, m)
    ensures At(s, m, Index(s, m))
  {
  }

  lemma TrimmedIndex(s: string, m: string)
    requires MarkerLike(m) && Found(s, m)
    ensures Found(TrimSpace(s), m) && Margin(s) + Index(TrimSpace(s), m) <= Index(s, m)
  {
    var t, i := TrimSpace(s), Index(s, m);
    FoundIsThere(s, m);
    MarkerIsKept(s, m, i);
    IndexAtMost(t, m, i - Margin(s));
  }

  lemma UntrimmedIndex(s: string, m: string)
    requires Found(TrimSpace(s), m)
    ensures Found(s, m) && Index(s, m) <= Margin(s) + Index(TrimSpace(s), m)
  {
    var i := Index(TrimSpace(s), m);
    FoundIsThere(TrimSpace(s), m);
    MarkerWasThere(s, m, i);
    IndexAtMost(s, m, Margin(s) + i);
  }

  lemma IndexAfterTrimming(s: string, m: string)
    requires MarkerLike(m)
    ensures Found(s, m) <==> Found(TrimSpace(s), m)
    ensures Found(s, m) ==> Index(s, m) == Margin(s) + Index(TrimSpace(s), m)
  {
    if Found(s, m) {
      TrimmedIndex(s, m);
    }
    if Found(TrimSpace(s), m) {
      UntrimmedIndex(s, m);
    }
  }

  lemma TrimmingKeepsBlock(k: Markers, s: string)
    requires WellMarked(k)
    ensures MarkerFree(k, s) <==> MarkerFree(k, TrimSpace(s))
    ensures HasBlock(k, s) <==> HasBlock(k, TrimSpace(s))
    ensures EndsOffLineEnd(TrimSpace(s))
  {
    TrimSpaceParts(s);
    FoundIffNotFree(s, k.begin);
    FoundIffNotFree(s, k.end);
    FoundIffNotFree(TrimSpace(s), k.begin);
    FoundIffNotFree(TrimSpace(s), k.end);
    IndexAfterTrimming(s, k.begin);
    IndexAfterTrimming(s, k.end);
  }

  // ---------------------------------------------------------------- one block in any text

  lemma PutIntoPlain(k: Markers, x: string, inner: string)
    requires WellMarked(k) && MarkerFree(k, x) && Free(inner, k.end)
    ensures var s := Put(k, x, inner);
            && s == Surround(TrimSpace(x), Wrap(k, inner), "")
            && HasBlock(k, s) && Before(k, s) == TrimSpace(x) && After(k, s) == ""
  {
    FoundIffNotFree(x, k.begin);
    TrimmingKeepsBlock(k, x);
    WrittenIsReadBack(k, TrimSpace(x), inner, "");
  }

  lemma FreeUpToIndex(y: string, n: nat, m: string)
    requires MarkerLike(m) && n <= Index(y, m) && n <= |y|
    ensures Free(y[..n], m)
  {
    forall i: nat | i + |m| <= n
      ensures !At(y[..n], m, i)
    {
      assert y[..n][i..i + |m|] == y[i..i + |m|];
      assert !At(y, m, i);
    }
  }

  /** What comes before the block has no marker. */
  lemma BeforeIsFree(k: Markers, y: string)
    requires WellMarked(k) && HasBlock(k, y)
    ensures MarkerFree(k, Before(k, y))
  {
    var n := |Before(k, y)|;
    assert Before(k, y) == y[..Index(y, k.begin)][..n] == y[..n];
    FreeUpToIndex(y, n, k.begin);
    FreeUpToIndex(y, n, k.end);
  }

  lemma TrimRightOfLineEnd(s: string)
    requires s != "" && !IsSpace(s[|s| - 1])
    ensures TrimRight(s + ['\n'], Spaces) == s
  {
    TrimRightStep(s, '\n', Spaces);
    TrimNothing(s, Spaces);
  }

  lemma TrimLeftOfText(z: string)
    requires z != "" && !IsSpace(z[0])
    ensures TrimSpace(z) == TrimRight(z, Spaces)
  {
    TrimNothing(z, Spaces);
  }

  lemma TrimmedOfOneLineEnd(s: string)
    requires Trimmed(s) && s != ""
    ensures TrimSpace(Join(s, "")) == s
  {
    var z := s + ['\n'];
    assert Join(s, "") == z && z[0] == s[0];
    TrimRightOfLineEnd(s);
    TrimLeftOfText(z);
  }

  lemma LastOfWrap(k: Markers, inner: string)
    requires WellMarked(k)
    ensures |Wrap(k, inner)| >= |k.begin| + |k.end| && Wrap(k, inner)[|Wrap(k, inner)| - 1] == 'D'
  {
  }

  lemma TrimBackToBlock(k: Markers, t: string, inner: string)
    requires WellMarked(k) && t != "" && Trimmed(t)
    ensures var z := Surround(t, Wrap(k, inner), ""); |TrimSpace(z)| == |z| - 1
  {
    var w := Wrap(k, inner);
    LastOfWrap(k, inner);
    assert Lead(t)[0] == t[0] && !IsSpace('D');
    EndsOfSum(Lead(t), w);
    TrimmedOfOneLineEnd(Lead(t) + w);
    assert Surround(t, w, "") == Lead(t) + w + Join("", "");
    JoinEmpty(Lead(t) + w);
  }

  lemma EndsOfSum(a: string, b: string)
    requires a != "" && b != ""
    ensures (a + b)[0] == a[0] && (a + b)[|a + b| - 1] == b[|b| - 1]
  {
  }

  lemma JoinEmpty(a: string)
    ensures a + Join("", "") == Join(a, "")
  {
  }

  lemma SurroundExtends(t: string, w: string)
    requires t != ""
    ensures Surround(t, w, "") == t + ("\n\n" + w + "\n")
  {
  }

  /** An end marker that is not preceded by a begin marker makes every update append another block. */
  lemma StrayEndAppendsAgain(k: Markers, t: string, inner: string)
    requires WellMarked(k) && t != "" && Trimmed(t) && Found(t, k.end) && !HasBlock(k, t)
    ensures var z := Surround(t, Wrap(k, inner), ""); |Put(k, z, inner)| > |z|
  {
    var w := Wrap(k, inner);
    var z := Surround(t, w, "");
    var rest := "\n\n" + w + "\n";
    SurroundExtends(t, w);
    IndexInPrefix(t, rest, k.end);
    if Found(t, k.begin) {
      IndexInPrefix(t, rest, k.begin);
    } else {
      FoundIffNotFree(t, k.begin);
      BeginOfSurround(k, t, inner, "");
    }
    assert !HasBlock(k, z);
    TrimBackToBlock(k, t, inner);
    SurroundLength(TrimSpace(z), w);
    SurroundLength(t, w);
  }

  lemma SurroundLength(t: string, w: string)
    ensures |Surround(t, w, "")| == |w| + 1 + if t == "" then 0 else |t| + 2
  {
  }

  /** A begin marker without an end swallows the text after it at the second update. */
  lemma StrayBeginSwallows(k: Markers, t: string, inner: string)
    requires WellMarked(k) && Found(t, k.begin) && !Found(t, k.end) && Free(inner, k.end)
    ensures var z := Surround(t, Wrap(k, inner), "");
            |Put(k, z, inner)| < |z|
  {
    var w := Wrap(k, inner);
    var z := Surround(t, w, "");
    var rest := "\n\n" + w + "\n";
    assert At(t, k.begin, Index(t, k.begin));
    SurroundExtends(t, w);
    IndexInPrefix(t, rest, k.begin);
    FoundIffNotFree(t, k.end);
    EndOfSurround(k, t, inner, "");
    Thirds(Lead(t), w, Tail(""));
    TrimTailBack("");
    assert HasBlock(k, z) && After(k, z) == "" && |Before(k, z)| < |t|;
    SurroundLength(Before(k, z), w);
    SurroundLength(t, w);
  }

  lemma RemoveFirstPart(k: Markers, s: string, t: string)
    requires HasBlock(k, s) && Before(k, s) == t && After(k, s) == ""
    ensures Remove(k, s) == if t == "" then "" else t + "\n"
  {
    assert t + "" == t;
    assert t + "\n" + "" == t + "\n";
  }

  /** Text after the block gains a line end at every update. */
  lemma TextAfterGrows(k: Markers, y: string, inner: string)
    requires WellMarked(k) && Free(inner, k.end) && HasBlock(k, y)
    ensures var z := Put(k, y, inner);
            if After(k, y) == "" then Put(k, z, inner) == z else |Put(k, z, inner)| == |z| + 1
  {
    BeforeIsFree(k, y);
    WrittenIsReadBack(k, Before(k, y), inner, After(k, y));
  }

  lemma PutWithoutBlock(k: Markers, y: string, inner: string)
    requires WellMarked(k) && !HasBlock(k, y) && !MarkerFree(k, y) && Free(inner, k.end)
    ensures |Put(k, Put(k, y, inner), inner)| != |Put(k, y, inner)|
  {
    FoundIffNotFree(y, k.begin);
    FoundIffNotFree(y, k.end);
    TrimSpaceParts(y);
    TrimmingKeepsBlock(k, y);
    IndexAfterTrimming(y, k.begin);
    IndexAfterTrimming(y, k.end);
    if Found(y, k.end) {
      StrayEndAppendsAgain(k, TrimSpace(y), inner);
    } else {
      StrayBeginSwallows(k, TrimSpace(y), inner);
    }
  }

  /** Putting the same block twice changes nothing exactly when the text has no marker at all, or has the
      block and nothing but line ends after it. */
  lemma PutIsIdempotentExactly(k: Markers, y: string, inner: string)
    requires WellMarked(k) && MarkerFree(k, inner)
    ensures Put(k, Put(k, y, inner), inner) == Put(k, y, inner)
       <==> MarkerFree(k, y) || (HasBlock(k, y) && After(k, y) == "")
  {
    if HasBlock(k, y) {
      FoundIffNotFree(y, k.begin);
      TextAfterGrows(k, y, inner);
    } else if MarkerFree(k, y) {
      PutIntoPlain(k, y, inner);
    } else {
      PutWithoutBlock(k, y, inner);
    }
  }

  // ---------------------------------------------------------------- the GitHub block

  lemma PlainHost()
    ensures '#' !in HOST && '#' !in USER
  {
  }

  lemma PlainHostName()
    ensures '#' !in HOST_NAME
  {
  }

  lemma PlainIdentity()
    ensures '#' !in IDENTITY
  {
  }

  lemma PlainOnly()
    ensures '#' !in ONLY
  {
  }

  lemma PlainDefault()
    ensures '#' !in DEFAULT_IDENTITY
  {
  }

  lemma OwnerShape()
    ensures |OWNER| == 25 && OWNER[24] == 'D' && '\n' !in OWNER
  {
  }

  lemma MarkerFromParts(head: string, owner: string)
    requires |head| >= 3 && head[0] == '#' && '\n' !in head
    requires owner != "" && owner[|owner| - 1] == 'D' && '\n' !in owner
    ensures MarkerLike(head + owner) && (head + owner)[1] == head[1] && (head + owner)[2] == head[2]
  {
  }

  lemma GithubIsWellMarked()
    ensures WellMarked(GITHUB)
  {
    OwnerShape();
    MarkerFromParts("# BEGIN", OWNER);
    MarkerFromParts("# END", OWNER);
    NoMarkerInMarker("# BEGIN" + OWNER, "# END" + OWNER);
  }

  lemma NoMarkerInMarker(b: string, e: string)
    requires MarkerLike(b) && MarkerLike(e) && 2 < |e| && |b| == |e| + 2
    requires b[1] == ' ' && b[2] == 'B' && e[2] == 'E'
    ensures Free(b, e)
  {
    forall i: nat | i + |e| <= |b|
      ensures !At(b, e, i)
    {
      assert b[i..i + |e|][0] == b[i] && b[i..i + |e|][2] == b[i + 2];
    }
  }

  /** The block between its markers has no marker of its own. */
  lemma InnerIsFree(path: string, m: string)
    requires MarkerLike(m) && Free(path, m)
    ensures Free(Inner(Path(path)), m)
  {
    PlainHost();
    PlainHostName();
    PlainIdentity();
    PlainOnly();
    PlainDefault();
    NoHashIsFree(DEFAULT_IDENTITY, m);
    NoHashIsFree(HOST, m);
    NoHashIsFree(HOST_NAME, m);
    NoHashIsFree(USER, m);
    NoHashIsFree(ONLY, m);
    FreeAfterPlain(IDENTITY, Path(path), m);
    FreeAcrossLines(HOST, HOST_NAME, m);
    FreeAcrossLines(Join(HOST, HOST_NAME), USER, m);
    FreeAcrossLines(Join(Join(HOST, HOST_NAME), USER), IDENTITY + Path(path), m);
    FreeAcrossLines(Join(Join(Join(HOST, HOST_NAME), USER), IDENTITY + Path(path)), ONLY, m);
  }

  /** Removing the block gives back the user's text, trimmed and ended by one line end. */
  lemma RemoveUndoesUpdate(x: string, p: string)
    requires MarkerFree(GITHUB, x) && MarkerFree(GITHUB, p)
    ensures Remove(GITHUB, Update(x, p)) == if TrimSpace(x) == "" then "" else TrimSpace(x) + "\n"
  {
    GithubIsWellMarked();
    InnerIsFree(p, GITHUB.end);
    PutIntoPlain(GITHUB, x, Inner(Path(p)));
    RemoveFirstPart(GITHUB, Update(x, p), TrimSpace(x));
  }

  /** Only the last path written counts. */
  lemma LastUpdateWins(x: string, p: string, q: string)
    requires MarkerFree(GITHUB, x) && MarkerFree(GITHUB, p) && MarkerFree(GITHUB, q)
    ensures Update(Update(x, p), q) == Update(x, q)
  {
    GithubIsWellMarked();
    InnerIsFree(p, GITHUB.end);
    InnerIsFree(q, GITHUB.end);
    PutIntoPlain(GITHUB, x, Inner(Path(p)));
    PutIntoPlain(GITHUB, x, Inner(Path(q)));
  }

  /** Writing the same path twice changes nothing exactly when the text has no marker at all, or has the
      block and nothing but line ends after it. */
  lemma IdempotentExactly(y: string, q: string)
    requires MarkerFree(GITHUB, q)
    ensures Update(Update(y, q), q) == Update(y, q)
       <==> MarkerFree(GITHUB, y) || (HasBlock(GITHUB, y) && After(GITHUB, y) == "")
  {
    GithubIsWellMarked();
    InnerIsFree(q, GITHUB.begin);
    InnerIsFree(q, GITHUB.end);
    PutIsIdempotentExactly(GITHUB, y, Inner(Path(q)));
  }

  lemma EmptyIsMarkerFree()
    ensures MarkerFree(GITHUB, "")
  {
    GithubIsWellMarked();
    NoHashIsFree("", GITHUB.begin);
    NoHashIsFree("", GITHUB.end);
  }

  /** A begin marker alone: the second update is not the first. */
  lemma BeginAloneIsNotIdempotent()
    ensures Update(Update(GITHUB.begin, ""), "") != Update(GITHUB.begin, "")
  {
    GithubIsWellMarked();
    EmptyIsMarkerFree();
    var y := GITHUB.begin;
    assert At(y, GITHUB.begin, 0);
    FoundIffNotFree(y, GITHUB.end);
    IdempotentExactly(y, "");
  }

  /** A block followed by a letter: every update adds a line end. */
  lemma TextAfterBlockIsNotIdempotent()
    ensures var y := Surround("", Wrap(GITHUB, Inner(Path(""))), "x"); Update(Update(y, ""), "") != Update(y, "")
  {
    GithubIsWellMarked();
    EmptyIsMarkerFree();
    InnerIsFree("", GITHUB.end);
    var y := Surround("", Wrap(GITHUB, Inner(Path(""))), "x");
    WrittenIsReadBack(GITHUB, "", Inner(Path("")), "x");
    FoundIffNotFree(y, GITHUB.begin);
    IdempotentExactly(y, "");
  }
}
