/** The string operations of Go's strings package that the models use. */
module Text {

  /** unicode.IsSpace. */
  predicate IsSpace(c: char) {
    || c == ' ' || '\t' <= c <= '\r' || c == '\U{85}' || c == '\U{A0}' || c == '\U{1680}'
    || '\U{2000}' <= c <= '\U{200A}' || c == '\U{2028}' || c == '\U{2029}' || c == '\U{202F}' || c == '\U{205F}' || c == '\U{3000}'
  }

  predicate IsLineEnd(c: char) {
    c == '\r' || c == '\n'
  }

  /** The sets of characters that are trimmed. */
  datatype Cut = Spaces | LineEnds

  predicate IsIn(c: char, cut: Cut) {
    if cut.Spaces? then IsSpace(c) else IsLineEnd(c)
  }

  function TrimLeft(s: string, cut: Cut): (r: string)
    ensures r != "" ==> !IsIn(r[0], cut)
    ensures |r| <= |s| && r == s[|s| - |r|..]
  {
    if s != "" && IsIn(s[0], cut) then TrimLeft(s[1..], cut) else s
  }

  function TrimRight(s: string, cut: Cut): (r: string)
    ensures r != "" ==> !IsIn(r[|r| - 1], cut)
    ensures |r| <= |s| && r == s[..|r|]
  {
    if s != "" && IsIn(s[|s| - 1], cut) then TrimRight(s[..|s| - 1], cut) else s
  }

  lemma TrimLeftStep(c: char, s: string, cut: Cut)
    ensures TrimLeft([c] + s, cut) == if IsIn(c, cut) then TrimLeft(s, cut) else [c] + s
  {
    assert ([c] + s)[1..] == s;
  }

  lemma TrimRightStep(s: string, c: char, cut: Cut)
    ensures TrimRight(s + [c], cut) == if IsIn(c, cut) then TrimRight(s, cut) else s + [c]
  {
    assert (s + [c])[..|s|] == s;
  }

  lemma TrimNothing(s: string, cut: Cut)
    ensures s != "" && !IsIn(s[0], cut) ==> TrimLeft(s, cut) == s
    ensures s != "" && !IsIn(s[|s| - 1], cut) ==> TrimRight(s, cut) == s
    ensures TrimLeft("", cut) == "" == TrimRight("", cut)
  {
  }

  function TrimSpace(s: string): string {
    TrimRight(TrimLeft(s, Spaces), Spaces)
  }

  /** No white space at either end. */
  predicate Trimmed(s: string) {
    s != "" ==> !IsSpace(s[0]) && !IsSpace(s[|s| - 1])
  }

  lemma TrimSpaceAfterBlank(s: string)
    requires Trimmed(s)
    ensures TrimSpace(" " + s) == s
  {
    TrimLeftStep(' ', s, Spaces);
    TrimNothing(s, Spaces);
    assert [' '] + s == " " + s;
  }

  predicate HasPrefix(s: string, p: string) {
    |p| <= |s| && s[..|p|] == p
  }

  predicate At(s: string, p: string, i: nat) {
    i + |p| <= |s| && s[i..i + |p|] == p
  }

  /** strings.Index: the first position of p in s at or after i, or the length of s plus one. */
  function IndexFrom(s: string, p: string, i: nat): (r: nat)
    requires i <= |s| + 1
    ensures i <= r <= |s| + 1
    ensures r <= |s| ==> At(s, p, r)
    ensures forall j :: i <= j < r ==> !At(s, p, j)
    decreases |s| + 1 - i
  {
    if i > |s| then i else if At(s, p, i) then i else IndexFrom(s, p, i + 1)
  }
}
