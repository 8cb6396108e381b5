/** Histories of a process that keeps its state in memory, writes it to a file now and then, and reads the file
    back when it is restarted. The history itself is never forgotten; what a restart forgets is said about it. */
module Histories {

  /** One entry: what happened, whether the whole state was written to the file with it, and whether it is a restart. */
  datatype Entry<+C> = Entry(what: C, stored: bool, restart: bool)

  /** A restart follows the entry, and nothing was written from the entry on before that restart. */
  ghost predicate Undone<C>(h: seq<Entry<C>>, j: nat) {
    exists r :: ForgottenAt(h, j, r)
  }

  predicate ForgottenAt<C>(h: seq<Entry<C>>, j: nat, r: nat) {
    j < r < |h| && h[r].restart && forall k :: j <= k < r ==> !h[k].stored
  }

  /** What was once written is never undone. */
  lemma StoredIsNotUndone<C>(h: seq<Entry<C>>, j: nat)
    requires j < |h| && h[j].stored
    ensures !Undone(h, j)
  {
  }

  /** Only the writes and the restarts decide what is undone. */
  lemma UndoneAlike<C, D>(h: seq<Entry<C>>, m: seq<Entry<D>>, j: nat)
    requires |h| == |m| && forall k :: 0 <= k < |h| ==> h[k].stored == m[k].stored && h[k].restart == m[k].restart
    ensures Undone(h, j) <==> Undone(m, j)
  {
    if Undone(h, j) {
      var r: nat :| ForgottenAt(h, j, r);
      assert ForgottenAt(m, j, r);
    }
    if Undone(m, j) {
      var r: nat :| ForgottenAt(m, j, r);
      assert ForgottenAt(h, j, r);
    }
  }

  /** What an entry means for a fact that entries give and take away. */
  datatype Mark = Mark(gives: bool, takes: bool)

  /** The entry gave the fact, was not undone, and all later entries that take it away were undone. */
  ghost predicate LiveAt(h: seq<Entry<Mark>>, i: nat) {
    && i < |h| && h[i].what.gives && !Undone(h, i)
    && forall j :: i < j < |h| && h[j].what.takes ==> Undone(h, j)
  }

  ghost predicate Live(h: seq<Entry<Mark>>) {
    exists i :: LiveAt(h, i)
  }

  const RESTART: Entry<Mark> := Entry(Mark(false, false), false, true)

  /** The fact holds in the file: it would hold after a restart. */
  ghost predicate OnDisk(h: seq<Entry<Mark>>) {
    Live(h + [RESTART])
  }

  // ---------------------------------------------------------------- one more entry

  lemma UndoneLater(h: seq<Entry<Mark>>, x: Entry<Mark>, j: nat)
    requires j < |h|
    ensures Undone(h + [x], j) <==> Undone(h, j) || ForgottenAt(h + [x], j, |h|)
  {
    var longer := h + [x];
    assert forall k :: 0 <= k < |h| ==> longer[k] == h[k];
    if Undone(longer, j) {
      var r: nat :| ForgottenAt(longer, j, r);
      if r < |h| {
        assert ForgottenAt(h, j, r);
      }
    }
    if Undone(h, j) {
      var r: nat :| ForgottenAt(h, j, r);
      assert ForgottenAt(longer, j, r);
    }
  }

  lemma LastIsNotUndone(h: seq<Entry<Mark>>, x: Entry<Mark>)
    ensures !Undone(h + [x], |h|)
  {
  }

  lemma LiveAtLast(h: seq<Entry<Mark>>, x: Entry<Mark>)
    ensures LiveAt(h + [x], |h|) <==> x.what.gives
  {
    LastIsNotUndone(h, x);
    assert (h + [x])[|h|] == x;
  }

  /** Two continuations that forget the same earlier entries differ for an earlier entry only by what they take. */
  lemma LiveAtEarlier(h: seq<Entry<Mark>>, x: Entry<Mark>, i: nat)
    requires i < |h|
    ensures LiveAt(h + [x], i) <==>
              && h[i].what.gives && !Undone(h + [x], i) && !x.what.takes
              && forall j :: i < j < |h| && h[j].what.takes ==> Undone(h + [x], j)
  {
    var longer := h + [x];
    LastIsNotUndone(h, x);
    assert longer[|h|] == x && longer[i] == h[i];
    if LiveAt(longer, i) {
      forall j | i < j < |h| && h[j].what.takes
        ensures Undone(longer, j)
      {
        assert longer[j] == h[j];
      }
    }
    if h[i].what.gives && !Undone(longer, i) && !x.what.takes && forall j :: i < j < |h| && h[j].what.takes ==> Undone(longer, j) {
      forall j | i < j < |longer| && longer[j].what.takes
        ensures Undone(longer, j)
      {
        assert j < |h| ==> longer[j] == h[j];
      }
    }
  }

  /** A call adds what it gives and removes what it takes. */
  lemma LiveAfterCall(h: seq<Entry<Mark>>, x: Entry<Mark>)
    requires !x.restart
    ensures Live(h + [x]) <==> x.what.gives || (Live(h) && !x.what.takes)
  {
    LiveAtLast(h, x);
    forall i: nat | i < |h|
      ensures LiveAt(h + [x], i) <==> LiveAt(h, i) && !x.what.takes
    {
      LiveAtEarlier(h, x, i);
      forall j: nat | j < |h|
        ensures Undone(h + [x], j) <==> Undone(h, j)
      {
        UndoneLater(h, x, j);
      }
    }
    if Live(h + [x]) {
      var i: nat :| LiveAt(h + [x], i);
    }
    if Live(h) {
      var i: nat :| LiveAt(h, i);
    }
    if x.what.gives {
      assert LiveAt(h + [x], |h|);
    }
  }

  predicate NothingStored(h: seq<Entry<Mark>>, j: nat) {
    forall k :: j <= k < |h| ==> !h[k].stored
  }

  lemma ForgottenNow(h: seq<Entry<Mark>>, x: Entry<Mark>, j: nat)
    requires x.restart && j < |h|
    ensures ForgottenAt(h + [x], j, |h|) <==> NothingStored(h, j)
  {
    var longer := h + [x];
    assert longer[|h|] == x && forall k :: 0 <= k < |h| ==> longer[k] == h[k];
    if ForgottenAt(longer, j, |h|) {
      forall k | j <= k < |h|
        ensures !h[k].stored
      {
        assert !longer[k].stored;
      }
    }
  }

  /** Restarts forget the same earlier entries whatever else they do. */
  lemma RestartForgetsAlike(h: seq<Entry<Mark>>, x: Entry<Mark>, j: nat)
    requires x.restart && j < |h|
    ensures Undone(h + [x], j) <==> Undone(h + [RESTART], j)
  {
    UndoneLater(h, x, j);
    UndoneLater(h, RESTART, j);
    ForgottenNow(h, x, j);
    ForgottenNow(h, RESTART, j);
  }

  /** A restart brings back what is in the file, less what it takes itself. */
  lemma LiveAfterRestart(h: seq<Entry<Mark>>, x: Entry<Mark>)
    requires x.restart && !x.what.gives
    ensures Live(h + [x]) <==> OnDisk(h) && !x.what.takes
  {
    LiveAtLast(h, x);
    LiveAtLast(h, RESTART);
    forall i: nat | i < |h|
      ensures LiveAt(h + [x], i) <==> LiveAt(h + [RESTART], i) && !x.what.takes
    {
      LiveAtEarlier(h, x, i);
      LiveAtEarlier(h, RESTART, i);
      forall j: nat | j < |h|
        ensures Undone(h + [x], j) <==> Undone(h + [RESTART], j)
      {
        RestartForgetsAlike(h, x, j);
      }
    }
    if Live(h + [x]) {
      var i: nat :| LiveAt(h + [x], i);
    }
    if OnDisk(h) {
      var i: nat :| LiveAt(h + [RESTART], i);
    }
  }

  /** After an entry with which the state was written, a restart would forget nothing of it. */
  lemma DiskAfterStored(h: seq<Entry<Mark>>, x: Entry<Mark>)
    requires x.stored && !x.restart
    ensures OnDisk(h + [x]) <==> Live(h + [x])
  {
    var m := h + [x];
    assert m[|h|] == x;
    LiveAtLast(m, RESTART);
    forall i: nat | i < |m|
      ensures LiveAt(m + [RESTART], i) <==> LiveAt(m, i)
    {
      LiveAtEarlier(m, RESTART, i);
      forall j: nat | j < |m|
        ensures Undone(m + [RESTART], j) <==> Undone(m, j)
      {
        UndoneLater(m, RESTART, j);
        assert (m + [RESTART])[|h|] == x;
      }
    }
    if Live(m) {
      var i: nat :| LiveAt(m, i);
    }
    if OnDisk(m) {
      var i: nat :| LiveAt(m + [RESTART], i);
    }
  }

  lemma ForgottenTogether(h: seq<Entry<Mark>>, x: Entry<Mark>, j: nat)
    requires !x.stored && j < |h|
    ensures Undone(h + [x] + [RESTART], j) <==> Undone(h + [RESTART], j)
    ensures Undone(h + [x] + [RESTART], |h|)
  {
    var m := h + [x];
    UndoneLater(m, RESTART, j);
    UndoneLater(h, x, j);
    UndoneLater(h, RESTART, j);
    assert m[|h|] == x && forall k :: 0 <= k < |h| ==> m[k] == h[k];
    ForgottenNow(h, RESTART, j);
    ForgottenNow(m, RESTART, j);
    ForgottenNow(m, RESTART, |h|);
    if ForgottenAt(m, j, |h|) {
      ForgottenNow(h, x, j);
    }
    if NothingStored(m, j) {
      forall k | j <= k < |h|
        ensures !h[k].stored
      {
        assert !m[k].stored;
      }
    }
  }

  /** An entry with which nothing was written leaves the file as it is. */
  lemma DiskAfterUnstored(h: seq<Entry<Mark>>, x: Entry<Mark>)
    requires !x.stored
    ensures OnDisk(h + [x]) <==> OnDisk(h)
  {
    var m := h + [x];
    LiveAtLast(h, RESTART);
    LiveAtLast(m, RESTART);
    assert m[|h|] == x && !LiveAt(m + [RESTART], |h|) by {
      assert (m + [RESTART])[|h|] == x;
      assert ForgottenAt(m + [RESTART], |h|, |h| + 1);
    }
    forall i: nat | i < |h|
      ensures LiveAt(m + [RESTART], i) <==> LiveAt(h + [RESTART], i)
    {
      LiveAtEarlier(m, RESTART, i);
      LiveAtEarlier(h, RESTART, i);
      forall j: nat | j < |h|
        ensures Undone(m + [RESTART], j) <==> Undone(h + [RESTART], j)
        ensures Undone(m + [RESTART], |h|)
      {
        ForgottenTogether(h, x, j);
      }
      assert m[i] == h[i] && forall j :: i < j < |h| ==> m[j] == h[j];
    }
    if OnDisk(m) {
      var i: nat :| LiveAt(m + [RESTART], i);
    }
    if OnDisk(h) {
      var i: nat :| LiveAt(h + [RESTART], i);
    }
  }
}
