/** Splitting a unified diff into per-file sections, joining sections, and the round trip between. */
module DiffSections {
  import opened Common
  import opened Text

  /** A marker that cannot overlap itself or span lines. */
  type Marker = h: string | h != "" && '\n' !in h && forall k :: 0 < k < |h| ==> h[k] != h[0] witness "d"

  const HEADER: Marker := "diff --git "

  /** The marker at the start of a line. */
  predicate SectionStart(h: Marker, d: string, i: nat) {
    OccursAt(h, d, i) && (i == 0 || d[i - 1] == '\n')
  }

  function Starts(h: Marker, d: string): set<nat> {
    set i: nat | i < |d| && SectionStart(h, d, i)
  }

  /* ---- Cutting a text at a set of positions ---- */

  /** The open piece, when there is one, ended at `end` and stripped of its trailing newlines. */
  function Closed(d: string, open: Option<nat>, end: nat): seq<string>
    requires end <= |d| && (open.Some? ==> open.value <= end)
  {
    if open.Some? then [TrimNewlines(d[open.value..end])] else []
  }

  /** The pieces still to come at position i: a cut closes the open piece and opens its own, and the
      end of the text closes the last. */
  function Pieces(cuts: set<nat>, d: string, open: Option<nat>, i: nat): seq<string>
    requires i <= |d| && (open.Some? ==> open.value <= i)
    decreases |d| - i
  {
    if i == |d| then Closed(d, open, i)
    else if i in cuts then Closed(d, open, i) + Pieces(cuts, d, Some(i), i + 1)
    else Pieces(cuts, d, open, i + 1)
  }

  /** The sections of a diff; text before the first header is dropped. */
  function Sections(h: Marker, d: string): seq<string> {
    Pieces(Starts(h, d), d, None, 0)
  }

  lemma {:induction false} PiecesSkip(cuts: set<nat>, d: string, open: Option<nat>, i: nat, j: nat)
    requires i <= j <= |d| && (open.Some? ==> open.value <= i)
    requires forall k :: i <= k < j ==> k !in cuts
    ensures Pieces(cuts, d, open, i) == Pieces(cuts, d, open, j)
    decreases j - i
  {
    if i < j {
      PiecesSkip(cuts, d, open, i + 1, j);
    }
  }

  /** Stepping over text that has no cut after its first character. */
  lemma {:induction false} PiecesStep(cuts: set<nat>, d: string, open: Option<nat>, i: nat, j: nat)
    requires i < j <= |d| && (open.Some? ==> open.value <= i)
    requires forall k :: i < k < j ==> k !in cuts
    ensures Pieces(cuts, d, open, i)
            == if i in cuts then Closed(d, open, i) + Pieces(cuts, d, Some(i), j) else Pieces(cuts, d, open, j)
  {
    PiecesSkip(cuts, d, if i in cuts then Some(i) else open, i + 1, j);
  }

  /* ---- The scan ---- */

  /** Matches of a marker do not overlap. */
  lemma {:induction false} MatchesApart(h: Marker, d: string, i: nat, k: nat)
    requires OccursAt(h, d, i) && i < k < i + |h|
    ensures !OccursAt(h, d, k)
  {
    assert d[k] == d[i + (k - i)] == h[k - i] != h[0];
    assert k + |h| <= |d| ==> d[k] == d[k + 0];
  }

  lemma {:induction false} NoStartInsideMatch(h: Marker, d: string, i: nat)
    requires OccursAt(h, d, i)
    ensures forall k :: i < k < i + |h| ==> k !in Starts(h, d)
  {
    forall k | i < k < i + |h| ensures k !in Starts(h, d) {
      MatchesApart(h, d, i, k);
    }
  }

  /** From `pos` to past the next match: a match that starts a line closes the open section. */
  lemma {:induction false} StepOverMatch(h: Marker, d: string, open: Option<nat>, pos: nat, idx: nat)
    requires pos <= idx && OccursAt(h, d, idx) && (open.Some? ==> open.value < pos)
    requires forall k :: pos <= k < idx ==> !OccursAt(h, d, k)
    ensures Pieces(Starts(h, d), d, open, pos)
            == if SectionStart(h, d, idx)
               then Closed(d, open, idx) + Pieces(Starts(h, d), d, Some(idx), idx + |h|)
               else Pieces(Starts(h, d), d, open, idx + |h|)
  {
    NoStartInsideMatch(h, d, idx);
    PiecesSkip(Starts(h, d), d, open, pos, idx);
    PiecesStep(Starts(h, d), d, open, idx, idx + |h|);
  }

  lemma {:induction false} StepToEnd(h: Marker, d: string, open: Option<nat>, pos: nat)
    requires pos <= |d| && (open.Some? ==> open.value < pos)
    requires forall k :: pos <= k < |d| ==> !OccursAt(h, d, k)
    ensures Pieces(Starts(h, d), d, open, pos) == if open.Some? then [TrimNewlines(d[open.value..])] else []
  {
    PiecesSkip(Starts(h, d), d, open, pos, |d|);
    assert open.Some? ==> d[open.value..] == d[open.value..|d|];
  }

  /** The scan of the source: step through the matches of the header text, and cut at those that
      start a line. */
  method SplitDiffSections(h: Marker, d: string) returns (sections: seq<string>)
    ensures sections == Sections(h, d)
  {
    sections := [];
    var lastStart: Option<nat> := None;
    var pos := 0;
    var found := Find(h, d, 0);
    ghost var toCome := Sections(h, d);
    while found.Some?
      invariant pos <= |d| && (lastStart.Some? ==> lastStart.value < pos)
      invariant found.Some? ==> pos <= found.value && OccursAt(h, d, found.value)
      invariant forall k :: pos <= k < (if found.Some? then found.value else |d|) ==> !OccursAt(h, d, k)
      invariant toCome == Pieces(Starts(h, d), d, lastStart, pos)
      invariant sections + toCome == Sections(h, d)
      decreases |d| - pos
    {
      var idx := found.value;
      StepOverMatch(h, d, lastStart, pos, idx);
      pos := idx + |h|;
      if idx == 0 || d[idx - 1] == '\n' {
        toCome := Pieces(Starts(h, d), d, Some(idx), pos);
        Regroup(sections, Closed(d, lastStart, idx), toCome);
        if lastStart.Some? {
          sections := sections + [TrimNewlines(d[lastStart.value..idx])];
        }
        lastStart := Some(idx);
      }
      found := Find(h, d, pos);
    }
    StepToEnd(h, d, lastStart, pos);
    if lastStart.Some? {
      sections := sections + [TrimNewlines(d[lastStart.value..])];
    }
  }

  lemma {:induction false} Regroup(a: seq<string>, b: seq<string>, c: seq<string>)
    ensures a + (b + c) == (a + b) + c && a + [] == a && [] + c == c
  {
  }

  /* ---- The round trip ---- */

  /** A text that is exactly one section: one header, at its start, and no trailing newline. */
  predicate IsSection(h: Marker, s: string) {
    s != "" && s[|s| - 1] != '\n' && Starts(h, s) == {0}
  }

  predicate AllSections(h: Marker, parts: seq<string>) {
    forall i :: 0 <= i < |parts| ==> IsSection(h, parts[i])
  }

  /** `s` is a slice of `d` that begins at a section start and contains no other. */
  predicate IsSliceOf(h: Marker, s: string, d: string, at: nat) {
    && at in Starts(h, d) && at + |s| <= |d| && s == d[at..at + |s|]
    && forall k :: at < k < at + |s| ==> k !in Starts(h, d)
  }

  lemma {:induction false} TrimmedIsSlice(d: string, i: nat, j: nat)
    requires i <= j <= |d|
    ensures var r := TrimNewlines(d[i..j]); i + |r| <= j && r == d[i..i + |r|]
  {
  }

  lemma {:induction false} HeaderSurvivesTrim(h: Marker, d: string, i: nat, j: nat)
    requires OccursAt(h, d, i) && i + |h| <= j <= |d|
    ensures |h| <= |TrimNewlines(d[i..j])|
  {
    assert d[i..j][|h| - 1] == d[i + (|h| - 1)] == h[|h| - 1];
  }

  lemma {:induction false} SliceOccurs(h: Marker, d: string, i: nat, r: string, k: nat)
    requires i + |r| <= |d| && r == d[i..i + |r|] && k + |h| <= |r|
    ensures OccursAt(h, r, k) <==> OccursAt(h, d, i + k)
  {
    assert forall t :: 0 <= t < |h| ==> (h[t] == r[k + t] <==> h[t] == d[i + k + t]);
  }

  lemma {:induction false} SliceIsSection(h: Marker, d: string, i: nat, r: string)
    requires IsSliceOf(h, r, d, i) && |h| <= |r| && r[|r| - 1] != '\n'
    ensures IsSection(h, r)
  {
    forall k: nat | k < |r| ensures k in Starts(h, r) <==> k == 0 {
      if k + |h| <= |r| {
        SliceOccurs(h, d, i, r, k);
      }
      if k > 0 {
        assert i + k !in Starts(h, d);
        assert r[k - 1] == d[i + k - 1];
      }
    }
  }

  lemma {:induction false} TrimmedPieceIsSection(h: Marker, d: string, i: nat, j: nat)
    requires i in Starts(h, d) && i < j <= |d| && (j < |d| ==> j in Starts(h, d))
    requires forall k :: i < k < j ==> k !in Starts(h, d)
    ensures IsSliceOf(h, TrimNewlines(d[i..j]), d, i) && IsSection(h, TrimNewlines(d[i..j]))
  {
    NoStartInsideMatch(h, d, i);
    TrimmedIsSlice(d, i, j);
    HeaderSurvivesTrim(h, d, i, j);
    SliceIsSection(h, d, i, TrimNewlines(d[i..j]));
  }

  predicate OpenSince(cuts: set<nat>, open: Option<nat>, i: nat) {
    open.Some? ==> open.value < i && open.value in cuts && forall k :: open.value < k < i ==> k !in cuts
  }

  /** Every section is one slice of the diff, from a start to before the next, and is one section by itself. */
  lemma {:induction false} PieceIsSection(h: Marker, d: string, open: Option<nat>, i: nat, k: nat) returns (at: nat)
    requires i <= |d| && OpenSince(Starts(h, d), open, i)
    requires k < |Pieces(Starts(h, d), d, open, i)|
    ensures IsSliceOf(h, Pieces(Starts(h, d), d, open, i)[k], d, at)
    ensures IsSection(h, Pieces(Starts(h, d), d, open, i)[k])
    decreases |d| - i
  {
    var cuts := Starts(h, d);
    if i < |d| && i !in cuts {
      at := PieceIsSection(h, d, open, i + 1, k);
    } else if open.Some? && k == 0 {
      at := open.value;
      TrimmedPieceIsSection(h, d, at, i);
    } else {
      at := PieceIsSection(h, d, Some(i), i + 1, k - |Closed(d, open, i)|);
    }
  }

  lemma {:induction false} SectionsAreSections(h: Marker, d: string)
    ensures AllSections(h, Sections(h, d))
  {
    forall k | 0 <= k < |Sections(h, d)| ensures IsSection(h, Sections(h, d)[k]) {
      var _ := PieceIsSection(h, d, None, 0, k);
    }
  }

  /** The cuts of a text from position n on, seen from n. */
  predicate Aligned(cuts: set<nat>, n: nat, tail: set<nat>, length: nat) {
    forall k: nat :: k < length ==> (k in tail <==> n + k in cuts)
  }

  lemma {:induction false} PiecesShift(cuts: set<nat>, d: string, n: nat, tail: set<nat>, y: string, at: nat, k: nat)
    requires |d| == n + |y| && d[n..] == y && Aligned(cuts, n, tail, |y|) && at <= k <= |y|
    ensures Pieces(cuts, d, Some(n + at), n + k) == Pieces(tail, y, Some(at), k)
    decreases |y| - k
  {
    ClosedShifts(d, n, y, at, k);
    if k < |y| {
      assert k in tail <==> n + k in cuts;
      PiecesShift(cuts, d, n, tail, y, if k in tail then k else at, k + 1);
    }
  }

  lemma {:induction false} ClosedShifts(d: string, n: nat, y: string, at: nat, k: nat)
    requires |d| == n + |y| && d[n..] == y && at <= k <= |y|
    ensures Closed(d, Some(n + at), n + k) == Closed(y, Some(at), k)
  {
    SliceOfRest(d, n, at, k);
  }

  /** Section starts after a line break do not depend on the text before it. */
  lemma {:induction false} BreakAligns(h: Marker, x: string, y: string)
    requires x != "" && x[|x| - 1] == '\n'
    ensures Aligned(Starts(h, x + y), |x|, Starts(h, y), |y|)
  {
    forall k: nat | k < |y| ensures k in Starts(h, y) <==> |x| + k in Starts(h, x + y) {
      assert k > 0 ==> (x + y)[|x| + k - 1] == y[k - 1];
      assert x + y + "" == x + y;
      if k + |h| <= |y| {
        OccursInContext(h, x, y, "", k);
      }
    }
  }

  lemma {:induction false} NoStartAcrossBreak(h: Marker, s: string, rest: string, k: nat)
    requires 1 <= k <= |s| && IsSection(h, s)
    ensures !SectionStart(h, s + "\n" + rest, k)
  {
    var d := s + "\n" + rest;
    if k + |h| <= |s| {
      assert k !in Starts(h, s);
      OccursInContext(h, "", s, "\n" + rest, k);
      assert "" + s + ("\n" + rest) == d;
      assert d[k - 1] == s[k - 1];
    } else {
      assert d[k + (|s| - k)] == '\n' != h[|s| - k];
    }
  }

  lemma {:induction false} OnlyStartAtFront(h: Marker, s: string, rest: string)
    requires IsSection(h, s)
    ensures var d := s + "\n" + rest;
            0 in Starts(h, d) && forall k :: 1 <= k <= |s| ==> k !in Starts(h, d)
  {
    assert 0 in Starts(h, s);
    OccursInContext(h, "", s, "\n" + rest, 0);
    assert "" + s + ("\n" + rest) == s + "\n" + rest;
    forall k | 1 <= k <= |s| ensures !SectionStart(h, s + "\n" + rest, k) {
      NoStartAcrossBreak(h, s, rest, k);
    }
  }

  lemma {:induction false} TrimOneNewline(s: string)
    requires s == "" || s[|s| - 1] != '\n'
    ensures TrimNewlines(s + "\n") == s
  {
    var t := s + "\n";
    assert t[|s|] == '\n' && (s != "" ==> t[|s| - 1] == s[|s| - 1]);
    assert TrimmedEnd('\n', t, 0, |t|) == |s|;
  }

  /** Putting a section and a line break before a text puts the section before its sections. */
  lemma {:induction false} SectionsOfCons(h: Marker, s: string, rest: string)
    requires IsSection(h, s) && 0 in Starts(h, rest)
    ensures 0 in Starts(h, s + "\n" + rest)
    ensures Sections(h, s + "\n" + rest) == [s] + Sections(h, rest)
  {
    OnlyStartAtFront(h, s, rest);
    BreakAligns(h, s + "\n", rest);
    PiecesOfCons(Starts(h, s + "\n" + rest), s, s + "\n" + rest, Starts(h, rest), rest);
  }

  lemma {:induction false} PiecesOfCons(cuts: set<nat>, s: string, d: string, tail: set<nat>, rest: string)
    requires s != "" && s[|s| - 1] != '\n' && rest != "" && d == s + "\n" + rest
    requires 0 in cuts && (forall k :: 1 <= k <= |s| ==> k !in cuts)
    requires 0 in tail && Aligned(cuts, |s| + 1, tail, |rest|)
    ensures Pieces(cuts, d, None, 0) == [s] + Pieces(tail, rest, None, 0)
  {
    var n := |s| + 1;
    assert n + 0 in cuts;
    TailOfCons(s, rest);
    FirstIsClosed(cuts, d, s, n);
    PiecesShift(cuts, d, n, tail, rest, 0, 1);
    PiecesStep(tail, rest, None, 0, 1);
    Regroup([], [], Pieces(tail, rest, Some(0), 1));
  }

  lemma {:induction false} FirstIsClosed(cuts: set<nat>, d: string, s: string, n: nat)
    requires s != "" && s[|s| - 1] != '\n' && n == |s| + 1 < |d| && d[0..n] == s + "\n"
    requires 0 in cuts && (forall k :: 1 <= k < n ==> k !in cuts) && n in cuts
    ensures Pieces(cuts, d, None, 0) == [s] + Pieces(cuts, d, Some(n), n + 1)
  {
    TrimOneNewline(s);
    PiecesStep(cuts, d, None, 0, n);
    PiecesStep(cuts, d, Some(0), n, n + 1);
    Regroup([], [], Pieces(cuts, d, Some(0), n));
  }

  lemma {:induction false} TailOfCons(s: string, rest: string)
    ensures (s + "\n" + rest)[|s| + 1..] == rest && (s + "\n" + rest)[0..|s| + 1] == s + "\n"
  {
  }

  lemma {:induction false} SectionAlone(h: Marker, s: string)
    requires IsSection(h, s)
    ensures Sections(h, s) == [s]
  {
    assert s[0..|s|] == s == TrimNewlines(s);
    PiecesStep({0}, s, None, 0, |s|);
  }

  /** Splitting the joined text of any sections gives those sections back. */
  lemma {:induction false} SplitUndoesJoin(h: Marker, parts: seq<string>)
    requires AllSections(h, parts)
    ensures parts != [] ==> 0 in Starts(h, Join(parts))
    ensures Sections(h, Join(parts)) == parts
  {
    if parts == [] {
    } else if |parts| == 1 {
      SectionAlone(h, parts[0]);
    } else {
      SplitUndoesJoin(h, parts[1..]);
      SectionsOfCons(h, parts[0], Join(parts[1..]));
      assert parts == [parts[0]] + parts[1..];
    }
  }

  /** Re-splitting the joined sections of any diff returns the same sections. */
  lemma {:induction false} ResplitReturnsSections(h: Marker, d: string)
    ensures Sections(h, Join(Sections(h, d))) == Sections(h, d)
  {
    SectionsAreSections(h, d);
    SplitUndoesJoin(h, Sections(h, d));
  }
}
