/** Filtering a unified diff by the glob patterns of a layer. */
module DiffFilter {
  import opened Common
  import opened Text
  import opened DiffSections
  import DiffPath

  type Pattern = string -> bool

  /** Glob compilation is a library's: some text compiles to a matcher, some does not. */
  type Compiler = string -> Option<Pattern>

  /** The globs that compile, in order; the others are dropped without a word. */
  function CompiledPatterns(compile: Compiler, globs: seq<string>): seq<Pattern> {
    if globs == [] then []
    else
      var rest := CompiledPatterns(compile, globs[1..]);
      match compile(globs[0])
      case Some(p) => [p] + rest
      case None => rest
  }

  predicate MatchesAny(patterns: seq<Pattern>, path: string) {
    exists i :: 0 <= i < |patterns| && patterns[i](path)
  }

  /** The section's path is matched by a glob of the list that compiles. */
  predicate Matches(compile: Compiler, globs: seq<string>, section: string) {
    var path := DiffPath.FilePath(section);
    && path.Some?
    && exists g :: g in globs && compile(g).Some? && compile(g).value(path.value)
  }

  lemma {:induction false} CompiledMatch(compile: Compiler, globs: seq<string>, path: string)
    ensures MatchesAny(CompiledPatterns(compile, globs), path)
            <==> exists g :: g in globs && compile(g).Some? && compile(g).value(path)
  {
    if globs != [] {
      var all, rest := CompiledPatterns(compile, globs), CompiledPatterns(compile, globs[1..]);
      CompiledMatch(compile, globs[1..], path);
      if compile(globs[0]).Some? {
        assert all[0] == compile(globs[0]).value;
        assert forall i :: 0 <= i < |rest| ==> all[i + 1] == rest[i];
        assert forall i :: 1 <= i < |all| ==> all[i] == rest[i - 1];
      }
      assert forall g :: g in globs <==> g == globs[0] || g in globs[1..];
    }
  }

  /** The sections to keep, in their order. */
  ghost function Select(sections: seq<string>, keep: string -> bool): seq<string> {
    if sections == [] then []
    else (if keep(sections[0]) then [sections[0]] else []) + Select(sections[1..], keep)
  }

  ghost function Keeps(compile: Compiler, globs: seq<string>): string -> bool {
    s => Matches(compile, globs, s)
  }

  /** What a filtered diff is. */
  ghost function Filtered(compile: Compiler, globs: seq<string>, d: string): string {
    Join(Select(Sections(HEADER, d), Keeps(compile, globs)))
  }

  lemma {:induction false} SelectAppend(a: seq<string>, b: seq<string>, keep: string -> bool)
    ensures Select(a + b, keep) == Select(a, keep) + Select(b, keep)
  {
    if a == [] {
      assert a + b == b;
    } else {
      assert (a + b)[1..] == a[1..] + b;
      SelectAppend(a[1..], b, keep);
    }
  }

  lemma {:induction false} SelectOne(s: string, keep: string -> bool)
    ensures Select([s], keep) == if keep(s) then [s] else []
  {
    assert Select([s][1..], keep) == [];
  }

  lemma {:induction false} SelectNone(sections: seq<string>, keep: string -> bool)
    requires forall i :: 0 <= i < |sections| ==> !keep(sections[i])
    ensures Select(sections, keep) == []
  {
    if sections != [] {
      SelectNone(sections[1..], keep);
    }
  }

  predicate MatchesCompiled(patterns: seq<Pattern>, section: string) {
    var path := DiffPath.FilePath(section);
    path.Some? && MatchesAny(patterns, path.value)
  }

  lemma {:induction false} MatchesAreCompiled(compile: Compiler, globs: seq<string>, section: string)
    ensures MatchesCompiled(CompiledPatterns(compile, globs), section) <==> Matches(compile, globs, section)
  {
    var path := DiffPath.FilePath(section);
    if path.Some? {
      CompiledMatch(compile, globs, path.value);
    }
  }

  method MatchSections(patterns: seq<Pattern>, sections: seq<string>) returns (matched: seq<string>)
    ensures matched == Select(sections, s => MatchesCompiled(patterns, s))
  {
    matched := [];
    ghost var keep := s => MatchesCompiled(patterns, s);
    for i := 0 to |sections|
      invariant matched == Select(sections[..i], keep)
    {
      ghost var before := sections[..i];
      assert sections[..i + 1] == before + [sections[i]];
      SelectAppend(before, [sections[i]], keep);
      SelectOne(sections[i], keep);
      var path := DiffPath.ExtractFilePath(sections[i]);
      if path.Some? {
        if MatchesAny(patterns, path.value) {
          matched := matched + [sections[i]];
        }
      }
    }
    assert sections[..|sections|] == sections;
  }

  /** Empty input, no globs, no glob that compiles and nothing matched all give the empty text, which is
      what joining the selected sections gives then. */
  method FilterDiffByGlobs(compile: Compiler, fullDiff: string, globs: seq<string>) returns (filtered: string)
    ensures filtered == Filtered(compile, globs, fullDiff)
  {
    SelectCompiled(Sections(HEADER, fullDiff), compile, globs);
    if fullDiff == "" || globs == [] {
      NothingKept(compile, globs, fullDiff);
      return "";
    }
    var patterns := CompiledPatterns(compile, globs);
    if patterns == [] {
      NothingKept(compile, globs, fullDiff);
      return "";
    }
    var sections := SplitDiffSections(HEADER, fullDiff);
    var matched := MatchSections(patterns, sections);
    if matched == [] {
      return "";
    }
    filtered := Join(matched);
  }

  lemma {:induction false} SelectCompiled(sections: seq<string>, compile: Compiler, globs: seq<string>)
    ensures Select(sections, s => MatchesCompiled(CompiledPatterns(compile, globs), s))
            == Select(sections, Keeps(compile, globs))
  {
    if sections != [] {
      MatchesAreCompiled(compile, globs, sections[0]);
      SelectCompiled(sections[1..], compile, globs);
    }
  }

  lemma {:induction false} NothingKept(compile: Compiler, globs: seq<string>, d: string)
    requires d == "" || CompiledPatterns(compile, globs) == []
    ensures Filtered(compile, globs, d) == ""
  {
    var sections := Sections(HEADER, d);
    if d != "" {
      forall i | 0 <= i < |sections| ensures !Keeps(compile, globs)(sections[i]) {
        MatchesAreCompiled(compile, globs, sections[i]);
      }
      SelectNone(sections, Keeps(compile, globs));
    }
  }

  /* ---- What a filtered diff holds ---- */

  lemma {:induction false} SelectedAreSections(h: Marker, sections: seq<string>, keep: string -> bool)
    requires AllSections(h, sections)
    ensures AllSections(h, Select(sections, keep))
  {
    if sections != [] {
      SelectedAreSections(h, sections[1..], keep);
    }
  }

  /** Splitting a filtered diff gives exactly the sections that were selected, in order. */
  lemma {:induction false} SectionsOfFiltered(compile: Compiler, globs: seq<string>, d: string)
    ensures Sections(HEADER, Filtered(compile, globs, d)) == Select(Sections(HEADER, d), Keeps(compile, globs))
  {
    SectionsAreSections(HEADER, d);
    SelectedAreSections(HEADER, Sections(HEADER, d), Keeps(compile, globs));
    SplitUndoesJoin(HEADER, Select(Sections(HEADER, d), Keeps(compile, globs)));
  }

  lemma {:induction false} SelectTwice(sections: seq<string>, p: string -> bool, q: string -> bool)
    ensures Select(Select(sections, p), q) == Select(sections, s => p(s) && q(s))
  {
    if sections != [] {
      var head := if p(sections[0]) then [sections[0]] else [];
      SelectTwice(sections[1..], p, q);
      SelectAppend(head, Select(sections[1..], p), q);
      SelectOne(sections[0], q);
    }
  }

  lemma {:induction false} SelectAgrees(sections: seq<string>, p: string -> bool, q: string -> bool)
    requires forall s :: p(s) <==> q(s)
    ensures Select(sections, p) == Select(sections, q)
  {
    if sections != [] {
      SelectAgrees(sections[1..], p, q);
    }
  }

  /** Filtering twice with the same globs is filtering once. */
  lemma {:induction false} FilterIdempotent(compile: Compiler, globs: seq<string>, d: string)
    ensures Filtered(compile, globs, Filtered(compile, globs, d)) == Filtered(compile, globs, d)
  {
    var keep := Keeps(compile, globs);
    SectionsOfFiltered(compile, globs, d);
    SelectTwice(Sections(HEADER, d), keep, keep);
    SelectAgrees(Sections(HEADER, d), s => keep(s) && keep(s), keep);
  }

  /** The order of two filters does not matter. */
  lemma {:induction false} FiltersCommute(compile: Compiler, f: seq<string>, g: seq<string>, d: string)
    ensures Filtered(compile, g, Filtered(compile, f, d)) == Filtered(compile, f, Filtered(compile, g, d))
  {
    var p, q := Keeps(compile, f), Keeps(compile, g);
    SectionsOfFiltered(compile, f, d);
    SectionsOfFiltered(compile, g, d);
    SelectTwice(Sections(HEADER, d), p, q);
    SelectTwice(Sections(HEADER, d), q, p);
    SelectAgrees(Sections(HEADER, d), s => p(s) && q(s), s => q(s) && p(s));
  }

  lemma {:induction false} SelectCounts(sections: seq<string>, keep: string -> bool, s: string)
    ensures multiset(Select(sections, keep))[s] == if keep(s) then multiset(sections)[s] else 0
  {
    if sections != [] {
      SelectCounts(sections[1..], keep, s);
      assert sections == [sections[0]] + sections[1..];
    }
  }

  /** Isolation: a filtered diff has every matching section of the diff as often as the diff has it,
      and no other section. */
  lemma {:induction false} FilterIsolates(compile: Compiler, globs: seq<string>, d: string, s: string)
    ensures multiset(Sections(HEADER, Filtered(compile, globs, d)))[s]
            == if Matches(compile, globs, s) then multiset(Sections(HEADER, d))[s] else 0
  {
    SectionsOfFiltered(compile, globs, d);
    SelectCounts(Sections(HEADER, d), Keeps(compile, globs), s);
  }

  /** Two layers see a common section exactly when its path matches the globs of both. */
  lemma {:induction false} LayersShareExactly(compile: Compiler, f: seq<string>, g: seq<string>, d: string, s: string)
    ensures s in Sections(HEADER, Filtered(compile, f, d)) && s in Sections(HEADER, Filtered(compile, g, d))
            <==> s in Sections(HEADER, d) && Matches(compile, f, s) && Matches(compile, g, s)
  {
    FilterIsolates(compile, f, d, s);
    FilterIsolates(compile, g, d, s);
    InCounts(Sections(HEADER, d), s);
    InCounts(Sections(HEADER, Filtered(compile, f, d)), s);
    InCounts(Sections(HEADER, Filtered(compile, g, d)), s);
  }

  lemma {:induction false} InCounts(sections: seq<string>, s: string)
    ensures s in sections <==> multiset(sections)[s] > 0
  {
  }

  /** Only the set of globs that compile matters: not their order, nor one that does not compile. */
  lemma {:induction false} GlobsAreASet(compile: Compiler, f: seq<string>, g: seq<string>, d: string)
    requires forall x :: compile(x).Some? ==> (x in f <==> x in g)
    ensures Filtered(compile, f, d) == Filtered(compile, g, d)
  {
    var p, q := Keeps(compile, f), Keeps(compile, g);
    forall s ensures p(s) <==> q(s) {
    }
    SelectAgrees(Sections(HEADER, d), p, q);
  }

  /** The text of a filtered diff is made of slices of the diff, each from one file header to before
      the next, joined by line breaks. */
  lemma {:induction false} FilteredTextIsSlices(compile: Compiler, globs: seq<string>, d: string, k: nat)
    returns (at: nat)
    requires k < |Select(Sections(HEADER, d), Keeps(compile, globs))|
    ensures var s := Select(Sections(HEADER, d), Keeps(compile, globs))[k];
            IsSliceOf(HEADER, s, d, at) && Matches(compile, globs, s)
  {
    var sections, keep := Sections(HEADER, d), Keeps(compile, globs);
    var j := SelectedFrom(sections, keep, k);
    at := PieceIsSection(HEADER, d, None, 0, j);
  }

  lemma {:induction false} SelectedFrom(sections: seq<string>, keep: string -> bool, k: nat) returns (j: nat)
    requires k < |Select(sections, keep)|
    ensures j < |sections| && sections[j] == Select(sections, keep)[k] && keep(sections[j])
  {
    var head := if keep(sections[0]) then [sections[0]] else [];
    if k < |head| {
      j := 0;
    } else {
      j := SelectedFrom(sections[1..], keep, k - |head|);
      j := j + 1;
    }
  }
}
