/** Lines of a plan and the headings and contract found in them. Texts are sequences of UTF-8 code units. */
module PlanParser {
  import opened Common
  import opened Text

  datatype Line = Line(start: nat, text: string)

  /** The first line feed at or after i, or the length of the text. */
  function LineEnd(s: string, i: nat): (j: nat)
    requires i <= |s|
    ensures i <= j <= |s| && (j < |s| ==> s[j] == '\n')
    ensures forall k :: i <= k < j ==> s[k] != '\n'
    decreases |s| - i
  {
    if i == |s| || s[i] == '\n' then i else LineEnd(s, i + 1)
  }

  /** Where the line after the one at i starts. */
  function NextStart(s: string, i: nat): (j: nat)
    requires i <= |s|
    ensures i <= j <= |s| && (i < |s| ==> i < j)
  {
    if LineEnd(s, i) < |s| then LineEnd(s, i) + 1 else |s|
  }

  function LineAt(s: string, i: nat): Line
    requires i <= |s|
  {
    Line(i, StripCarriageReturn(s[i..LineEnd(s, i)]))
  }

  function LinesFrom(s: string, i: nat): seq<Line>
    requires i <= |s|
    decreases |s| - i
  {
    if i == |s| then [] else [LineAt(s, i)] + LinesFrom(s, NextStart(s, i))
  }

  lemma {:induction false} LineEndIs(s: string, i: nat, j: nat)
    requires i <= j <= |s| && (j < |s| ==> s[j] == '\n') && forall k :: i <= k < j ==> s[k] != '\n'
    ensures LineEnd(s, i) == j
  {
  }

  lemma {:induction false} LineEndInRest(s: string, i: nat)
    requires i <= |s|
    ensures LineEnd(s[i..], 0) == LineEnd(s, i) - i
  {
    LineEndIs(s[i..], 0, LineEnd(s, i) - i);
  }

  /** One step of the iterator: the rest and the counted offset agree. */
  lemma {:induction false} OffsetStep(s: string, i: nat)
    requires i < |s|
    ensures var e := LineEnd(s, i) - i;
            var rest := if e < |s[i..]| then s[i..][e + 1..] else "";
            var counted := i + e + if rest != "" || s[|s| - 1] == '\n' then 1 else 0;
            && s[i..][..e] == s[i..LineEnd(s, i)]
            && counted == NextStart(s, i) && rest == s[NextStart(s, i)..]
  {
  }

  /** One step of the iterator. */
  method NextLine(content: string, remaining: string, offset: nat) returns (line: Line, rest: string, next: nat)
    requires offset < |content| && remaining == content[offset..]
    ensures line == LineAt(content, offset) && next == NextStart(content, offset) && rest == content[next..]
  {
    LineEndInRest(content, offset);
    OffsetStep(content, offset);
    var e := LineEnd(remaining, 0);
    var text := remaining[..e];
    rest := if e < |remaining| then remaining[e + 1..] else "";
    next := offset + |text| + if rest != "" || content[|content| - 1] == '\n' then 1 else 0;
    line := Line(offset, StripCarriageReturn(text));
  }

  /** The lines with their offsets, which are counted up by the length of each line and its line feed. */
  method LineOffsets(content: string) returns (lines: seq<Line>)
    ensures lines == LinesFrom(content, 0)
  {
    lines := [];
    var remaining: string, offset: nat := content, 0;
    ghost var all := LinesFrom(content, 0);
    while remaining != ""
      invariant offset <= |content| && remaining == content[offset..]
      invariant lines + LinesFrom(content, offset) == all
      decreases |remaining|
    {
      LinesSnoc(content, offset, lines);
      var line;
      line, remaining, offset := NextLine(content, remaining, offset);
      lines := lines + [line];
    }
  }

  lemma {:induction false} LinesSnoc(s: string, i: nat, lines: seq<Line>)
    requires i < |s|
    ensures lines + LinesFrom(s, i) == (lines + [LineAt(s, i)]) + LinesFrom(s, NextStart(s, i))
  {
    Regroup(lines, LineAt(s, i), LinesFrom(s, NextStart(s, i)));
  }

  lemma {:induction false} Regroup(a: seq<Line>, x: Line, b: seq<Line>)
    ensures a + ([x] + b) == (a + [x]) + b
  {
  }

  /* ---- The lines tile the text ---- */

  /** Position i starts a line: it is the start of the text, or follows a line feed. */
  predicate StartsLine(s: string, i: nat) {
    i < |s| && (i == 0 || s[i - 1] == '\n')
  }

  function StartAfter(lines: seq<Line>, k: nat, length: nat): nat {
    if k + 1 < |lines| then lines[k + 1].start else length
  }

  /** The slice from i to j starts a line; its only line feed is its last character, and without it and a
      carriage return before it, it is `text`. */
  predicate IsSlice(s: string, i: nat, j: nat, text: string) {
    && StartsLine(s, i) && i < j <= |s|
    && (forall m :: i <= m < j - 1 ==> s[m] != '\n')
    && (j < |s| ==> s[j - 1] == '\n')
    && text == StripCarriageReturn(if s[j - 1] == '\n' then s[i..j - 1] else s[i..j])
  }

  lemma {:induction false} LineIsSlice(s: string, i: nat)
    requires StartsLine(s, i)
    ensures IsSlice(s, i, NextStart(s, i), LineAt(s, i).text)
    ensures NextStart(s, i) < |s| ==> StartsLine(s, NextStart(s, i))
  {
  }

  /** For line feeds, carriage returns before them and an unterminated last line alike, the offsets are the
      true starts of the lines: the first is where the text starts, and the slices from each to the next,
      or to the end, are the lines. */
  lemma {:induction false} LinesTile(s: string, i: nat, k: nat)
    requires i <= |s| && (i < |s| ==> StartsLine(s, i)) && k < |LinesFrom(s, i)|
    ensures var lines := LinesFrom(s, i);
            lines[0].start == i && IsSlice(s, lines[k].start, StartAfter(lines, k, |s|), lines[k].text)
    decreases |s| - i
  {
    var rest := LinesFrom(s, NextStart(s, i));
    LineIsSlice(s, i);
    if rest != [] {
      LinesTile(s, NextStart(s, i), if k > 0 then k - 1 else 0);
    }
    TileStep(LineAt(s, i), rest, k, NextStart(s, i), |s|);
  }

  lemma {:induction false} TileStep(first: Line, rest: seq<Line>, k: nat, next: nat, length: nat)
    requires k <= |rest| && (rest != [] ==> rest[0].start == next) && (rest == [] ==> next == length)
    ensures var all := [first] + rest;
            if k == 0 then all[k] == first && StartAfter(all, k, length) == next
            else all[k] == rest[k - 1] && StartAfter(all, k, length) == StartAfter(rest, k - 1, length)
  {
  }

  /* ---- Headings ---- */

  function Spaces(line: string): nat {
    TrimmedStart(' ', line, 0)
  }

  function HeadingText(title: string): string {
    "## " + title
  }

  /** At most three spaces, then the heading, then nothing, a space or a line break. */
  predicate Qualifies(line: string, title: string) {
    var pattern := HeadingText(title);
    var trimmed := line[Spaces(line)..];
    && Spaces(line) <= 3 && HasPrefix(pattern, trimmed)
    && (|trimmed| == |pattern| || trimmed[|pattern|] in {'\n', '\r', ' '})
  }

  function FirstHeading(lines: seq<Line>, title: string): Option<nat> {
    if lines == [] then None
    else if Qualifies(lines[0].text, title) then Some(lines[0].start)
    else FirstHeading(lines[1..], title)
  }

  method FindH2Heading(content: string, title: string) returns (r: Option<nat>)
    ensures r == FirstHeading(LinesFrom(content, 0), title)
  {
    var lines := LineOffsets(content);
    for k := 0 to |lines|
      invariant FirstHeading(lines[k..], title) == FirstHeading(LinesFrom(content, 0), title)
    {
      assert lines[k..][0] == lines[k] && lines[k..][1..] == lines[k + 1..];
      var line := lines[k].text;
      var leadingSpaces := Spaces(line);
      if leadingSpaces > 3 {
        continue;
      }
      var trimmed := line[leadingSpaces..];
      var pattern := HeadingText(title);
      if HasPrefix(pattern, trimmed) {
        var after := trimmed[|pattern|..];
        if after == "" || after[0] == '\n' || after[0] == '\r' || after[0] == ' ' {
          return Some(lines[k].start);
        }
      }
    }
    r := None;
  }

  /** What is at position p of the text, told without lines: the start of a line, n spaces, the heading,
      and then the end of the text, a space or a line break. */
  predicate HeadingAt(s: string, title: string, p: nat, n: nat) {
    var q := p + n + |HeadingText(title)|;
    && StartsLine(s, p) && n <= 3 && OccursAt(HeadingText(title), s, p + n)
    && (forall k :: p <= k < p + n ==> s[k] == ' ')
    && (q == |s| || s[q] in {'\n', '\r', ' '})
  }

  ghost predicate IsHeading(s: string, title: string, p: nat) {
    exists n: nat :: HeadingAt(s, title, p, n)
  }

  lemma {:induction false} SpacesAre(line: string, n: nat)
    requires n <= |line| && (forall k :: 0 <= k < n ==> line[k] == ' ') && (n < |line| ==> line[n] != ' ')
    ensures Spaces(line) == n
  {
  }

  /** A pattern in the rest of a line, seen in the text. */
  lemma {:induction false} PrefixInText(pattern: string, line: string, n: nat, s: string, p: nat)
    requires p + |line| <= |s| && line == s[p..p + |line|] && n <= |line|
    ensures HasPrefix(pattern, line[n..]) <==> n + |pattern| <= |line| && OccursAt(pattern, s, p + n)
  {
    var rest := line[n..];
    if n + |pattern| <= |line| {
      assert forall t :: 0 <= t < |pattern| ==> (pattern[t] == rest[0 + t] <==> pattern[t] == s[p + n + t]);
    }
  }

  /** The line that starts at p qualifies exactly when the text has the heading there. */
  lemma {:induction false} QualifiesIsHeading(s: string, title: string, p: nat)
    requires StartsLine(s, p) && '\n' !in title && '\r' !in title
    ensures Qualifies(LineAt(s, p).text, title) <==> IsHeading(s, title, p)
  {
    var line := LineAt(s, p).text;
    LinePrefix(s, p);
    if Qualifies(line, title) {
      QualifyingIsHeading(s, title, p);
    }
    if n: nat :| HeadingAt(s, title, p, n) {
      HeadingQualifies(s, title, p, n);
    }
  }

  /** The line is the text from p on, up to its line break or its end. */
  lemma {:induction false} LinePrefix(s: string, p: nat)
    requires StartsLine(s, p)
    ensures var line := LineAt(s, p).text;
            && p + |line| <= |s| && line == s[p..p + |line|] && '\n' !in line
            && (p + |line| == |s| || s[p + |line|] == '\n' || s[p + |line|] == '\r')
  {
  }

  lemma {:induction false} QualifyingIsHeading(s: string, title: string, p: nat)
    requires StartsLine(s, p) && Qualifies(LineAt(s, p).text, title)
    ensures IsHeading(s, title, p)
  {
    var line := LineAt(s, p).text;
    LinePrefix(s, p);
    PatternInText(HeadingText(title), line, Spaces(line), s, p);
    assert HeadingAt(s, title, p, Spaces(line));
  }

  lemma {:induction false} PatternInText(pattern: string, line: string, n: nat, s: string, p: nat)
    requires p + |line| <= |s| && line == s[p..p + |line|] && n == Spaces(line)
    requires p + |line| == |s| || s[p + |line|] == '\n' || s[p + |line|] == '\r'
    requires HasPrefix(pattern, line[n..])
    requires |line[n..]| == |pattern| || line[n..][|pattern|] in {'\n', '\r', ' '}
    ensures OccursAt(pattern, s, p + n) && forall k :: p <= k < p + n ==> s[k] == ' '
    ensures p + n + |pattern| == |s| || s[p + n + |pattern|] in {'\n', '\r', ' '}
  {
    PrefixInText(pattern, line, n, s, p);
    EndInText(line, n + |pattern|, s, p);
    assert forall k :: p <= k < p + n ==> s[k] == line[k - p];
  }

  /** Past the pattern the line ends, or has the character the text has. */
  lemma {:induction false} EndInText(line: string, e: nat, s: string, p: nat)
    requires p + |line| <= |s| && line == s[p..p + |line|] && e <= |line|
    ensures e < |line| ==> line[e] == s[p + e]
  {
  }

  lemma {:induction false} HeadingQualifies(s: string, title: string, p: nat, n: nat)
    requires HeadingAt(s, title, p, n) && '\n' !in title && '\r' !in title
    ensures Qualifies(LineAt(s, p).text, title)
  {
    var line, pattern := LineAt(s, p).text, HeadingText(title);
    LinePrefix(s, p);
    HeadingInLine(s, title, p, n);
    SpacesOfHeading(s, p, line, n, pattern);
    PrefixInText(pattern, line, n, s, p);
    EndInText(line, n + |pattern|, s, p);
  }

  lemma {:induction false} SpacesOfHeading(s: string, p: nat, line: string, n: nat, pattern: string)
    requires p + |line| <= |s| && line == s[p..p + |line|] && n + |pattern| <= |line|
    requires pattern != "" && pattern[0] != ' ' && OccursAt(pattern, s, p + n)
    requires forall k :: p <= k < p + n ==> s[k] == ' '
    ensures Spaces(line) == n
  {
    assert forall k :: 0 <= k < n ==> line[k] == s[p + k];
    assert line[n] == s[p + n + 0] == pattern[0];
    SpacesAre(line, n);
  }

  lemma {:induction false} NoBreakInPattern(title: string)
    requires '\n' !in title && '\r' !in title
    ensures var pattern := HeadingText(title);
            && |pattern| == |title| + 3 && pattern[0] == '#'
            && forall t :: 0 <= t < |pattern| ==> pattern[t] != '\n' && pattern[t] != '\r'
  {
  }

  /** A heading has no line break before its end, so it lies within its line. */
  lemma {:induction false} HeadingInLine(s: string, title: string, p: nat, n: nat)
    requires HeadingAt(s, title, p, n) && '\n' !in title && '\r' !in title
    ensures n + |HeadingText(title)| <= |LineAt(s, p).text| && HeadingText(title) != "" && HeadingText(title)[0] == '#'
  {
    var pattern, line := HeadingText(title), LineAt(s, p).text;
    LinePrefix(s, p);
    NoBreakInPattern(title);
    forall m | p <= m < p + n + |pattern| ensures s[m] != '\n' && s[m] != '\r' {
      if m >= p + n {
        assert pattern[m - (p + n)] == s[p + n + (m - (p + n))];
      }
    }
  }

  /** No heading starts inside a line. */
  lemma {:induction false} NoHeadingInside(s: string, title: string, i: nat)
    requires StartsLine(s, i)
    ensures forall k :: i < k < NextStart(s, i) ==> !IsHeading(s, title, k)
  {
    LineIsSlice(s, i);
    forall k | i < k < NextStart(s, i) ensures !StartsLine(s, k) {
      assert s[k - 1] != '\n';
    }
  }

  ghost predicate IsFirstHeading(s: string, title: string, i: nat, r: Option<nat>) {
    match r
    case Some(p) => i <= p && IsHeading(s, title, p) && forall k :: i <= k < p ==> !IsHeading(s, title, k)
    case None => forall k :: i <= k <= |s| ==> !IsHeading(s, title, k)
  }

  lemma {:induction false} FirstHeadingFinds(s: string, title: string, i: nat)
    requires i <= |s| && (i < |s| ==> StartsLine(s, i)) && '\n' !in title && '\r' !in title
    ensures IsFirstHeading(s, title, i, FirstHeading(LinesFrom(s, i), title))
    decreases |s| - i
  {
    if i < |s| {
      var j := NextStart(s, i);
      LineIsSlice(s, i);
      QualifiesIsHeading(s, title, i);
      NoHeadingInside(s, title, i);
      FirstHeadingFinds(s, title, j);
      FirstOfCons(LineAt(s, i), LinesFrom(s, j), title);
      FirstFrom(s, title, i, j, FirstHeading(LinesFrom(s, j), title));
    } else {
      NoHeadingAtEnd(s, title);
    }
  }

  lemma {:induction false} NoHeadingAtEnd(s: string, title: string)
    ensures !IsHeading(s, title, |s|)
  {
  }

  lemma {:induction false} FirstOfCons(l: Line, rest: seq<Line>, title: string)
    ensures FirstHeading([l] + rest, title) == if Qualifies(l.text, title) then Some(l.start) else FirstHeading(rest, title)
  {
    assert ([l] + rest)[1..] == rest;
  }

  lemma {:induction false} FirstFrom(s: string, title: string, i: nat, j: nat, r: Option<nat>)
    requires i < j <= |s| && IsFirstHeading(s, title, j, r) && forall k :: i < k < j ==> !IsHeading(s, title, k)
    ensures IsFirstHeading(s, title, i, if IsHeading(s, title, i) then Some(i) else r)
  {
  }

  /** The search returns the first line start of the text that begins a level-2 heading of that title. */
  lemma {:induction false} HeadingFoundIsFirst(s: string, title: string)
    requires '\n' !in title && '\r' !in title
    ensures IsFirstHeading(s, title, 0, FirstHeading(LinesFrom(s, 0), title))
  {
    FirstHeadingFinds(s, title, 0);
  }

  /** What is returned is the start of the line; it is the offset of the `##`, as documented, exactly when
      the heading is not indented. */
  lemma {:induction false} ReturnsLineStart(s: string, title: string, p: nat, n: nat)
    requires FirstHeading(LinesFrom(s, 0), title) == Some(p) && HeadingAt(s, title, p, n)
    ensures OccursAt(HeadingText(title), s, p) <==> n == 0
  {
    assert n > 0 ==> s[p + 0] == ' ' != HeadingText(title)[0];
  }

  /* ---- The contract ---- */

  const FENCE := "```json"
  const CLOSE := "```"

  datatype PlanError = MissingFence | UnclosedFence | BadJson

  /** The fenced text of a section. */
  function Fenced(section: string, fence: string, close: string): Result<string, PlanError> {
    match Find(fence, section, 0)
    case None => Err(MissingFence)
    case Some(pos) =>
      assert OccursAt(fence, section, pos);
      var json := section[pos + |fence|..];
      match Find(close, json, 0)
      case None => Err(UnclosedFence)
      case Some(end) => assert OccursAt(close, json, end); Ok(json[..end])
  }

  /** The contract of a plan; `parse` trims and parses JSON, which is not part of this model. */
  function ExtractContract<C>(content: string, parse: string -> Option<C>): Result<Option<C>, PlanError> {
    match FirstHeading(LinesFrom(content, 0), "Contract")
    case None => Ok(None)
    case Some(h) =>
      match Fenced(content[if h <= |content| then h else |content|..], FENCE, CLOSE)
      case Err(e) => Err(e)
      case Ok(json) => match parse(json) case Some(c) => Ok(Some(c)) case None => Err(BadJson)
  }

  lemma {:induction false} FindInRest(pat: string, s: string, i: nat)
    requires i <= |s| && pat != ""
    ensures Find(pat, s[i..], 0)
            == match Find(pat, s, i) case Some(k) => Some(k - i) case None => None
  {
    var rest, a, b := s[i..], Find(pat, s[i..], 0), Find(pat, s, i);
    forall k: nat | k <= |rest| ensures OccursAt(pat, rest, k) <==> OccursAt(pat, s, i + k) {
      if k + |pat| <= |rest| {
        assert forall t :: 0 <= t < |pat| ==> (pat[t] == rest[k + t] <==> pat[t] == s[i + k + t]);
      }
    }
    assert a.Some? ==> OccursAt(pat, s, i + a.value);
    assert b.Some? ==> OccursAt(pat, rest, b.value - i);
  }

  /** The first occurrence at or after `from` is at k. */
  predicate FirstAt(pat: string, s: string, from: nat, k: nat) {
    from <= k && OccursAt(pat, s, k) && forall i :: from <= i < k ==> !OccursAt(pat, s, i)
  }

  /** There is no occurrence at or after `from`. */
  predicate NoneFrom(pat: string, s: string, from: nat) {
    forall i :: from <= i <= |s| ==> !OccursAt(pat, s, i)
  }

  lemma {:induction false} FirstAtIsFind(pat: string, s: string, from: nat, k: nat)
    requires from <= |s| && FirstAt(pat, s, from, k)
    ensures Find(pat, s, from) == Some(k)
  {
  }

  lemma {:induction false} FindAfter(s: string, h: nat, fence: string, j: nat)
    requires h <= |s| && fence != "" && FirstAt(fence, s, h, j)
    ensures Find(fence, s[h..], 0) == Some(j - h) && j + |fence| <= |s|
    ensures s[h..][j - h + |fence|..] == s[j + |fence|..]
  {
    FirstAtIsFind(fence, s, h, j);
    FindInRest(fence, s, h);
  }

  lemma {:induction false} FencedIn(s: string, h: nat, fence: string, close: string, j: nat, e: nat)
    requires h <= |s| && fence != "" && close != "" && FirstAt(fence, s, h, j) && FirstAt(close, s, j + |fence|, e)
    ensures Fenced(s[h..], fence, close) == Ok(s[j + |fence|..e])
  {
    var from := j + |fence|;
    FindAfter(s, h, fence, j);
    FindAfter(s, from, close, e);
    FencedAt(s[h..], fence, close, j - h, s[from..], e - from);
    RestUpTo(s, from, e);
  }

  lemma {:induction false} FencedAt(section: string, fence: string, close: string, pos: nat, rest: string, end: nat)
    requires Find(fence, section, 0) == Some(pos) && pos + |fence| <= |section| && rest == section[pos + |fence|..]
    requires Find(close, rest, 0) == Some(end) && end <= |rest|
    ensures Fenced(section, fence, close) == Ok(rest[..end])
  {
  }

  lemma {:induction false} RestUpTo(s: string, from: nat, e: nat)
    requires from <= e <= |s|
    ensures s[from..][..e - from] == s[from..e]
  {
  }

  lemma {:induction false} FenceUnclosed(s: string, h: nat, fence: string, close: string, j: nat)
    requires h <= |s| && fence != "" && close != "" && FirstAt(fence, s, h, j) && NoneFrom(close, s, j + |fence|)
    ensures Fenced(s[h..], fence, close) == Err(UnclosedFence)
  {
    FindAfter(s, h, fence, j);
    FindInRest(close, s, j + |fence|);
  }

  lemma {:induction false} FenceMissing(s: string, h: nat, fence: string, close: string)
    requires h <= |s| && fence != "" && NoneFrom(fence, s, h)
    ensures Fenced(s[h..], fence, close) == Err(MissingFence)
  {
    FindInRest(fence, s, h);
  }

  lemma {:induction false} ContractAfter<C>(content: string, parse: string -> Option<C>, h: nat)
    requires IsFirstHeading(content, "Contract", 0, Some(h))
    ensures h <= |content|
    ensures ExtractContract(content, parse)
            == match Fenced(content[h..], FENCE, CLOSE)
               case Err(e) => Err(e)
               case Ok(json) => match parse(json) case Some(c) => Ok(Some(c)) case None => Err(BadJson)
  {
    SameFirst(content, "Contract", h);
  }

  /** A plan has no contract, which is no error, exactly when it has no heading for one. */
  lemma {:induction false} NoContractExactly<C>(content: string, parse: string -> Option<C>)
    ensures ExtractContract(content, parse) == Ok(None) <==> IsFirstHeading(content, "Contract", 0, None)
  {
    HeadingFoundIsFirst(content, "Contract");
  }

  lemma {:induction false} SameFirst(s: string, title: string, p: nat)
    requires IsFirstHeading(s, title, 0, Some(p)) && '\n' !in title && '\r' !in title
    ensures p <= |s| && FirstHeading(LinesFrom(s, 0), title) == Some(p)
  {
    HeadingFoundIsFirst(s, title);
  }

  /** The contract is the text of the first JSON fence anywhere after the heading, up to the first closing
      fence after it; so a contract section without a fence takes that of a later section. */
  lemma {:induction false} ContractIsFirstFence<C>(content: string, parse: string -> Option<C>, h: nat, j: nat, e: nat)
    requires IsFirstHeading(content, "Contract", 0, Some(h))
    requires FirstAt(FENCE, content, h, j) && FirstAt(CLOSE, content, j + |FENCE|, e)
    ensures ExtractContract(content, parse)
            == match parse(content[j + |FENCE|..e]) case Some(c) => Ok(Some(c)) case None => Err(BadJson)
  {
    ContractAfter(content, parse, h);
    FencedIn(content, h, FENCE, CLOSE, j, e);
  }

  /** A missing fence is reported exactly when the rest of the plan has none. */
  lemma {:induction false} ContractErrors<C>(content: string, parse: string -> Option<C>, h: nat)
    requires IsFirstHeading(content, "Contract", 0, Some(h))
    ensures NoneFrom(FENCE, content, h) ==> ExtractContract(content, parse) == Err(MissingFence)
    ensures Find(FENCE, content, h).Some? ==> ExtractContract(content, parse) != Err(MissingFence)
  {
    ContractAfter(content, parse, h);
    if NoneFrom(FENCE, content, h) {
      FenceMissing(content, h, FENCE, CLOSE);
    }
    FindInRest(FENCE, content, h);
  }

  lemma {:induction false} ContractUnclosed<C>(content: string, parse: string -> Option<C>, h: nat, j: nat)
    requires IsFirstHeading(content, "Contract", 0, Some(h))
    requires FirstAt(FENCE, content, h, j) && NoneFrom(CLOSE, content, j + |FENCE|)
    ensures ExtractContract(content, parse) == Err(UnclosedFence)
  {
    ContractAfter(content, parse, h);
    FenceUnclosed(content, h, FENCE, CLOSE, j);
  }

  /* ---- Sections ---- */

  /** After n spaces, at most three, the mark of a heading of level 1 or 2. */
  predicate MarksHeading(s: string, p: nat, n: nat) {
    && n <= 3 && (OccursAt("# ", s, p + n) || OccursAt("## ", s, p + n))
    && forall k :: p <= k < p + n ==> s[k] == ' '
  }

  /** A line that opens a section. */
  ghost predicate BreaksSection(s: string, p: nat) {
    StartsLine(s, p) && exists n: nat :: MarksHeading(s, p, n)
  }

  /** The section whose heading starts at h goes to the next line that opens one, or to the end. */
  ghost predicate SectionEndsAt(s: string, h: nat, q: nat) {
    h < q <= |s| && (q < |s| ==> BreaksSection(s, q)) && forall k :: h < k < q ==> !BreaksSection(s, k)
  }

  predicate HasFenceWithin(s: string, h: nat, q: nat) {
    exists i :: h <= i <= q && i + |FENCE| <= q && OccursAt(FENCE, s, i)
  }

  lemma {:induction false} FenceHasNoBreak(s: string, i: nat, q: nat)
    requires OccursAt(FENCE, s, i) && i < q && StartsLine(s, q)
    ensures i + |FENCE| <= q
  {
    if q < i + |FENCE| {
      assert FENCE[q - 1 - i] == s[i + (q - 1 - i)] == '\n';
      FenceIsOneLine();
    }
  }

  lemma {:induction false} FenceIsOneLine()
    ensures forall t :: 0 <= t < |FENCE| ==> FENCE[t] != '\n'
  {
  }

  /** A contract section without a fence is an error, as documented, if and only if no later section has a
      fence. */
  lemma {:induction false} FencelessSectionExactly<C>(content: string, parse: string -> Option<C>, h: nat, q: nat)
    requires IsFirstHeading(content, "Contract", 0, Some(h)) && SectionEndsAt(content, h, q)
    requires !HasFenceWithin(content, h, q)
    ensures ExtractContract(content, parse) == Err(MissingFence) <==> NoneFrom(FENCE, content, q)
  {
    ContractErrors(content, parse, h);
    if i :| h <= i <= |content| && OccursAt(FENCE, content, i) {
      if i < q && q < |content| {
        FenceHasNoBreak(content, i, q);
      }
      assert q <= i;
    }
  }

  const FENCELESS := "## Contract\n" + ("## Data\n" + (FENCE + ("\n{}\n" + (CLOSE + "\n"))))

  lemma {:induction false} TickFound(pat: string, s: string, from: nat, k: nat)
    requires pat != "" && pat[0] == '`' && from <= k && OccursAt(pat, s, k)
    requires forall i :: from <= i < k ==> s[i] != '`'
    ensures FirstAt(pat, s, from, k)
  {
    forall i | from <= i < k ensures !OccursAt(pat, s, i) {
      assert pat[0] != s[i + 0];
    }
  }

  lemma {:induction false} OccursAfter(x: string, pat: string, y: string)
    ensures OccursAt(pat, x + (pat + y), |x|)
    ensures forall i :: 0 <= i < |x| ==> (x + (pat + y))[i] == x[i]
  {
  }

  /** For one: here the contract section holds nothing at all, and the data of the next one is taken for the
      contract. */
  lemma {:induction false} DataTakenForContract<C>(parse: string -> Option<C>)
    ensures IsFirstHeading(FENCELESS, "Contract", 0, Some(0))
    ensures SectionEndsAt(FENCELESS, 0, 12) && !HasFenceWithin(FENCELESS, 0, 12)
    ensures ExtractContract(FENCELESS, parse)
            == match parse("\n{}\n") case Some(c) => Ok(Some(c)) case None => Err(BadJson)
  {
    FencelessHeading();
    FencelessFence();
    NoFenceBefore(FENCELESS, 12, 20);
    ContractIsFirstFence(FENCELESS, parse, 0, 20, 31);
  }

  lemma {:induction false} NoFenceBefore(s: string, q: nat, j: nat)
    requires FirstAt(FENCE, s, 0, j) && q <= j
    ensures !HasFenceWithin(s, 0, q)
  {
    forall i | 0 <= i < j ensures !OccursAt(FENCE, s, i) {
    }
    assert 0 < |FENCE|;
  }

  lemma {:induction false} FencelessHeading()
    ensures IsFirstHeading(FENCELESS, "Contract", 0, Some(0)) && SectionEndsAt(FENCELESS, 0, 12)
  {
    var s, first := FENCELESS, "## Contract\n";
    var rest := "# Data\n" + (FENCE + ("\n{}\n" + (CLOSE + "\n")));
    assert s == first + ("#" + rest);
    HeadingLineThenMark(rest);
  }

  lemma {:induction false} HeadingLineThenMark(rest: string)
    requires HasPrefix("# ", rest)
    ensures var s := "## Contract\n" + ("#" + rest);
            IsFirstHeading(s, "Contract", 0, Some(0)) && SectionEndsAt(s, 0, 12)
  {
    var first := "## Contract\n";
    var s := first + ("#" + rest);
    assert |first| == 12 && first[11] == '\n' && forall k :: 0 <= k < 11 ==> first[k] != '\n';
    assert forall k :: 0 <= k < 12 ==> s[k] == first[k];
    assert HeadingAt(s, "Contract", 0, 0) by {
      assert HeadingText("Contract") == first[..11];
    }
    assert MarksHeading(s, 12, 0) by {
      assert rest[0] == "# "[0] && rest[1] == "# "[1];
      assert s[12] == '#' && s[13] == '#' && s[14] == ' ';
    }
  }

  lemma {:induction false} FencelessFence()
    ensures FirstAt(FENCE, FENCELESS, 0, 20) && FirstAt(CLOSE, FENCELESS, 27, 31)
    ensures FENCELESS[27..31] == "\n{}\n"
  {
    var before, body, after := "## Contract\n" + "## Data\n", "\n{}\n", CLOSE + "\n";
    var s := FENCELESS;
    assert s == before + (FENCE + (body + after));
    OccursAfter(before, FENCE, body + after);
    TickFound(FENCE, s, 0, 20);
    assert s == (before + FENCE + body) + (CLOSE + "\n");
    OccursAfter(before + FENCE + body, CLOSE, "\n");
    assert |before + FENCE| == 27;
    assert forall i :: 27 <= i < 31 ==> s[i] == body[i - 27];
    TickFound(CLOSE, s, 27, 31);
  }
}
