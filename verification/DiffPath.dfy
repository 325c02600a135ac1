/** The file path that a diff section is about. */
module DiffPath {
  import opened Common
  import opened Text
  import opened DiffSections

  /* ---- Lines of a section ---- */

  /** The lines of a text as Rust's `str::lines` yields them: a final line break ends the last line. */
  function Lines(s: string): seq<string>
    decreases |s|
  {
    if s == "" then []
    else
      var nl := Find("\n", s, 0);
      if nl.None? then [s]
      else [StripCarriageReturn(s[..nl.value])] + Lines(s[nl.value + 1..])
  }

  predicate IsLine(line: string) {
    '\n' !in line && (line == "" || line[|line| - 1] != '\r')
  }

  lemma {:induction false} FirstBreak(line: string, tail: string)
    requires IsLine(line)
    ensures Find("\n", line + "\n" + tail, 0) == Some(|line|)
  {
    var s := line + "\n" + tail;
    assert OccursAt("\n", s, |line|);
    forall k | 0 <= k < |line| ensures !OccursAt("\n", s, k) {
      assert s[k + 0] == line[k] != "\n"[0];
    }
  }

  lemma {:induction false} LinesOfCons(line: string, tail: string)
    requires IsLine(line)
    ensures Lines(line + "\n" + tail) == [line] + Lines(tail)
  {
    var s := line + "\n" + tail;
    FirstBreak(line, tail);
    assert s[..|line|] == line && s[|line| + 1..] == tail;
  }

  lemma {:induction false} LinesOfLast(line: string)
    requires IsLine(line) && line != ""
    ensures Lines(line) == [line]
  {
    forall k | 0 <= k < |line| ensures !OccursAt("\n", line, k) {
      assert line[k + 0] == line[k] != "\n"[0];
    }
  }

  /** Lines joined by line breaks come apart again, unless the last is empty. */
  lemma {:induction false} LinesOfJoin(lines: seq<string>)
    requires forall i :: 0 <= i < |lines| ==> IsLine(lines[i])
    requires lines != [] ==> lines[|lines| - 1] != ""
    ensures Lines(Join(lines)) == lines
  {
    if |lines| == 1 {
      LinesOfLast(lines[0]);
    } else if lines != [] {
      LinesOfJoin(lines[1..]);
      LinesOfCons(lines[0], Join(lines[1..]));
      assert lines == [lines[0]] + lines[1..];
    }
  }

  /* ---- The old and new path lines ---- */

  const MINUS := "--- "
  const PLUS := "+++ "
  const DEV_NULL := "/dev/null"

  datatype FilePaths = FilePaths(minus: Option<string>, plus: Option<string>)

  predicate IsPathLine(line: string) {
    HasPrefix(PLUS, line) || HasPrefix(MINUS, line)
  }

  /** One line read: it may set either path. */
  function NotePath(p: FilePaths, line: string): FilePaths {
    if HasPrefix(PLUS, line) then p.(plus := Some(line[|PLUS|..]))
    else if HasPrefix(MINUS, line) then p.(minus := Some(line[|MINUS|..]))
    else p
  }

  predicate Both(p: FilePaths) {
    p.minus.Some? && p.plus.Some?
  }

  /** Reading stops at the first line after which both paths are known. */
  function NotePaths(p: FilePaths, lines: seq<string>): FilePaths
    decreases |lines|
  {
    if lines == [] || Both(p) then p else NotePaths(NotePath(p, lines[0]), lines[1..])
  }

  method ScanPaths(lines: seq<string>) returns (p: FilePaths)
    ensures p == NotePaths(FilePaths(None, None), lines)
  {
    p := FilePaths(None, None);
    for i := 0 to |lines|
      invariant !Both(p) && NotePaths(p, lines[i..]) == NotePaths(FilePaths(None, None), lines)
    {
      p := NotePath(p, lines[i]);
      assert lines[i..][1..] == lines[i + 1..];
      if Both(p) {
        break;
      }
    }
  }

  /** Lines before the path lines that are no path lines themselves are passed over. */
  lemma {:induction false} PathsSkip(p: FilePaths, before: seq<string>, lines: seq<string>)
    requires forall i :: 0 <= i < |before| ==> !IsPathLine(before[i])
    ensures NotePaths(p, before + lines) == NotePaths(p, lines)
  {
    if before == [] {
      assert before + lines == lines;
    } else {
      assert (before + lines)[1..] == before[1..] + lines;
      PathsSkip(p, before[1..], lines);
    }
  }

  /** Whatever the hunks contain, they are not read: the first pair of path lines decides. */
  lemma {:induction false} FirstPairDecides(before: seq<string>, minus: string, plus: string, hunks: seq<string>)
    requires forall i :: 0 <= i < |before| ==> !IsPathLine(before[i])
    ensures NotePaths(FilePaths(None, None), before + [MINUS + minus, PLUS + plus] + hunks)
            == FilePaths(Some(minus), Some(plus))
  {
    var rest := [MINUS + minus, PLUS + plus] + hunks;
    assert before + [MINUS + minus, PLUS + plus] + hunks == before + rest;
    PathsSkip(FilePaths(None, None), before, rest);
    NotesBothPaths(minus, plus);
    var none, one := FilePaths(None, None), FilePaths(Some(minus), None);
    assert rest[1..] == [PLUS + plus] + hunks && rest[1..][1..] == hunks;
    assert NotePaths(none, rest) == NotePaths(one, rest[1..]) == NotePaths(NotePath(one, PLUS + plus), hunks);
  }

  lemma {:induction false} NotesBothPaths(minus: string, plus: string)
    ensures NotePath(FilePaths(None, None), MINUS + minus) == FilePaths(Some(minus), None)
    ensures NotePath(FilePaths(Some(minus), None), PLUS + plus) == FilePaths(Some(minus), Some(plus))
  {
    PrefixOfConcat(MINUS, minus);
    PrefixOfConcat(PLUS, plus);
    assert PLUS[0] != (MINUS + minus)[0 + 0];
  }

  /* ---- Quoted paths ---- */

  datatype QuoteScan = QuoteScan(inQuote: bool, quoteStart: nat, lastQuoted: Option<string>)

  /** A quote read at position i closes the open pair, or opens one. */
  function ReadQuote(s: string, r: QuoteScan, i: nat): QuoteScan
    requires i < |s| && (r.inQuote ==> r.quoteStart < i)
  {
    if r.inQuote then QuoteScan(false, r.quoteStart, Some(s[r.quoteStart + 1..i]))
    else QuoteScan(true, i, r.lastQuoted)
  }

  /** The variables of the scan after the first n characters. */
  function ScanQuotes(s: string, n: nat): (r: QuoteScan)
    requires n <= |s|
    ensures r.inQuote ==> r.quoteStart < n
  {
    if n == 0 then QuoteScan(false, 0, None)
    else if s[n - 1] == '"' then ReadQuote(s, ScanQuotes(s, n - 1), n - 1)
    else ScanQuotes(s, n - 1)
  }

  function LastQuotedOf(s: string): Option<string> {
    ScanQuotes(s, |s|).lastQuoted
  }

  method LastQuoted(rest: string) returns (lastQuoted: Option<string>)
    ensures lastQuoted == LastQuotedOf(rest)
  {
    lastQuoted := None;
    var inQuote, quoteStart := false, 0;
    for i := 0 to |rest|
      invariant QuoteScan(inQuote, quoteStart, lastQuoted) == ScanQuotes(rest, i)
    {
      if rest[i] == '"' {
        if inQuote {
          lastQuoted := Some(rest[quoteStart + 1..i]);
          inQuote := false;
        } else {
          quoteStart := i;
          inQuote := true;
        }
      }
    }
  }

  function CountQuotes(s: string, n: nat): nat
    requires n <= |s|
  {
    if n == 0 then 0 else CountQuotes(s, n - 1) + if s[n - 1] == '"' then 1 else 0
  }

  predicate NoQuoteIn(s: string, a: nat, b: nat)
    requires b <= |s|
  {
    forall k :: a <= k < b ==> s[k] != '"'
  }

  /** `text` stands between the quotes a and b, which are neighbours; a is the first of its pair. */
  predicate IsPair(s: string, a: nat, b: nat, text: string) {
    && a < b < |s| && s[a] == '"' && s[b] == '"' && text == s[a + 1..b]
    && NoQuoteIn(s, a + 1, b) && CountQuotes(s, a) % 2 == 0
  }

  /** The scan is inside a pair after an odd number of quotes, and knows where that pair began. */
  lemma {:induction false} ScanParity(s: string, n: nat)
    requires n <= |s|
    ensures var r := ScanQuotes(s, n);
            && r.inQuote == (CountQuotes(s, n) % 2 == 1)
            && (r.inQuote ==> s[r.quoteStart] == '"' && NoQuoteIn(s, r.quoteStart + 1, n)
                              && CountQuotes(s, r.quoteStart) + 1 == CountQuotes(s, n))
  {
    if n > 0 {
      ScanParity(s, n - 1);
    }
  }

  /** The scan keeps the last complete pair: after its end at most the quote of an open pair was read. */
  lemma {:induction false} ScanFindsLastPair(s: string, n: nat) returns (a: nat, b: nat)
    requires n <= |s|
    ensures var r := ScanQuotes(s, n);
            && (r.lastQuoted.Some? <==> CountQuotes(s, n) >= 2)
            && (r.lastQuoted.Some? ==> b < n && IsPair(s, a, b, r.lastQuoted.value)
                                       && CountQuotes(s, b + 1) == CountQuotes(s, n) - CountQuotes(s, n) % 2)
  {
    a, b := 0, 0;
    if n > 0 {
      a, b := ScanFindsLastPair(s, n - 1);
      ScanParity(s, n - 1);
      var r := ScanQuotes(s, n - 1);
      if s[n - 1] == '"' && r.inQuote {
        a, b := r.quoteStart, n - 1;
      }
    }
  }

  /* ---- Prefixes ---- */

  function StripPrefixPath(path: string): string {
    var trimmed := TrimQuotes(path);
    if HasPrefix("b/", trimmed) then trimmed[2..]
    else if HasPrefix("a/", trimmed) then trimmed[2..]
    else trimmed
  }

  lemma {:induction false} StripPlain(p: string)
    requires '"' !in p
    ensures StripPrefixPath("b/" + p) == p && StripPrefixPath("a/" + p) == p
    ensures '"' !in StripPrefixPath(p)
  {
    assert ("b/" + p)[2..] == p && ("a/" + p)[2..] == p;
    assert HasPrefix("b/", "b/" + p) && HasPrefix("a/", "a/" + p);
    assert ("a/" + p)[0 + 0] == 'a' != "b/"[0];
  }

  function Quotes(n: nat): (s: string)
    ensures |s| == n && forall k :: 0 <= k < n ==> s[k] == '"'
  {
    seq(n, _ => '"')
  }

  /** A text between any numbers of quotes loses them, and then the side that it names. */
  lemma {:induction false} StripQuoted(m: nat, core: string, n: nat)
    requires core != "" && core[0] != '"' && core[|core| - 1] != '"'
    ensures StripPrefixPath(Quotes(m) + core + Quotes(n))
            == if 2 <= |core| && (core[0] == 'a' || core[0] == 'b') && core[1] == '/' then core[2..] else core
  {
    TrimsToCore(m, core, n);
    HasSide('a', core);
    HasSide('b', core);
  }

  lemma {:induction false} HasSide(side: char, s: string)
    ensures HasPrefix([side] + "/", s) <==> 2 <= |s| && s[0] == side && s[1] == '/'
    ensures [side] + "/" == [side, '/']
  {
    assert ([side] + "/")[0] == side && ([side] + "/")[1] == '/';
    if HasPrefix([side] + "/", s) {
      assert s[0 + 0] == side && s[0 + 1] == '/';
    }
  }

  lemma {:induction false} TrimsToCore(m: nat, core: string, n: nat)
    requires core != "" && core[0] != '"' && core[|core| - 1] != '"'
    ensures TrimQuotes(Quotes(m) + core + Quotes(n)) == core
  {
    var s := Quotes(m) + core + Quotes(n);
    assert s[m] == core[0] && s[m + |core| - 1] == core[|core| - 1];
    assert forall k :: 0 <= k < m ==> s[k] == '"';
    assert forall k :: m + |core| <= k < |s| ==> s[k] == '"';
    var lo := TrimmedStart('"', s, 0);
    assert lo == m;
    assert TrimmedEnd('"', s, lo, |s|) == m + |core|;
  }

  /* ---- The header ---- */

  const B_SIDE := " b/"

  function PlainBPath(rest: string): Option<string> {
    match Find(B_SIDE, rest, 0)
    case Some(pos) => Some(StripPrefixPath(rest[pos + 1..]))
    case None => None
  }

  function BPathOf(rest: string): Option<string> {
    if '"' in rest && LastQuotedOf(rest).Some? then Some(StripPrefixPath(LastQuotedOf(rest).value))
    else PlainBPath(rest)
  }

  function BPathFromHeader(header: string): Option<string> {
    if HasPrefix(HEADER, header) then BPathOf(header[|HEADER|..]) else None
  }

  method ExtractBPathFromHeader(header: string) returns (path: Option<string>)
    ensures path == BPathFromHeader(header)
  {
    if !HasPrefix(HEADER, header) {
      return None;
    }
    var rest := header[|HEADER|..];
    if '"' in rest {
      var lastQuoted := LastQuoted(rest);
      if lastQuoted.Some? {
        return Some(StripPrefixPath(lastQuoted.value));
      }
    }
    path := PlainBPath(rest);
  }

  /* ---- The whole section ---- */

  function PathOfLines(lines: seq<string>): Option<string> {
    if lines == [] then None
    else
      var p := NotePaths(FilePaths(None, None), lines);
      if p.plus == Some(DEV_NULL) && p.minus.Some? then Some(StripPrefixPath(p.minus.value))
      else if p.minus == Some(DEV_NULL) && p.plus.Some? then Some(StripPrefixPath(p.plus.value))
      else BPathFromHeader(lines[0])
  }

  function FilePath(section: string): Option<string> {
    PathOfLines(Lines(section))
  }

  method ExtractFilePath(section: string) returns (path: Option<string>)
    ensures path == FilePath(section)
  {
    var lines := Lines(section);
    if lines == [] {
      return None;
    }
    var p := ScanPaths(lines);
    if p.plus == Some(DEV_NULL) {
      if p.minus.Some? {
        return Some(StripPrefixPath(p.minus.value));
      }
    }
    if p.minus == Some(DEV_NULL) {
      if p.plus.Some? {
        return Some(StripPrefixPath(p.plus.value));
      }
    }
    path := ExtractBPathFromHeader(lines[0]);
  }

  /* ---- What the path of a header is ---- */

  /** The first " b/" of `a/P b/Q` is the separator exactly when P holds none. */
  lemma {:induction false} FirstSide(p: string, q: string)
    ensures Find(B_SIDE, "a/" + p + B_SIDE + q, 0).Some?
    ensures Find(B_SIDE, "a/" + p + B_SIDE + q, 0).value <= |p| + 2
    ensures Find(B_SIDE, "a/" + p + B_SIDE + q, 0) == Some(|p| + 2) <==> !Contains(p, B_SIDE)
  {
    var s := "a/" + p + B_SIDE + q;
    SideOccurs(p, q, |p| + 2);
    forall k: nat | k < |p| + 2 ensures OccursAt(B_SIDE, s, k) <==> k >= 2 && OccursAt(B_SIDE, p, k - 2) {
      SideOccurs(p, q, k);
    }
    if Contains(p, B_SIDE) {
      assert OccursAt(B_SIDE, s, Find(B_SIDE, p, 0).value + 2);
    } else {
      forall k: nat | k < |p| + 2 ensures !OccursAt(B_SIDE, s, k) {
        assert k >= 2 ==> !OccursAt(B_SIDE, p, k - 2);
      }
    }
  }

  lemma {:induction false} SideOccurs(p: string, q: string, k: nat)
    requires k <= |p| + 2
    ensures var s := "a/" + p + B_SIDE + q;
            OccursAt(B_SIDE, s, k) <==> k == |p| + 2 || (k >= 2 && OccursAt(B_SIDE, p, k - 2))
  {
    var s := "a/" + p + B_SIDE + q;
    SideSpelled(s, k);
    if k >= 2 {
      SideSpelled(p, k - 2);
    }
  }

  lemma {:induction false} SideSpelled(s: string, k: nat)
    ensures OccursAt(B_SIDE, s, k) <==> k + 3 <= |s| && s[k] == ' ' && s[k + 1] == 'b' && s[k + 2] == '/'
  {
    if k + 3 <= |s| {
      assert s[k + 0] == s[k];
      assert B_SIDE[0] == ' ' && B_SIDE[1] == 'b' && B_SIDE[2] == '/';
    }
  }

  lemma {:induction false} HeaderPath(rest: string)
    ensures BPathFromHeader(HEADER + rest) == BPathOf(rest)
  {
    PrefixOfConcat(HEADER, rest);
  }

  lemma {:induction false} PlainPathAt(s: string, at: nat)
    requires '"' !in s && Find(B_SIDE, s, 0) == Some(at)
    ensures at + 3 <= |s| && BPathOf(s) == Some(s[at + 3..])
  {
    SideSpelled(s, at);
    var tail := s[at + 1..];
    assert tail == "b/" + s[at + 3..];
    StripPlain(s[at + 3..]);
    assert PlainBPath(s) == Some(StripPrefixPath(tail));
  }

  /** Without quotes the new path of a header is found, unless the old path contains " b/". */
  lemma {:induction false} PlainHeader(p: string, q: string)
    requires '"' !in p && '"' !in q
    ensures BPathFromHeader(HEADER + ("a/" + p + B_SIDE + q)) == Some(q) <==> !Contains(p, B_SIDE)
  {
    HeaderPath("a/" + p + B_SIDE + q);
    FirstSide(p, q);
    PlainPath("a/" + p + B_SIDE + q, |p| + 5, q);
  }

  lemma {:induction false} PlainPath(s: string, n: nat, q: string)
    requires '"' !in s && n <= |s| && s[n..] == q
    requires Find(B_SIDE, s, 0).Some? && Find(B_SIDE, s, 0).value + 3 <= n
    ensures BPathOf(s) == Some(q) <==> Find(B_SIDE, s, 0).value + 3 == n
  {
    var at := Find(B_SIDE, s, 0).value;
    PlainPathAt(s, at);
    assert |s[at + 3..]| == |s| - at - 3;
  }

  lemma {:induction false} ScanSkips(s: string, i: nat, j: nat)
    requires i <= j <= |s| && NoQuoteIn(s, i, j)
    ensures ScanQuotes(s, j) == ScanQuotes(s, i) && CountQuotes(s, j) == CountQuotes(s, i)
    decreases j
  {
    if i < j {
      ScanSkips(s, i, j - 1);
    }
  }

  lemma {:induction false} ScanReads(s: string, i: nat)
    requires i < |s| && s[i] == '"'
    ensures ScanQuotes(s, i + 1) == ReadQuote(s, ScanQuotes(s, i), i)
  {
  }

  lemma {:induction false} CountShifts(s: string, m: nat, p: string, n: nat)
    requires m + n <= |s| && n <= |p| && s[m..m + n] == p[..n]
    ensures CountQuotes(s, m + n) == CountQuotes(s, m) + CountQuotes(p, n)
  {
    if n > 0 {
      assert s[m..m + n][..n - 1] == s[m..m + n - 1] && p[..n][..n - 1] == p[..n - 1];
      assert s[m + n - 1] == s[m..m + n][n - 1] == p[..n][n - 1];
      CountShifts(s, m, p, n - 1);
    }
  }

  function BothQuoted(p: string, q: string): string {
    "\"a/" + p + ("\" \"b/" + q + "\"")
  }

  /** The shape of `"a/P" "b/Q"`, whose old path ends at the quote e. */
  predicate Quoted(s: string, p: string, e: nat, q: string) {
    && e == |p| + 3 && |s| == e + |q| + 6
    && s[0] == '"' && s[1] != '"' && s[2] != '"' && s[3..e] == p && s[e] == '"'
    && s[e + 1] == ' ' && s[e + 2] == '"' && s[e + 3..|s| - 1] == "b/" + q && s[|s| - 1] == '"'
  }

  lemma {:induction false} BothQuotedShape(p: string, q: string)
    ensures Quoted(BothQuoted(p, q), p, |p| + 3, q)
  {
  }

  lemma {:induction false} CountOld(s: string, p: string, e: nat, q: string)
    requires Quoted(s, p, e, q)
    ensures ScanQuotes(s, e).inQuote <==> CountQuotes(p, |p|) % 2 == 0
  {
    assert CountQuotes(s, 0) == 0 && CountQuotes(s, 1) == 1;
    ScanSkips(s, 1, 3);
    assert p[..|p|] == p;
    CountShifts(s, 3, p, |p|);
    ScanParity(s, e);
  }

  /** What the scan keeps of `"a/P" "b/Q"` when Q has no quote. */
  lemma {:induction false} LastOfBoth(s: string, p: string, e: nat, q: string)
    requires Quoted(s, p, e, q) && '"' !in q
    ensures LastQuotedOf(s) == Some(if CountQuotes(p, |p|) % 2 == 0 then "b/" + q else " ")
  {
    var last := |s| - 1;
    CountOld(s, p, e, q);
    ScanReads(s, e);
    ScanSkips(s, e + 1, e + 2);
    ScanReads(s, e + 2);
    assert forall k :: e + 3 <= k < last ==> s[k] == s[e + 3..last][k - (e + 3)];
    ScanSkips(s, e + 3, last);
    ScanReads(s, last);
    assert s[e + 1..e + 2] == " ";
  }

  /** A path with a quote in it cannot come back: what stands between neighbouring quotes has none. */
  lemma {:induction false} QuotedTextHasNoQuote(s: string)
    requires LastQuotedOf(s).Some?
    ensures '"' !in LastQuotedOf(s).value
  {
    var a, b := ScanFindsLastPair(s, |s|);
  }

  lemma {:induction false} BothHasPair(s: string, p: string, e: nat, q: string)
    requires Quoted(s, p, e, q)
    ensures LastQuotedOf(s).Some?
  {
    var _, _ := ScanFindsLastPair(s, |s|);
    assert CountQuotes(s, 1) == 1;
    CountGrows(s, 1, |s| - 1);
  }

  lemma {:induction false} CountGrows(s: string, i: nat, j: nat)
    requires i <= j <= |s|
    ensures CountQuotes(s, i) <= CountQuotes(s, j)
  {
    if i < j {
      CountGrows(s, i, j - 1);
    }
  }

  lemma {:induction false} QuotedPathIs(s: string, text: string)
    requires '"' in s && LastQuotedOf(s) == Some(text)
    ensures BPathOf(s) == Some(StripPrefixPath(text))
  {
  }

  /** With both paths quoted the new path is found exactly when it holds no quote itself and the
      quotes of the old path come in pairs; an odd number shifts the pairs onto the blank between. */
  lemma {:induction false} QuotedHeader(p: string, q: string)
    ensures BPathFromHeader(HEADER + BothQuoted(p, q)) == Some(q)
            <==> '"' !in q && (CountQuotes(p, |p|) % 2 == 0 || q == " ")
  {
    HeaderPath(BothQuoted(p, q));
    BothQuotedShape(p, q);
    QuotedPath(BothQuoted(p, q), p, |p| + 3, q);
  }

  lemma {:induction false} QuotedPath(s: string, p: string, e: nat, q: string)
    requires Quoted(s, p, e, q)
    ensures BPathOf(s) == Some(q) <==> '"' !in q && (CountQuotes(p, |p|) % 2 == 0 || q == " ")
  {
    BothHasPair(s, p, e, q);
    QuotedPathIs(s, LastQuotedOf(s).value);
    if '"' in q {
      QuotedTextHasNoQuote(s);
      StripPlain(LastQuotedOf(s).value);
    } else {
      LastOfBoth(s, p, e, q);
      StripPlain(q);
      StripBlank();
    }
  }

  lemma {:induction false} StripBlank()
    ensures StripPrefixPath(" ") == " "
  {
    assert TrimQuotes(" ") == " ";
    assert !HasPrefix("b/", " ") && !HasPrefix("a/", " ");
  }

  function OldQuoted(p: string, q: string): string {
    "\"a/" + p + ("\" b/" + q)
  }

  lemma {:induction false} LastOfOld(s: string, e: nat)
    requires 0 < e < |s| && s[0] == '"' && s[e] == '"' && NoQuoteIn(s, 1, e) && NoQuoteIn(s, e + 1, |s|)
    ensures LastQuotedOf(s) == Some(s[1..e])
  {
    ScanReads(s, 0);
    ScanSkips(s, 1, e);
    ScanReads(s, e);
    ScanSkips(s, e + 1, |s|);
  }

  lemma {:induction false} OldQuotedShape(p: string, q: string)
    requires '"' !in p && '"' !in q
    ensures var s, e := OldQuoted(p, q), |p| + 3;
            && e < |s| && s[0] == '"' && s[e] == '"' && s[1..e] == "a/" + p
            && NoQuoteIn(s, 1, e) && NoQuoteIn(s, e + 1, |s|)
  {
    var s, e := OldQuoted(p, q), |p| + 3;
    assert forall k :: 3 <= k < e ==> s[k] == p[k - 3];
    assert forall k :: e + 4 <= k < |s| ==> s[k] == q[k - (e + 4)];
  }

  /** When only the old path is quoted (a rename to a plainer name), the old path is returned. */
  lemma {:induction false} OldQuotedHeader(p: string, q: string)
    requires '"' !in p && '"' !in q
    ensures BPathFromHeader(HEADER + OldQuoted(p, q)) == Some(p)
  {
    var s := OldQuoted(p, q);
    HeaderPath(s);
    OldQuotedShape(p, q);
    LastOfOld(s, |p| + 3);
    QuotedPathIs(s, "a/" + p);
    StripPlain(p);
  }

  function NewQuoted(p: string, q: string): string {
    "a/" + p + (" \"b/" + q + "\"")
  }

  /** The shape of `a/P "b/Q"`, whose new path starts after the quote e. */
  predicate QuotedLast(s: string, e: nat, q: string) {
    && e + 1 < |s| && NoQuoteIn(s, 0, e) && s[e] == '"' && s[|s| - 1] == '"' && s[e + 1..|s| - 1] == "b/" + q
  }

  lemma {:induction false} NewQuotedShape(p: string, q: string)
    requires '"' !in p
    ensures QuotedLast(NewQuoted(p, q), |p| + 3, q)
  {
    var s, e := NewQuoted(p, q), |p| + 3;
    assert s[0] == 'a' && s[1] == '/' && s[e - 1] == ' ';
    assert forall k :: 2 <= k < e - 1 ==> s[k] == p[k - 2];
  }

  lemma {:induction false} LastOfNew(s: string, e: nat, q: string)
    requires QuotedLast(s, e, q) && '"' !in q
    ensures LastQuotedOf(s) == Some("b/" + q)
  {
    var last := |s| - 1;
    ScanSkips(s, 0, e);
    ScanReads(s, e);
    assert forall k :: e + 1 <= k < last ==> s[k] == s[e + 1..last][k - (e + 1)];
    ScanSkips(s, e + 1, last);
    ScanReads(s, last);
  }

  lemma {:induction false} NewHasPair(s: string, e: nat, q: string)
    requires QuotedLast(s, e, q)
    ensures LastQuotedOf(s).Some?
  {
    var _, _ := ScanFindsLastPair(s, |s|);
    CountGrows(s, 0, e);
    CountGrows(s, e + 1, |s| - 1);
  }

  /** When only the new path is quoted, it is found exactly when it holds no quote; as everywhere, what is found is
      the text between the quotes, escapes and all. */
  lemma {:induction false} NewQuotedHeader(p: string, q: string)
    requires '"' !in p
    ensures BPathFromHeader(HEADER + NewQuoted(p, q)) == Some(q) <==> '"' !in q
  {
    var s := NewQuoted(p, q);
    HeaderPath(s);
    NewQuotedShape(p, q);
    NewHasPair(s, |p| + 3, q);
    QuotedPathIs(s, LastQuotedOf(s).value);
    if '"' in q {
      QuotedTextHasNoQuote(s);
      StripPlain(LastQuotedOf(s).value);
    } else {
      LastOfNew(s, |p| + 3, q);
      StripPlain(q);
    }
  }

  /* ---- What the path of a section is ---- */

  /** A section whose first path lines are `--- minus` and `+++ plus`: a deletion is known by its old
      path, a new file by its new one, and any other by its header, whatever the hunks say. */
  lemma {:induction false} PathOfSection(header: string, meta: seq<string>, minus: string, plus: string, hunks: seq<string>)
    requires !IsPathLine(header) && forall i :: 0 <= i < |meta| ==> !IsPathLine(meta[i])
    ensures PathOfLines([header] + meta + [MINUS + minus, PLUS + plus] + hunks)
            == if plus == DEV_NULL then Some(StripPrefixPath(minus))
               else if minus == DEV_NULL then Some(StripPrefixPath(plus))
               else BPathFromHeader(header)
  {
    FirstPairDecides([header] + meta, minus, plus, hunks);
  }

  /** Without path lines (a mode change, a pure rename, a binary file) the header decides. */
  lemma {:induction false} PathWithoutPathLines(header: string, meta: seq<string>)
    requires !IsPathLine(header) && forall i :: 0 <= i < |meta| ==> !IsPathLine(meta[i])
    ensures PathOfLines([header] + meta) == BPathFromHeader(header)
  {
    PathsSkip(FilePaths(None, None), [header] + meta, []);
    assert [header] + meta + [] == [header] + meta;
  }
}
