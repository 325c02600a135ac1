/** Plain text operations: occurrences, trimming, joining. */
module Text {
  import opened Common

  predicate OccursAt(pat: string, s: string, i: nat) {
    i + |pat| <= |s| && forall t :: 0 <= t < |pat| ==> pat[t] == s[i + t]
  }

  predicate HasPrefix(pat: string, s: string) {
    OccursAt(pat, s, 0)
  }

  /** The first occurrence at or after `from`. */
  function Find(pat: string, s: string, from: nat): (r: Option<nat>)
    requires from <= |s|
    ensures r.Some? ==> from <= r.value && OccursAt(pat, s, r.value)
                        && (forall k :: from <= k < r.value ==> !OccursAt(pat, s, k))
    ensures r.None? ==> forall k :: from <= k <= |s| ==> !OccursAt(pat, s, k)
    decreases |s| - from
  {
    if OccursAt(pat, s, from) then Some(from)
    else if from == |s| then None
    else Find(pat, s, from + 1)
  }

  predicate Contains(s: string, pat: string) {
    Find(pat, s, 0).Some?
  }

  /** The end of `s[lo..n]` without the copies of `c` at its end. */
  function TrimmedEnd(c: char, s: string, lo: nat, n: nat): (m: nat)
    requires lo <= n <= |s|
    ensures lo <= m <= n && (m == lo || s[m - 1] != c)
    ensures forall k :: m <= k < n ==> s[k] == c
  {
    if n > lo && s[n - 1] == c then TrimmedEnd(c, s, lo, n - 1) else n
  }

  /** The start of `s[lo..]` without the copies of `c` at its start. */
  function TrimmedStart(c: char, s: string, lo: nat): (m: nat)
    requires lo <= |s|
    ensures lo <= m <= |s| && (m == |s| || s[m] != c)
    ensures forall k :: lo <= k < m ==> s[k] == c
    decreases |s| - lo
  {
    if lo < |s| && s[lo] == c then TrimmedStart(c, s, lo + 1) else lo
  }

  /** `s` without its trailing newlines. */
  function TrimNewlines(s: string): string {
    s[..TrimmedEnd('\n', s, 0, |s|)]
  }

  /** `s` without the quotes at either end. */
  function TrimQuotes(s: string): string {
    var lo := TrimmedStart('"', s, 0);
    s[lo..TrimmedEnd('"', s, lo, |s|)]
  }

  function Join(parts: seq<string>): string {
    if parts == [] then ""
    else if |parts| == 1 then parts[0]
    else parts[0] + "\n" + Join(parts[1..])
  }

  /** A piece of `s`, seen in a longer text. */
  lemma {:induction false} OccursInContext(pat: string, x: string, y: string, z: string, i: nat)
    requires i + |pat| <= |y|
    ensures OccursAt(pat, y, i) <==> OccursAt(pat, x + y + z, |x| + i)
  {
    assert (x + y + z)[|x| + i..|x| + i + |pat|] == y[i..i + |pat|];
  }

  lemma {:induction false} SliceOfRest(d: string, n: nat, at: nat, k: nat)
    requires n <= |d| && at <= k <= |d| - n
    ensures d[n + at..n + k] == d[n..][at..k]
  {
    var x, y := d[n + at..n + k], d[n..][at..k];
    assert |x| == |y|;
    assert forall i :: 0 <= i < |x| ==> x[i] == d[n + at + i];
    assert forall i :: 0 <= i < |y| ==> y[i] == d[n..][at + i];
    assert forall i :: 0 <= i < |y| ==> x[i] == y[i];
  }

  lemma {:induction false} PrefixOfConcat(pat: string, x: string)
    ensures HasPrefix(pat, pat + x) && (pat + x)[|pat|..] == x
  {
  }

  function StripCarriageReturn(line: string): (r: string)
    ensures line == r + "\r" || (line == r && (line == "" || line[|line| - 1] != '\r'))
  {
    if line != "" && line[|line| - 1] == '\r' then line[..|line| - 1] else line
  }
}
