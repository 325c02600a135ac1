/** The layer table of a project and its dependency graph. */
module LayerConfig {
  import opened Common

  datatype LayerDef = LayerDef(paths: seq<string>, alwaysRun: bool, dependsOn: seq<string>)

  /** `names` are the keys of `defs` in the order the map is iterated; nothing proved depends on that order. */
  datatype Config = Config(order: seq<string>, names: seq<string>, defs: map<string, LayerDef>)

  ghost predicate WellFormed(c: Config) {
    Distinct(c.names) && forall n :: n in c.names <==> n in c.defs
  }

  function DepsOf(c: Config, n: string): seq<string> {
    if n in c.defs then c.defs[n].dependsOn else []
  }

  predicate Edge(c: Config, n: string, dep: string) {
    dep in DepsOf(c, n)
  }

  /** A walk along dependencies that ends where it began. */
  predicate IsCycle(c: Config, p: seq<string>) {
    |p| >= 2 && p[0] == p[|p| - 1] && IsWalk(c, p)
  }

  predicate IsWalk(c: Config, p: seq<string>) {
    forall i :: 0 <= i < |p| - 1 ==> Edge(c, p[i], p[i + 1])
  }

  /** A listing in which every layer comes after all its dependencies. */
  ghost predicate Finished(c: Config, done: seq<string>) {
    Distinct(done) && forall i, d :: 0 <= i < |done| && Edge(c, done[i], d) ==> d in done[..i]
  }

  ghost predicate AllListed(c: Config, done: seq<string>) {
    forall n :: n in c.defs ==> n in done
  }

  function IndexIn(s: seq<string>, n: string): (i: nat)
    requires n in s
    ensures i < |s| && s[i] == n
  {
    if s[0] == n then 0 else 1 + IndexIn(s[1..], n)
  }

  lemma {:induction false} EdgeDescends(c: Config, done: seq<string>, n: string, d: string)
    requires Finished(c, done) && n in done && Edge(c, n, d)
    ensures d in done && IndexIn(done, d) < IndexIn(done, n)
  {
    var i := IndexIn(done, n);
    assert d in done[..i];
    var j :| 0 <= j < i && done[..i][j] == d;
    assert done[j] == d == done[IndexIn(done, d)];
  }

  /** A listing of all layers after their dependencies rules out every cycle. */
  lemma {:induction false} FinishedMeansAcyclic(c: Config, done: seq<string>, p: seq<string>)
    requires Finished(c, done) && AllListed(c, done)
    ensures !IsCycle(c, p)
  {
    if |p| >= 2 && Edge(c, p[0], p[1]) && IsWalk(c, p) {
      WalkDescends(c, done, p, |p| - 1);
    }
  }

  lemma {:induction false} WalkDescends(c: Config, done: seq<string>, p: seq<string>, k: nat)
    requires Finished(c, done) && 1 <= k < |p| && p[0] in done && IsWalk(c, p)
    ensures p[k] in done && IndexIn(done, p[k]) < IndexIn(done, p[0])
  {
    if k > 1 {
      WalkDescends(c, done, p, k - 1);
    }
    assert Edge(c, p[k - 1], p[k]);
    EdgeDescends(c, done, p[k - 1], p[k]);
  }

  lemma {:induction false} SubsetSize(a: set<string>, b: set<string>)
    requires a <= b
    ensures |a| <= |b|
  {
    assert b == a + (b - a);
  }
}
