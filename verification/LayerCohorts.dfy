/** Cohorts of layers: layers that may run together, each after the cohorts of its dependencies. */
module LayerCohorts {
  import opened Common
  import opened LayerConfig
  import opened NameOrder
  import LayerCycles

  datatype Dag = Dag(cohorts: seq<seq<string>>, edges: seq<(string, string)>)

  /** The members of `names` that are in `order`, with repetitions. */
  function Within(names: seq<string>, order: seq<string>): (r: seq<string>)
    ensures forall d :: d in r <==> d in names && d in order
  {
    if names == [] then []
    else if names[0] in order then [names[0]] + Within(names[1..], order)
    else Within(names[1..], order)
  }

  /** The dependencies of a layer that are layers of the order themselves. */
  function InDeps(c: Config, n: string): seq<string> {
    Within(DepsOf(c, n), c.order)
  }

  /* ---- The graph as the algorithm holds it ---- */

  /** How many entries of `deps` are not among `gone`. */
  function Left(deps: seq<string>, gone: set<string>): nat {
    if deps == [] then 0 else (if deps[0] in gone then 0 else 1) + Left(deps[1..], gone)
  }

  lemma {:induction false} LeftAll(deps: seq<string>)
    ensures Left(deps, {}) == |deps|
  {
    if deps != [] {
      LeftAll(deps[1..]);
    }
  }

  lemma {:induction false} LeftZero(deps: seq<string>, gone: set<string>)
    ensures Left(deps, gone) == 0 <==> forall d :: d in deps ==> d in gone
  {
    if deps != [] {
      LeftZero(deps[1..], gone);
      assert forall d :: d in deps <==> d == deps[0] || d in deps[1..];
    }
  }

  /** One more layer gone takes away as many as there are entries for it. */
  lemma {:induction false} LeftDrops(deps: seq<string>, gone: set<string>, d: string)
    requires d !in gone
    ensures Left(deps, gone) == Left(deps, gone + {d}) + multiset(deps)[d]
  {
    if deps != [] {
      LeftDrops(deps[1..], gone, d);
      assert deps == [deps[0]] + deps[1..];
    }
  }

  lemma {:induction false} CountSnoc(s: seq<string>, x: string, y: string)
    ensures multiset(s + [x])[y] == multiset(s)[y] + if x == y then 1 else 0
  {
  }

  lemma {:induction false} CountCons(s: seq<string>, x: string, y: string)
    ensures multiset([x] + s)[y] == multiset(s)[y] + if x == y then 1 else 0
  {
  }

  /** Degrees count the dependencies that were read of each layer. */
  predicate DegreesAre(order: seq<string>, inDegree: map<string, nat>, read: map<string, seq<string>>) {
    forall n :: n in order ==> n in inDegree && n in read && inDegree[n] == |read[n]|
  }

  /** Adjacency lists hold the dependents of each layer, as often as they were read. */
  predicate AdjacencyIs(order: seq<string>, adj: map<string, seq<string>>, read: map<string, seq<string>>) {
    && (forall n :: n in order ==> n in adj && n in read)
    && (forall d, n :: d in order && n in order ==> multiset(adj[d])[n] == multiset(read[n])[d])
    && (forall d, n :: d in order && n in adj[d] ==> n in order)
  }

  predicate EdgesAre(order: seq<string>, edges: seq<(string, string)>, read: map<string, seq<string>>) {
    && (forall n :: n in order ==> n in read)
    && (forall e :: e in edges ==> e.0 in order && e.1 in read[e.0])
    && (forall n, d :: n in order && d in read[n] ==> (n, d) in edges)
  }

  predicate GraphIs(order: seq<string>, inDegree: map<string, nat>, adj: map<string, seq<string>>,
                    edges: seq<(string, string)>, read: map<string, seq<string>>) {
    DegreesAre(order, inDegree, read) && AdjacencyIs(order, adj, read) && EdgesAre(order, edges, read)
  }

  /** What was read of layer n when the first k names, and of the next one the first j dependencies, are through. */
  function ReadOf(c: Config, k: nat, j: nat, n: string): seq<string>
    requires k <= |c.names|
    requires k < |c.names| ==> j <= |DepsOf(c, c.names[k])|
  {
    if n in c.names[..k] then InDeps(c, n)
    else if k < |c.names| && n == c.names[k] then Within(DepsOf(c, n)[..j], c.order)
    else []
  }

  function ReadSoFar(c: Config, k: nat, j: nat): map<string, seq<string>>
    requires k <= |c.names|
    requires k < |c.names| ==> j <= |DepsOf(c, c.names[k])|
  {
    map n | n in c.order :: ReadOf(c, k, j, n)
  }

  lemma {:induction false} WithinSnoc(names: seq<string>, d: string, order: seq<string>)
    ensures Within(names + [d], order) == if d in order then Within(names, order) + [d] else Within(names, order)
  {
    if names != [] {
      assert (names + [d])[1..] == names[1..] + [d];
      WithinSnoc(names[1..], d, order);
    } else {
      assert ([] + [d])[1..] == [];
    }
  }

  lemma {:induction false} ReadOfDep(c: Config, k: nat, j: nat, n: string)
    requires WellFormed(c) && k < |c.names| && j < |DepsOf(c, c.names[k])|
    ensures var name, d := c.names[k], DepsOf(c, c.names[k])[j];
            ReadOf(c, k, j + 1, n) == if n == name && d in c.order then ReadOf(c, k, j, n) + [d] else ReadOf(c, k, j, n)
  {
    var deps := DepsOf(c, c.names[k]);
    assert c.names[k] !in c.names[..k];
    assert deps[..j + 1] == deps[..j] + [deps[j]];
    WithinSnoc(deps[..j], deps[j], c.order);
  }

  /** Reading the next dependency of a name. */
  lemma {:induction false} ReadDep(c: Config, k: nat, j: nat)
    requires WellFormed(c) && k < |c.names| && j < |DepsOf(c, c.names[k])| && c.names[k] in c.order
    ensures var name, d, read := c.names[k], DepsOf(c, c.names[k])[j], ReadSoFar(c, k, j);
            ReadSoFar(c, k, j + 1) == if d in c.order then read[name := read[name] + [d]] else read
  {
    forall n ensures ReadOf(c, k, j + 1, n)
        == if n == c.names[k] && DepsOf(c, c.names[k])[j] in c.order then ReadOf(c, k, j, n) + [DepsOf(c, c.names[k])[j]]
           else ReadOf(c, k, j, n)
    {
      ReadOfDep(c, k, j, n);
    }
  }

  lemma {:induction false} ReadOfName(c: Config, k: nat, j: nat, n: string)
    requires WellFormed(c) && k < |c.names| && j <= |DepsOf(c, c.names[k])|
    requires n == c.names[k] ==> j == |DepsOf(c, n)|
    ensures ReadOf(c, k, j, n) == ReadOf(c, k + 1, 0, n)
  {
    var deps := DepsOf(c, c.names[k]);
    assert deps[..|deps|] == deps;
    assert c.names[..k + 1] == c.names[..k] + [c.names[k]];
    if k + 1 < |c.names| {
      assert DepsOf(c, c.names[k + 1])[..0] == [];
    }
  }

  lemma {:induction false} ReadName(c: Config, k: nat, j: nat)
    requires WellFormed(c) && k < |c.names| && j <= |DepsOf(c, c.names[k])|
    requires c.names[k] in c.order ==> j == |DepsOf(c, c.names[k])|
    ensures ReadSoFar(c, k, j) == ReadSoFar(c, k + 1, 0)
  {
    forall n | n in c.order ensures ReadOf(c, k, j, n) == ReadOf(c, k + 1, 0, n) {
      ReadOfName(c, k, j, n);
    }
  }

  function ReadAll(c: Config): map<string, seq<string>> {
    map n | n in c.order :: InDeps(c, n)
  }

  lemma {:induction false} AllRead(c: Config)
    requires WellFormed(c)
    ensures ReadSoFar(c, |c.names|, 0) == ReadAll(c)
  {
    assert c.names[..|c.names|] == c.names;
    var a, b := ReadSoFar(c, |c.names|, 0), ReadAll(c);
    forall n | n in c.order ensures a[n] == b[n] {
      if n !in c.names {
        assert DepsOf(c, n) == [];
      }
    }
    assert a.Keys == b.Keys;
  }

  lemma {:induction false} NothingRead(c: Config, inDegree: map<string, nat>, adj: map<string, seq<string>>)
    requires forall n :: n in c.order ==> n in inDegree && inDegree[n] == 0
    requires forall n :: n in c.order ==> n in adj && adj[n] == []
    ensures GraphIs(c.order, inDegree, adj, [], ReadSoFar(c, 0, 0))
  {
    forall n | n in c.order ensures ReadOf(c, 0, 0, n) == [] {
      assert c.names[..0] == [];
    }
  }

  /** A dependency between two layers of the order: one more degree for the one, one more dependent for the other. */
  lemma {:induction false} AddEdge(order: seq<string>, inDegree: map<string, nat>, adj: map<string, seq<string>>,
                                   edges: seq<(string, string)>, read: map<string, seq<string>>, name: string, d: string)
    requires name in order && d in order && GraphIs(order, inDegree, adj, edges, read)
    ensures GraphIs(order, inDegree[name := inDegree[name] + 1], adj[d := adj[d] + [name]], edges + [(name, d)],
                    read[name := read[name] + [d]])
  {
    AddAdjacent(order, adj, read, name, d);
    AddListed(order, edges, read, name, d);
  }

  lemma {:induction false} AddAdjacent(order: seq<string>, adj: map<string, seq<string>>, read: map<string, seq<string>>,
                                       name: string, d: string)
    requires name in order && d in order && AdjacencyIs(order, adj, read)
    ensures AdjacencyIs(order, adj[d := adj[d] + [name]], read[name := read[name] + [d]])
  {
    forall e, n | e in order && n in order
      ensures multiset(adj[d := adj[d] + [name]][e])[n] == multiset(read[name := read[name] + [d]][n])[e]
    {
      CountsStay(adj, read, name, d, e, n);
    }
  }

  lemma {:induction false} CountsStay(adj: map<string, seq<string>>, read: map<string, seq<string>>, name: string, d: string,
                                      e: string, n: string)
    requires d in adj && name in read && e in adj && n in read && multiset(adj[e])[n] == multiset(read[n])[e]
    ensures multiset(adj[d := adj[d] + [name]][e])[n] == multiset(read[name := read[name] + [d]][n])[e]
  {
    CountSnoc(adj[d], name, n);
    CountSnoc(read[name], d, e);
  }

  lemma {:induction false} AddListed(order: seq<string>, edges: seq<(string, string)>, read: map<string, seq<string>>,
                                     name: string, d: string)
    requires name in order && EdgesAre(order, edges, read)
    ensures EdgesAre(order, edges + [(name, d)], read[name := read[name] + [d]])
  {
  }

  method BuildGraph(c: Config)
    returns (inDegree: map<string, nat>, adj: map<string, seq<string>>, edges: seq<(string, string)>)
    requires WellFormed(c)
    ensures GraphIs(c.order, inDegree, adj, edges, ReadAll(c))
    ensures forall n :: n in inDegree <==> n in c.order
  {
    edges := [];
    inDegree := map n | n in c.order :: 0;
    adj := map n | n in c.order :: [];
    NothingRead(c, inDegree, adj);
    for k := 0 to |c.names|
      invariant GraphIs(c.order, inDegree, adj, edges, ReadSoFar(c, k, 0))
      invariant forall n :: n in inDegree <==> n in c.order
    {
      var name := c.names[k];
      if name !in c.order {
        ReadName(c, k, 0);
        continue;
      }
      inDegree, adj, edges := ReadDeps(c, k, inDegree, adj, edges);
      ReadName(c, k, |DepsOf(c, name)|);
    }
    AllRead(c);
  }

  method ReadDeps(c: Config, k: nat, inDegree: map<string, nat>, adj: map<string, seq<string>>, edges: seq<(string, string)>)
    returns (newDegree: map<string, nat>, newAdj: map<string, seq<string>>, newEdges: seq<(string, string)>)
    requires WellFormed(c) && k < |c.names| && c.names[k] in c.order
    requires GraphIs(c.order, inDegree, adj, edges, ReadSoFar(c, k, 0))
    ensures GraphIs(c.order, newDegree, newAdj, newEdges, ReadSoFar(c, k, |DepsOf(c, c.names[k])|))
    ensures forall n :: n in newDegree <==> n in inDegree
  {
    newDegree, newAdj, newEdges := inDegree, adj, edges;
    var name := c.names[k];
    var deps := DepsOf(c, name);
    for j := 0 to |deps|
      invariant GraphIs(c.order, newDegree, newAdj, newEdges, ReadSoFar(c, k, j))
      invariant forall n :: n in newDegree <==> n in inDegree
    {
      ReadDep(c, k, j);
      if deps[j] in c.order {
        AddEdge(c.order, newDegree, newAdj, newEdges, ReadSoFar(c, k, j), name, deps[j]);
        newEdges := newEdges + [(name, deps[j])];
        newAdj := newAdj[deps[j] := newAdj[deps[j]] + [name]];
        newDegree := newDegree[name := newDegree[name] + 1];
      }
    }
  }

  /* ---- Taking layers away ---- */

  ghost predicate DegreesOk(c: Config, inDegree: map<string, nat>, gone: set<string>) {
    forall n :: n in c.order ==> n in inDegree && inDegree[n] == Left(InDeps(c, n), gone)
  }

  /** The layers whose last dependencies went with the step from `before` to `after`. */
  ghost predicate Freed(c: Config, freed: seq<string>, before: set<string>, after: set<string>) {
    Distinct(freed)
    && forall n :: n in freed
         <==> n in c.order && Left(InDeps(c, n), before) > 0 && Left(InDeps(c, n), after) == 0
  }

  /** Inside the walk over the dependents of a layer: those from j on are still to be counted down. */
  ghost predicate CountedDown(c: Config, inDegree: map<string, nat>, pending: seq<string>, gone: set<string>) {
    forall n :: n in c.order ==> n in inDegree && inDegree[n] == Left(InDeps(c, n), gone) + multiset(pending)[n]
  }

  /** Collected so far are the dependents met whose count came down to nothing. */
  ghost predicate Collected(inDegree: map<string, nat>, freed: seq<string>, met: seq<string>) {
    Distinct(freed) && forall n :: n in freed <==> n in met && n in inDegree && inDegree[n] == 0
  }

  lemma {:induction false} CountDown(c: Config, inDegree: map<string, nat>, n: string, pending: seq<string>, gone: set<string>)
    requires n in c.order && CountedDown(c, inDegree, [n] + pending, gone)
    ensures inDegree[n] > 0 && CountedDown(c, inDegree[n := inDegree[n] - 1], pending, gone)
  {
    forall m ensures multiset([n] + pending)[m] == multiset(pending)[m] + if n == m then 1 else 0 {
      CountCons(pending, n, m);
    }
  }

  lemma {:induction false} Collect(inDegree: map<string, nat>, freed: seq<string>, met: seq<string>, n: string)
    requires Collected(inDegree, freed, met) && n in inDegree && inDegree[n] > 0
    ensures var newDegree := inDegree[n := inDegree[n] - 1];
            Collected(newDegree, if newDegree[n] == 0 then freed + [n] else freed, met + [n])
  {
  }

  lemma {:induction false} CountDownAt(c: Config, inDegree: map<string, nat>, dependents: seq<string>, j: nat, gone: set<string>)
    requires j < |dependents| && dependents[j] in c.order && CountedDown(c, inDegree, dependents[j..], gone)
    ensures var n := dependents[j];
            inDegree[n] > 0 && CountedDown(c, inDegree[n := inDegree[n] - 1], dependents[j + 1..], gone)
  {
    assert dependents[j..] == [dependents[j]] + dependents[j + 1..];
    CountDown(c, inDegree, dependents[j], dependents[j + 1..], gone);
  }

  lemma {:induction false} CollectAt(inDegree: map<string, nat>, freed: seq<string>, dependents: seq<string>, j: nat)
    requires j < |dependents| && dependents[j] in inDegree && inDegree[dependents[j]] > 0
    requires Collected(inDegree, freed, dependents[..j])
    ensures var n := dependents[j];
            var newDegree := inDegree[n := inDegree[n] - 1];
            Collected(newDegree, if newDegree[n] == 0 then freed + [n] else freed, dependents[..j + 1])
  {
    assert dependents[..j + 1] == dependents[..j] + [dependents[j]];
    Collect(inDegree, freed, dependents[..j], dependents[j]);
  }

  method RemoveLayer(c: Config, node: string, dependents: seq<string>, inDegree: map<string, nat>, ghost gone: set<string>)
    returns (newDegree: map<string, nat>, freed: seq<string>)
    requires node !in gone && DegreesOk(c, inDegree, gone) && (forall n :: n in dependents ==> n in c.order)
    requires forall n :: n in c.order ==> multiset(dependents)[n] == multiset(InDeps(c, n))[node]
    ensures DegreesOk(c, newDegree, gone + {node}) && Freed(c, freed, gone, gone + {node})
  {
    newDegree, freed := inDegree, [];
    RemoveBegins(c, node, dependents, inDegree, gone);
    for j := 0 to |dependents|
      invariant CountedDown(c, newDegree, dependents[j..], gone + {node})
      invariant Collected(newDegree, freed, dependents[..j])
    {
      var n := dependents[j];
      CountDownAt(c, newDegree, dependents, j, gone + {node});
      CollectAt(newDegree, freed, dependents, j);
      newDegree := newDegree[n := newDegree[n] - 1];
      if newDegree[n] == 0 {
        freed := freed + [n];
      }
    }
    RemoveEnds(c, node, dependents, newDegree, freed, gone);
  }

  lemma {:induction false} RemoveBegins(c: Config, node: string, dependents: seq<string>, inDegree: map<string, nat>, gone: set<string>)
    requires node !in gone && DegreesOk(c, inDegree, gone)
    requires forall n :: n in c.order ==> multiset(dependents)[n] == multiset(InDeps(c, n))[node]
    ensures CountedDown(c, inDegree, dependents[0..], gone + {node}) && Collected(inDegree, [], dependents[..0])
  {
    assert dependents[0..] == dependents && dependents[..0] == [];
    forall n | n in c.order
      ensures inDegree[n] == Left(InDeps(c, n), gone + {node}) + multiset(dependents)[n]
    {
      LeftDrops(InDeps(c, n), gone, node);
    }
  }

  lemma {:induction false} RemoveEnds(c: Config, node: string, dependents: seq<string>, newDegree: map<string, nat>,
                                      freed: seq<string>, gone: set<string>)
    requires node !in gone && (forall n :: n in dependents ==> n in c.order)
    requires forall n :: n in c.order ==> multiset(dependents)[n] == multiset(InDeps(c, n))[node]
    requires CountedDown(c, newDegree, dependents[|dependents|..], gone + {node})
    requires Collected(newDegree, freed, dependents[..|dependents|])
    ensures DegreesOk(c, newDegree, gone + {node}) && Freed(c, freed, gone, gone + {node})
  {
    assert dependents[|dependents|..] == [] && dependents[..|dependents|] == dependents;
    forall n ensures n in freed
        <==> n in c.order && Left(InDeps(c, n), gone) > 0 && Left(InDeps(c, n), gone + {node}) == 0
    {
      if n in c.order {
        LeftDrops(InDeps(c, n), gone, node);
        assert n in dependents <==> multiset(dependents)[n] > 0;
      }
    }
  }

  /* ---- Cohort after cohort ---- */

  function MembersOf(s: seq<string>): set<string> {
    set n | n in s
  }

  function Gone(cohorts: seq<seq<string>>): set<string> {
    if cohorts == [] then {} else Gone(cohorts[..|cohorts| - 1]) + MembersOf(cohorts[|cohorts| - 1])
  }

  /** Cohort k holds layers of the order, in ascending order and without repetition, that are in no earlier
      cohort; all their dependencies are in earlier ones and, after the first, one is in the cohort before. */
  ghost predicate CohortOk(c: Config, cohorts: seq<seq<string>>, k: nat)
    requires k < |cohorts|
  {
    && cohorts[k] != [] && Distinct(cohorts[k]) && Sorted(cohorts[k])
    && (forall n :: n in cohorts[k] ==> n in c.order && n !in Gone(cohorts[..k]))
    && (forall n, d :: n in cohorts[k] && d in InDeps(c, n) ==> d in Gone(cohorts[..k]))
    && (k > 0 ==> forall n :: n in cohorts[k] ==> exists d :: d in InDeps(c, n) && d in cohorts[k - 1])
  }

  ghost predicate CohortsOk(c: Config, cohorts: seq<seq<string>>) {
    forall k {:trigger CohortOk(c, cohorts, k)} :: 0 <= k < |cohorts| ==> CohortOk(c, cohorts, k)
  }

  /** The layers whose dependencies are all gone while they are still there. */
  ghost predicate Ready(c: Config, queue: seq<string>, gone: set<string>) {
    && Distinct(queue) && Sorted(queue)
    && forall n :: n in queue <==> n in c.order && n !in gone && Left(InDeps(c, n), gone) == 0
  }

  /** Of every layer that is gone all dependencies are gone. */
  ghost predicate GoneClosed(c: Config, gone: set<string>) {
    forall n :: n in gone ==> n in c.order && Left(InDeps(c, n), gone) == 0
  }

  lemma {:induction false} LeftMonotone(deps: seq<string>, a: set<string>, b: set<string>)
    requires a <= b
    ensures Left(deps, b) <= Left(deps, a)
  {
    if deps != [] {
      LeftMonotone(deps[1..], a, b);
    }
  }

  /** One round: the queue is a cohort, and what it frees is the next queue. */
  method RunCohort(c: Config, cohort: seq<string>, adj: map<string, seq<string>>, inDegree: map<string, nat>,
                   ghost gone: set<string>)
    returns (newDegree: map<string, nat>, next: seq<string>)
    requires AdjacencyIs(c.order, adj, ReadAll(c)) && DegreesOk(c, inDegree, gone) && Distinct(cohort)
    requires forall n :: n in cohort ==> n in c.order && n !in gone
    ensures DegreesOk(c, newDegree, gone + MembersOf(cohort)) && Freed(c, next, gone, gone + MembersOf(cohort))
  {
    newDegree, next := inDegree, [];
    NothingFreed(c, gone);
    assert gone + MembersOf(cohort[..0]) == gone;
    for i := 0 to |cohort|
      invariant DegreesOk(c, newDegree, gone + MembersOf(cohort[..i]))
      invariant Freed(c, next, gone, gone + MembersOf(cohort[..i]))
    {
      ghost var before := gone + MembersOf(cohort[..i]);
      OneMoreMember(cohort, gone, i);
      var freed;
      newDegree, freed := RemoveLayer(c, cohort[i], adj[cohort[i]], newDegree, before);
      FreedAdds(c, next, freed, gone, before, before + {cohort[i]});
      next := next + freed;
    }
    assert cohort[..|cohort|] == cohort;
  }

  lemma {:induction false} OneMoreMember(cohort: seq<string>, gone: set<string>, i: nat)
    requires Distinct(cohort) && i < |cohort| && cohort[i] !in gone
    ensures gone + MembersOf(cohort[..i]) + {cohort[i]} == gone + MembersOf(cohort[..i + 1])
    ensures cohort[i] !in gone + MembersOf(cohort[..i])
  {
    assert cohort[..i + 1] == cohort[..i] + [cohort[i]];
  }

  lemma {:induction false} NothingFreed(c: Config, gone: set<string>)
    ensures Freed(c, [], gone, gone)
  {
  }

  lemma {:induction false} FreedAdds(c: Config, a: seq<string>, b: seq<string>, g0: set<string>, g1: set<string>, g2: set<string>)
    requires g0 <= g1 <= g2 && Freed(c, a, g0, g1) && Freed(c, b, g1, g2)
    ensures Freed(c, a + b, g0, g2)
  {
    forall n | n in c.order ensures Left(InDeps(c, n), g2) <= Left(InDeps(c, n), g1) <= Left(InDeps(c, n), g0) {
      LeftMonotone(InDeps(c, n), g1, g2);
      LeftMonotone(InDeps(c, n), g0, g1);
    }
    var all := a + b;
    forall i, j | 0 <= i < j < |all| ensures all[i] != all[j] {
      if i < |a| <= j {
        assert all[i] in a && all[j] in b;
      }
    }
    forall n ensures n in all <==> n in c.order && Left(InDeps(c, n), g0) > 0 && Left(InDeps(c, n), g2) == 0 {
      assert n in all <==> n in a || n in b;
    }
  }

  lemma {:induction false} NextQueue(c: Config, cohort: seq<string>, next: seq<string>, gone: set<string>)
    requires Ready(c, cohort, gone) && GoneClosed(c, gone) && Freed(c, next, gone, gone + MembersOf(cohort))
    ensures Ready(c, Sort(next), gone + MembersOf(cohort)) && GoneClosed(c, gone + MembersOf(cohort))
  {
    var after := gone + MembersOf(cohort);
    SortKeeps(next, Self);
    forall n | n in c.order ensures Left(InDeps(c, n), after) <= Left(InDeps(c, n), gone) {
      LeftMonotone(InDeps(c, n), gone, after);
    }
  }

  /** What a round frees depends on a layer of that round. */
  lemma {:induction false} FreedNeedsCohort(c: Config, cohort: seq<string>, next: seq<string>, gone: set<string>, n: string)
    requires Freed(c, next, gone, gone + MembersOf(cohort)) && n in next
    ensures exists d :: d in InDeps(c, n) && d in cohort
  {
    LeftZero(InDeps(c, n), gone);
    LeftZero(InDeps(c, n), gone + MembersOf(cohort));
    var d :| d in InDeps(c, n) && d !in gone;
    assert d in gone + MembersOf(cohort);
  }

  lemma {:induction false} AppendCohort(c: Config, cohorts: seq<seq<string>>, queue: seq<string>)
    requires CohortsOk(c, cohorts) && Ready(c, queue, Gone(cohorts)) && queue != []
    requires cohorts != [] ==> forall n :: n in queue ==> exists d :: d in InDeps(c, n) && d in cohorts[|cohorts| - 1]
    ensures CohortsOk(c, cohorts + [queue]) && Gone(cohorts + [queue]) == Gone(cohorts) + MembersOf(queue)
  {
    var all := cohorts + [queue];
    assert all[..|all| - 1] == cohorts;
    forall k | 0 <= k < |all| ensures CohortOk(c, all, k) {
      if k < |cohorts| {
        assert CohortOk(c, cohorts, k);
        assert all[..k] == cohorts[..k];
      } else {
        forall n, d | n in queue && d in InDeps(c, n) ensures d in Gone(cohorts) {
          LeftZero(InDeps(c, n), Gone(cohorts));
        }
      }
    }
  }

  /** With nothing ready every layer is gone: the dependencies of a layer come before it in `done`. */
  lemma {:induction false} AllGone(c: Config, done: seq<string>, gone: set<string>, n: string)
    requires Finished(c, done) && AllListed(c, done) && Ready(c, [], gone) && n in c.order
    ensures n in gone
    decreases if n in done then 1 + IndexIn(done, n) else 0
  {
    forall d | d in InDeps(c, n) ensures d in gone {
      assert Edge(c, n, d);
      EdgeDescends(c, done, n, d);
      AllGone(c, done, gone, d);
    }
    LeftZero(InDeps(c, n), gone);
    assert n !in [];
  }

  ghost predicate Listing(c: Config, inDegree: map<string, nat>, listed: seq<string>, keys: set<string>)
    requires forall n :: n in inDegree <==> n in c.order
  {
    Distinct(listed) && forall n :: n in listed <==> n in c.order && n !in keys && inDegree[n] == 0
  }

  /** The first queue: the map of degrees may be walked in any order, for the queue is sorted. */
  method FirstQueue(c: Config, inDegree: map<string, nat>) returns (queue: seq<string>)
    requires DegreesOk(c, inDegree, {}) && forall n :: n in inDegree <==> n in c.order
    ensures Ready(c, queue, {})
  {
    var listed: seq<string> := [];
    var keys := inDegree.Keys;
    while keys != {}
      invariant keys <= inDegree.Keys && Listing(c, inDegree, listed, keys)
      decreases |keys|
    {
      var n :| n in keys;
      ListNext(c, inDegree, listed, keys, n);
      if inDegree[n] == 0 {
        listed := listed + [n];
      }
      keys := keys - {n};
    }
    SortKeeps(listed, Self);
    queue := Sort(listed);
  }

  lemma {:induction false} ListNext(c: Config, inDegree: map<string, nat>, listed: seq<string>, keys: set<string>, n: string)
    requires (forall n :: n in inDegree <==> n in c.order) && keys <= inDegree.Keys && n in keys
    requires Listing(c, inDegree, listed, keys)
    ensures Listing(c, inDegree, if inDegree[n] == 0 then listed + [n] else listed, keys - {n})
  {
  }

  lemma {:induction false} Shrinks(c: Config, gone: set<string>, queue: seq<string>)
    requires Ready(c, queue, gone) && queue != []
    ensures |MembersOf(c.order) - (gone + MembersOf(queue))| < |MembersOf(c.order) - gone|
  {
    var a, b := MembersOf(c.order) - (gone + MembersOf(queue)), MembersOf(c.order) - gone;
    assert queue[0] in queue;
    assert queue[0] in b && queue[0] !in a && a <= b - {queue[0]};
    SubsetSize(a, b - {queue[0]});
  }

  /** Where the algorithm stands between two cohorts. */
  ghost predicate Progress(c: Config, cohorts: seq<seq<string>>, inDegree: map<string, nat>, queue: seq<string>) {
    && CohortsOk(c, cohorts) && DegreesOk(c, inDegree, Gone(cohorts))
    && Ready(c, queue, Gone(cohorts)) && GoneClosed(c, Gone(cohorts))
    && (cohorts != [] ==> forall n :: n in queue ==> exists d :: d in InDeps(c, n) && d in cohorts[|cohorts| - 1])
  }

  lemma {:induction false} Advance(c: Config, cohorts: seq<seq<string>>, inDegree: map<string, nat>, queue: seq<string>,
                                   newDegree: map<string, nat>, next: seq<string>)
    requires Progress(c, cohorts, inDegree, queue) && queue != []
    requires DegreesOk(c, newDegree, Gone(cohorts) + MembersOf(queue))
    requires Freed(c, next, Gone(cohorts), Gone(cohorts) + MembersOf(queue))
    ensures Progress(c, cohorts + [queue], newDegree, Sort(next))
    ensures |MembersOf(c.order) - Gone(cohorts + [queue])| < |MembersOf(c.order) - Gone(cohorts)|
  {
    AppendCohort(c, cohorts, queue);
    NextQueue(c, queue, next, Gone(cohorts));
    Shrinks(c, Gone(cohorts), queue);
    SortKeeps(next, Self);
    forall n | n in Sort(next) ensures exists d :: d in InDeps(c, n) && d in queue {
      FreedNeedsCohort(c, queue, next, Gone(cohorts), n);
    }
  }

  lemma {:induction false} Begin(c: Config, inDegree: map<string, nat>)
    requires DegreesAre(c.order, inDegree, ReadAll(c))
    ensures DegreesOk(c, inDegree, {})
  {
    forall n | n in c.order ensures inDegree[n] == Left(InDeps(c, n), {}) {
      LeftAll(InDeps(c, n));
    }
  }

  lemma {:induction false} Finish(c: Config, done: seq<string>, cohorts: seq<seq<string>>, inDegree: map<string, nat>)
    requires Finished(c, done) && AllListed(c, done) && Progress(c, cohorts, inDegree, [])
    ensures forall n :: n in c.order <==> n in Gone(cohorts)
  {
    forall n | n in c.order ensures n in Gone(cohorts) {
      AllGone(c, done, Gone(cohorts), n);
    }
  }

  /** Cohorts are found for exactly the configurations without a cycle. Every layer of the order is then in
      one of them, and only once; its dependencies are all in earlier ones, and one is in the cohort before. */
  method BuildDag(c: Config) returns (r: Result<Dag, seq<string>>)
    requires WellFormed(c)
    ensures r.Ok? <==> forall p :: !IsCycle(c, p)
    ensures r.Err? ==> IsCycle(c, r.error)
    ensures r.Ok? ==> CohortsOk(c, r.value.cohorts) && forall n :: n in c.order <==> n in Gone(r.value.cohorts)
    ensures r.Ok? ==> EdgesAre(c.order, r.value.edges, ReadAll(c))
  {
    var cycle; ghost var done;
    cycle, done := LayerCycles.DetectCycle(c);
    if cycle.Err? {
      return Err(cycle.error);
    }
    var inDegree, adj, edges := BuildGraph(c);
    Begin(c, inDegree);
    var queue := FirstQueue(c, inDegree);
    var cohorts: seq<seq<string>> := [];
    while queue != []
      invariant Progress(c, cohorts, inDegree, queue)
      decreases |MembersOf(c.order) - Gone(cohorts)|
    {
      var newDegree, next := RunCohort(c, queue, adj, inDegree, Gone(cohorts));
      Advance(c, cohorts, inDegree, queue, newDegree, next);
      inDegree := newDegree;
      cohorts := cohorts + [queue];
      queue := Sort(next);
    }
    Finish(c, done, cohorts, inDegree);
    r := Ok(Dag(cohorts, edges));
  }

  /* ---- The cohorts are determined ---- */

  lemma {:induction false} GoneIs(cohorts: seq<seq<string>>, n: string)
    ensures n in Gone(cohorts) <==> exists k :: 0 <= k < |cohorts| && n in cohorts[k]
  {
    if cohorts != [] {
      var init := cohorts[..|cohorts| - 1];
      GoneIs(init, n);
      assert cohorts == init + [cohorts[|cohorts| - 1]];
      if n in Gone(init) {
        var k :| 0 <= k < |init| && n in init[k];
        assert n in cohorts[k];
      }
      if k :| 0 <= k < |cohorts| && n in cohorts[k] {
        assert k < |init| ==> n in init[k];
      }
    }
  }

  lemma {:induction false} GoneGrows(cohorts: seq<seq<string>>, k: nat, m: nat, n: string)
    requires k <= m <= |cohorts|
    ensures n in Gone(cohorts[..k]) ==> n in Gone(cohorts[..m])
  {
    GoneIs(cohorts[..k], n);
    GoneIs(cohorts[..m], n);
    if n in Gone(cohorts[..k]) {
      var i :| 0 <= i < k && n in cohorts[..k][i];
      assert cohorts[..m][i] == cohorts[..k][i];
    }
  }

  lemma {:induction false} GoneBy(cohorts: seq<seq<string>>, k: nat, j: nat, n: string)
    requires j < k <= |cohorts| && n in cohorts[j]
    ensures n in Gone(cohorts[..k])
  {
    assert cohorts[..k][j] == cohorts[j];
    GoneIs(cohorts[..k], n);
  }

  /** A layer of a later cohort has a dependency that is not gone before k. */
  lemma {:induction false} LaterWaits(c: Config, cohorts: seq<seq<string>>, k: nat, j: nat, n: string) returns (d: string)
    requires CohortsOk(c, cohorts) && k < j < |cohorts| && n in cohorts[j]
    ensures d in InDeps(c, n) && d !in Gone(cohorts[..k])
  {
    d := DepInCohortBefore(c, cohorts, j, n);
    MemberNotGone(c, cohorts, j - 1, d);
    GoneGrows(cohorts, k, j - 1, d);
  }

  lemma {:induction false} DepInCohortBefore(c: Config, cohorts: seq<seq<string>>, j: nat, n: string) returns (d: string)
    requires CohortsOk(c, cohorts) && 0 < j < |cohorts| && n in cohorts[j]
    ensures d in InDeps(c, n) && d in cohorts[j - 1]
  {
    assert CohortOk(c, cohorts, j);
    d :| d in InDeps(c, n) && d in cohorts[j - 1];
  }

  lemma {:induction false} MemberNotGone(c: Config, cohorts: seq<seq<string>>, j: nat, n: string)
    requires CohortsOk(c, cohorts) && j < |cohorts| && n in cohorts[j]
    ensures n !in Gone(cohorts[..j])
  {
    assert CohortOk(c, cohorts, j);
  }

  /** A layer whose dependencies are gone before cohort k and that is not gone itself is in cohort k. */
  lemma {:induction false} ComesNext(c: Config, cohorts: seq<seq<string>>, k: nat, n: string)
    requires CohortsOk(c, cohorts) && k <= |cohorts| && n in Gone(cohorts) && n !in Gone(cohorts[..k])
    requires forall d :: d in InDeps(c, n) ==> d in Gone(cohorts[..k])
    ensures k < |cohorts| && n in cohorts[k]
  {
    GoneIs(cohorts, n);
    var j :| 0 <= j < |cohorts| && n in cohorts[j];
    if j < k {
      GoneBy(cohorts, k, j, n);
    } else if j > k {
      var d := LaterWaits(c, cohorts, k, j, n);
    }
  }

  lemma {:induction false} SameCohort(c: Config, a: seq<seq<string>>, b: seq<seq<string>>, k: nat)
    requires CohortsOk(c, a) && CohortsOk(c, b) && Gone(a) == Gone(b) && k <= |a| && k <= |b| && a[..k] == b[..k]
    requires k < |a|
    ensures k < |b| && a[k] == b[k]
  {
    assert CohortOk(c, a, k);
    forall n | n in a[k] ensures k < |b| && n in b[k] {
      GoneIs(a, n);
      ComesNext(c, b, k, n);
    }
    assert a[k][0] in a[k];
    assert CohortOk(c, b, k);
    forall n | n in b[k] ensures n in a[k] {
      GoneIs(b, n);
      ComesNext(c, a, k, n);
    }
    OrderedUnique(a[k], b[k], Self);
  }

  /** No two lists of cohorts have these properties: what is computed depends on the configuration alone,
      not on the order in which hash maps are walked. */
  lemma {:induction false} CohortsUnique(c: Config, a: seq<seq<string>>, b: seq<seq<string>>, k: nat)
    requires CohortsOk(c, a) && CohortsOk(c, b) && Gone(a) == Gone(b) && k <= |a| && k <= |b| && a[..k] == b[..k]
    ensures a == b
    decreases |a| + |b| - 2 * k
  {
    if k < |a| {
      SameCohort(c, a, b, k);
      assert a[..k + 1] == a[..k] + [a[k]] && b[..k + 1] == b[..k] + [b[k]];
      CohortsUnique(c, a, b, k + 1);
    } else if k < |b| {
      SameCohort(c, b, a, k);
      assert false;
    } else {
      assert a == a[..k] && b == b[..k];
    }
  }
}
