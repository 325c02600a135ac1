/** How the Unix listener gets its socket path: bind, and when the path is taken, probe, remove and bind
    again. Each call is a step, any number of daemons take them in any order, and any daemon may die. */
module SocketRecovery {
  import opened Common

  type DaemonId = nat
  type SocketId = nat

  /** `Bound` is between bind(2) and listen(2); `Unlinked` is a dropped listener not yet closed. */
  datatype Phase =
    | NotStarted
    | PathTaken
    | Refused
    | Removed
    | Bound(s: SocketId)
    | Listening(s: SocketId)
    | Unlinked(s: SocketId)
    | Gone

  /** The socket that the path names, and the sockets that accept connections. */
  datatype World = World(path: Option<SocketId>, live: set<SocketId>, next: SocketId, daemons: seq<Phase>)

  datatype Step =
    | Bind(d: DaemonId, possible: bool)
    | Listen(d: DaemonId)
    | Probe(d: DaemonId)
    | Remove(d: DaemonId)
    | Unlink(d: DaemonId)
    | Close(d: DaemonId)
    | Die(d: DaemonId)

  function With(w: World, d: DaemonId, p: Phase): World
    requires d < |w.daemons|
  {
    w.(daemons := w.daemons[d := p])
  }

  predicate HasSocket(p: Phase) {
    p.Bound? || p.Listening? || p.Unlinked?
  }

  /** One step of daemon d; a step that its phase does not allow changes nothing. */
  function Apply(w: World, step: Step): World {
    if step.d >= |w.daemons| then w
    else
      var d, p := step.d, w.daemons[step.d];
      match step
      case Bind(_, possible) =>
        if p != NotStarted && p != Removed then w
        else if possible && w.path.None? then
          With(w, d, Bound(w.next)).(path := Some(w.next), next := w.next + 1)
        else if possible && p == NotStarted then With(w, d, PathTaken)
        else With(w, d, Gone)
      case Listen(_) =>
        if p.Bound? then With(w, d, Listening(p.s)).(live := w.live + {p.s}) else w
      case Probe(_) =>
        if p != PathTaken then w
        else if w.path.None? || w.path.value in w.live then With(w, d, Gone)
        else With(w, d, Refused)
      case Remove(_) =>
        if p != Refused then w
        else if w.path.None? then With(w, d, Gone)
        else With(w, d, Removed).(path := None)
      case Unlink(_) =>
        if p.Listening? then With(w, d, Unlinked(p.s)).(path := None) else w
      case Close(_) =>
        if p.Unlinked? then With(w, d, Gone).(live := w.live - {p.s}) else w
      case Die(_) =>
        With(w, d, Gone).(live := if HasSocket(p) then w.live - {p.s} else w.live)
  }

  function Run(w: World, steps: seq<Step>): World
    decreases |steps|
  {
    if steps == [] then w else Run(Apply(w, steps[0]), steps[1..])
  }

  /** No two daemons accept connections under the path. */
  predicate Exclusive(w: World) {
    forall c, d :: 0 <= c < d < |w.daemons| ==> !(w.daemons[c].Listening? && w.daemons[d].Listening?)
  }

  /* ---- The invariant ---- */

  predicate Holds(p: Phase) {
    p.Bound? || p.Listening?
  }

  /** Every socket has one owner, and exactly those that listen or are being closed are live. */
  predicate SocketsOk(w: World) {
    && (w.path.Some? ==> w.path.value < w.next)
    && (forall d :: 0 <= d < |w.daemons| && HasSocket(w.daemons[d]) ==>
          w.daemons[d].s < w.next && (w.daemons[d].s in w.live <==> !w.daemons[d].Bound?))
    && (forall c, d :: 0 <= c < d < |w.daemons| && HasSocket(w.daemons[c]) && HasSocket(w.daemons[d])
          ==> w.daemons[c].s != w.daemons[d].s)
    && (forall s :: s in w.live ==> exists d :: 0 <= d < |w.daemons| && HasSocket(w.daemons[d]) && w.daemons[d].s == s)
  }

  /** A daemon that bound the path has it as long as it lives; one that dropped it has not. */
  predicate OwnersHavePath(w: World) {
    forall d :: 0 <= d < |w.daemons| && HasSocket(w.daemons[d]) ==> (w.path == Some(w.daemons[d].s) <==> Holds(w.daemons[d]))
  }

  /** The path names a socket that no daemon has any more. */
  predicate Stale(w: World) {
    w.path.Some? && forall d :: 0 <= d < |w.daemons| && HasSocket(w.daemons[d]) ==> w.daemons[d].s != w.path.value
  }

  /** One daemon at most is between a refused probe and the removal, and the path is stale while it is. */
  predicate RecoveryOk(w: World) {
    && (forall d :: 0 <= d < |w.daemons| && w.daemons[d] == Refused ==> Stale(w))
    && (forall c, d :: 0 <= c < d < |w.daemons| ==> !(w.daemons[c] == Refused && w.daemons[d] == Refused))
  }

  predicate Inv(w: World) {
    SocketsOk(w) && OwnersHavePath(w) && RecoveryOk(w)
  }

  /** The start: no daemon has started; the path is free or names a socket left behind. */
  predicate Initial(w: World) {
    && (forall d :: 0 <= d < |w.daemons| ==> w.daemons[d] == NotStarted)
    && w.live == {} && (w.path.Some? ==> w.path.value < w.next)
  }

  /** A refused probe finds a stale path, not one that was bound but does not listen yet, and no other
      daemon is recovering. */
  predicate Careful(w: World, step: Step) {
    step.Probe? && step.d < |w.daemons| && w.daemons[step.d] == PathTaken && w.path.Some? && w.path.value !in w.live ==>
      && Stale(w)
      && forall c :: 0 <= c < |w.daemons| ==> w.daemons[c] != Refused
  }

  predicate CarefulThroughout(w: World, steps: seq<Step>)
    decreases |steps|
  {
    steps == [] || (Careful(w, steps[0]) && CarefulThroughout(Apply(w, steps[0]), steps[1..]))
  }

  lemma {:induction false} InvIsExclusive(w: World)
    requires Inv(w)
    ensures Exclusive(w)
    ensures forall c, d :: 0 <= c < d < |w.daemons| ==> !(Holds(w.daemons[c]) && Holds(w.daemons[d]))
  {
  }

  lemma {:induction false} LiveHaveOwners(w: World, x: World, d: DaemonId)
    requires SocketsOk(w) && d < |w.daemons| == |x.daemons| && x.daemons == w.daemons[d := x.daemons[d]]
    requires forall s :: s in x.live ==> s in w.live || (HasSocket(x.daemons[d]) && x.daemons[d].s == s)
    requires HasSocket(w.daemons[d]) && w.daemons[d].s in x.live ==> HasSocket(x.daemons[d]) && x.daemons[d].s == w.daemons[d].s
    ensures forall s :: s in x.live ==> exists c :: 0 <= c < |x.daemons| && HasSocket(x.daemons[c]) && x.daemons[c].s == s
  {
    forall s | s in x.live ensures exists c :: 0 <= c < |x.daemons| && HasSocket(x.daemons[c]) && x.daemons[c].s == s {
      if s in w.live && !(HasSocket(x.daemons[d]) && x.daemons[d].s == s) {
        var c :| 0 <= c < |w.daemons| && HasSocket(w.daemons[c]) && w.daemons[c].s == s;
        assert c != d && x.daemons[c] == w.daemons[c];
      }
    }
  }

  lemma {:induction false} BindKeeps(w: World, step: Step)
    requires Inv(w) && step.Bind? && step.d < |w.daemons|
    ensures Inv(Apply(w, step))
  {
    LiveHaveOwners(w, Apply(w, step), step.d);
  }

  lemma {:induction false} ListenKeeps(w: World, step: Step)
    requires Inv(w) && step.Listen? && step.d < |w.daemons|
    ensures Inv(Apply(w, step))
  {
    LiveHaveOwners(w, Apply(w, step), step.d);
  }

  lemma {:induction false} RemoveKeeps(w: World, step: Step)
    requires Inv(w) && step.Remove? && step.d < |w.daemons|
    ensures Inv(Apply(w, step))
  {
    LiveHaveOwners(w, Apply(w, step), step.d);
  }

  lemma {:induction false} UnlinkKeeps(w: World, step: Step)
    requires Inv(w) && step.Unlink? && step.d < |w.daemons|
    ensures Inv(Apply(w, step))
  {
    LiveHaveOwners(w, Apply(w, step), step.d);
  }

  lemma {:induction false} CloseKeeps(w: World, step: Step)
    requires Inv(w) && step.Close? && step.d < |w.daemons|
    ensures Inv(Apply(w, step))
  {
    var x := Apply(w, step);
    LiveHaveOwners(w, x, step.d);
    assert forall c :: 0 <= c < |w.daemons| && c != step.d ==> x.daemons[c] == w.daemons[c];
    assert x.path == w.path && (!HasSocket(x.daemons[step.d]) || x == w);
  }

  lemma {:induction false} DieKeeps(w: World, step: Step)
    requires Inv(w) && step.Die? && step.d < |w.daemons|
    ensures Inv(Apply(w, step))
  {
    var x := Apply(w, step);
    LiveHaveOwners(w, x, step.d);
    assert forall c :: 0 <= c < |w.daemons| && c != step.d ==> x.daemons[c] == w.daemons[c];
    assert x.path == w.path && (!HasSocket(x.daemons[step.d]) || x == w);
  }

  lemma {:induction false} ProbeKeeps(w: World, step: Step)
    requires Inv(w) && step.Probe? && step.d < |w.daemons|
    ensures Inv(Apply(w, step)) <==> Careful(w, step)
  {
    var x := Apply(w, step);
    LiveHaveOwners(w, x, step.d);
    if x.daemons[step.d] == Refused && w.daemons[step.d] == PathTaken {
      assert forall c :: 0 <= c < |w.daemons| && c != step.d ==> x.daemons[c] == w.daemons[c];
      assert Stale(x) <==> Stale(w) by {
        assert forall c :: 0 <= c < |w.daemons| && HasSocket(w.daemons[c]) ==> x.daemons[c] == w.daemons[c];
      }
      if c :| 0 <= c < |w.daemons| && w.daemons[c] == Refused {
        assert x.daemons[c] == Refused;
        assert !RecoveryOk(x);
      }
    }
  }

  /** Every step keeps the invariant, except a probe exactly when it is careless. */
  lemma {:induction false} StepKeepsExactly(w: World, step: Step)
    requires Inv(w)
    ensures Inv(Apply(w, step)) <==> Careful(w, step)
  {
    if step.d < |w.daemons| {
      match step
      case Bind(_, _) => BindKeeps(w, step);
      case Listen(_) => ListenKeeps(w, step);
      case Probe(_) => ProbeKeeps(w, step);
      case Remove(_) => RemoveKeeps(w, step);
      case Unlink(_) => UnlinkKeeps(w, step);
      case Close(_) => CloseKeeps(w, step);
      case Die(_) => DieKeeps(w, step);
    }
  }

  lemma {:induction false} CarefulRunsKeep(w: World, steps: seq<Step>)
    requires Inv(w) && CarefulThroughout(w, steps)
    ensures Inv(Run(w, steps))
    decreases |steps|
  {
    if steps != [] {
      StepKeepsExactly(w, steps[0]);
      CarefulRunsKeep(Apply(w, steps[0]), steps[1..]);
    }
  }

  /** In every run whose refused probes are careful, one daemon at most accepts connections at any time. */
  lemma {:induction false} CarefulRunsAreExclusive(w: World, steps: seq<Step>)
    requires Initial(w) && CarefulThroughout(w, steps)
    ensures Inv(Run(w, steps)) && Exclusive(Run(w, steps))
  {
    CarefulRunsKeep(w, steps);
    InvIsExclusive(Run(w, steps));
  }

  /* ---- What a careless probe leads to ---- */

  lemma {:induction false} RunOneMore(w: World, first: Step, rest: seq<Step>)
    ensures Run(w, [first] + rest) == Run(Apply(w, first), rest)
  {
    assert ([first] + rest)[0] == first && ([first] + rest)[1..] == rest;
  }

  /** What daemon b does from a refused probe on, and what happens in between. */
  function Takeover(between: seq<Step>, b: DaemonId): seq<Step> {
    [Probe(b)] + (between + [Remove(b), Bind(b, true), Listen(b)])
  }

  lemma {:induction false} RemovalBreaks(w: World, a: DaemonId, b: DaemonId)
    requires a < |w.daemons| && b < |w.daemons| && a != b
    requires w.daemons[a].Listening? && w.daemons[b] == Refused && w.path.Some?
    ensures !Exclusive(Run(w, [Remove(b), Bind(b, true), Listen(b)]))
  {
    var w1 := Apply(w, Remove(b));
    var w2 := Apply(w1, Bind(b, true));
    var w3 := Apply(w2, Listen(b));
    RunOneMore(w2, Listen(b), []);
    RunOneMore(w1, Bind(b, true), [Listen(b)]);
    RunOneMore(w, Remove(b), [Bind(b, true), Listen(b)]);
    assert [Remove(b)] + ([Bind(b, true)] + ([Listen(b)] + [])) == [Remove(b), Bind(b, true), Listen(b)];
    assert [Bind(b, true)] + ([Listen(b)] + []) == [Bind(b, true), Listen(b)];
    assert w3.daemons[a] == w.daemons[a] && w3.daemons[b].Listening?;
  }

  /** The path was bound but the owner did not listen yet: it goes on to listen, and loses the path. */
  lemma {:induction false} EarlyProbeBreaks(w: World, a: DaemonId, b: DaemonId)
    requires Inv(w) && a < |w.daemons| && b < |w.daemons| && w.daemons[a].Bound? && w.daemons[b] == PathTaken
    ensures !Exclusive(Run(w, Takeover([Listen(a)], b)))
  {
    var w1 := Apply(w, Probe(b));
    var w2 := Apply(w1, Listen(a));
    var rest := [Remove(b), Bind(b, true), Listen(b)];
    RunOneMore(w, Probe(b), [Listen(a)] + rest);
    RunOneMore(w1, Listen(a), rest);
    RemovalBreaks(w2, a, b);
  }

  /** Two daemons recover from the same stale path: the second removes the path of the first. */
  lemma {:induction false} SecondRecoveryBreaks(w: World, a: DaemonId, b: DaemonId)
    requires Inv(w) && a < |w.daemons| && b < |w.daemons| && w.daemons[a] == Refused && w.daemons[b] == PathTaken
    ensures !Exclusive(Run(w, Takeover([Remove(a), Bind(a, true), Listen(a)], b)))
  {
    var w1 := Apply(w, Probe(b));
    var w2 := Apply(w1, Remove(a));
    var w3 := Apply(w2, Bind(a, true));
    var w4 := Apply(w3, Listen(a));
    var rest := [Remove(b), Bind(b, true), Listen(b)];
    var between := [Remove(a), Bind(a, true), Listen(a)];
    assert w1.daemons[b] == Refused && w1.daemons[a] == Refused;
    RunOneMore(w, Probe(b), between + rest);
    RunOneMore(w1, Remove(a), [Bind(a, true), Listen(a)] + rest);
    RunOneMore(w2, Bind(a, true), [Listen(a)] + rest);
    RunOneMore(w3, Listen(a), rest);
    assert between + rest == [Remove(a)] + ([Bind(a, true), Listen(a)] + rest);
    assert [Bind(a, true), Listen(a)] + rest == [Bind(a, true)] + ([Listen(a)] + rest);
    RemovalBreaks(w4, a, b);
  }

  /** So exclusion is safe exactly as long as refused probes are careful: after a careless one there is a way
      to two daemons that accept connections. */
  lemma {:induction false} CarelessProbeBreaks(w: World, b: DaemonId)
    requires Inv(w) && !Careful(w, Probe(b))
    ensures exists steps :: !Exclusive(Run(w, [Probe(b)] + steps))
  {
    if a :| 0 <= a < |w.daemons| && w.daemons[a] == Refused {
      SecondRecoveryBreaks(w, a, b);
    } else {
      var a :| 0 <= a < |w.daemons| && HasSocket(w.daemons[a]) && w.daemons[a].s == w.path.value;
      EarlyProbeBreaks(w, a, b);
    }
  }

  /** For one: the path is free, daemon 0 binds it, daemon 1 finds it taken and probes before daemon 0 listens. */
  lemma {:induction false} TwoFreshDaemonsBothListen(next: SocketId)
    ensures var w := World(None, {}, next, [NotStarted, NotStarted]);
            Initial(w) && !Exclusive(Run(w, [Bind(0, true), Bind(1, true)] + Takeover([Listen(0)], 1)))
  {
    var w := World(None, {}, next, [NotStarted, NotStarted]);
    var rest := Takeover([Listen(0)], 1);
    BothBind(next);
    EarlyProbeBreaks(Apply(Apply(w, Bind(0, true)), Bind(1, true)), 0, 1);
    assert [Bind(0, true), Bind(1, true)] + rest == [Bind(0, true)] + ([Bind(1, true)] + rest);
    RunOneMore(w, Bind(0, true), [Bind(1, true)] + rest);
    RunOneMore(Apply(w, Bind(0, true)), Bind(1, true), rest);
  }

  lemma {:induction false} BothBind(next: SocketId)
    ensures var w := Apply(Apply(World(None, {}, next, [NotStarted, NotStarted]), Bind(0, true)), Bind(1, true));
            Inv(w) && w.daemons == [Bound(next), PathTaken]
  {
    var w := World(None, {}, next, [NotStarted, NotStarted]);
    StepKeepsExactly(w, Bind(0, true));
    StepKeepsExactly(Apply(w, Bind(0, true)), Bind(1, true));
  }

  /* ---- Recovery ends ---- */

  /** How far a daemon is from the end of its life. */
  function Rank(p: Phase): nat {
    match p
    case NotStarted => 7
    case PathTaken => 6
    case Refused => 5
    case Removed => 4
    case Bound(_) => 3
    case Listening(_) => 2
    case Unlinked(_) => 1
    case Gone => 0
  }

  /** No daemon goes back: a step changes only its own daemon, and brings it nearer to its end, so a daemon binds
      twice at most and probes once. */
  lemma {:induction false} StepsDescend(w: World, step: Step, d: DaemonId)
    requires d < |w.daemons|
    ensures |Apply(w, step).daemons| == |w.daemons|
    ensures Apply(w, step).daemons[d] != w.daemons[d] ==>
              step.d == d && Rank(Apply(w, step).daemons[d]) < Rank(w.daemons[d])
  {
  }

  /** A daemon that binds gets the path if it is free; finding it taken it recovers, the first time, or gives up. */
  lemma {:induction false} BindsExactly(w: World, d: DaemonId, possible: bool)
    requires d < |w.daemons| && (w.daemons[d] == NotStarted || w.daemons[d] == Removed)
    ensures var after := Apply(w, Bind(d, possible));
            && (after.daemons[d].Bound? <==> possible && w.path.None?)
            && (after.daemons[d].Bound? ==> after.path == Some(after.daemons[d].s) && after.daemons[d].s == w.next < after.next)
            && (after.daemons[d] == PathTaken <==> possible && w.path.Some? && w.daemons[d] == NotStarted)
            && (after.daemons[d] == Gone <==> !possible || (w.path.Some? && w.daemons[d] == Removed))
            && (!after.daemons[d].Bound? ==> after.path == w.path) && after.live == w.live
  {
  }

  /** A listening daemon that drops its listener frees the path and takes no connection any more. */
  lemma {:induction false} DropsItsListener(w: World, d: DaemonId)
    requires Inv(w) && d < |w.daemons| && w.daemons[d].Listening?
    ensures w.path == Some(w.daemons[d].s) && w.daemons[d].s in w.live
    ensures var after := Apply(Apply(w, Unlink(d)), Close(d));
            after.daemons[d] == Gone && after.path.None? && after.live == w.live - {w.daemons[d].s}
  {
    assert HasSocket(w.daemons[d]);
  }
}
