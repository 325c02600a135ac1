/** The Codex provider: the registry of running children and the text that a session streams. */
module CodexWorkflow {
  import opened Common

  type Child = nat

  /* ---- The registry ---- */

  datatype Registry = Registry(all: set<Child>, bySession: map<string, set<Child>>)

  function SetOf(r: Registry, session: string): set<Child> {
    if session in r.bySession then r.bySession[session] else {}
  }

  function Registered(r: Registry, session: string, child: Child): Registry {
    Registry(r.all + {child}, r.bySession[session := SetOf(r, session) + {child}])
  }

  function Unregistered(r: Registry, session: string, child: Child): Registry {
    var all := r.all - {child};
    if session !in r.bySession then r.(all := all)
    else
      var rest := r.bySession[session] - {child};
      Registry(all, if rest == {} then r.bySession - {session} else r.bySession[session := rest])
  }

  class ChildRegistry {
    var activeChildren: set<Child>
    var activeChildrenBySession: map<string, set<Child>>

    function Contents(): Registry
      reads this
    {
      Registry(activeChildren, activeChildrenBySession)
    }

    constructor ()
      ensures Contents() == Registry({}, map[])
    {
      activeChildren, activeChildrenBySession := {}, map[];
    }

    method RegisterChild(session: string, child: Child)
      modifies this
      ensures Contents() == Registered(old(Contents()), session, child)
    {
      activeChildren := activeChildren + {child};
      var children: set<Child> := if session in activeChildrenBySession then activeChildrenBySession[session] else {};
      activeChildrenBySession := activeChildrenBySession[session := children + {child}];
    }

    method UnregisterChild(session: string, child: Option<Child>)
      modifies this
      ensures Contents() == match child case Some(c) => Unregistered(old(Contents()), session, c) case None => old(Contents())
    {
      if child.None? {
        return;
      }
      activeChildren := activeChildren - {child.value};
      if session !in activeChildrenBySession {
        return;
      }
      var children := activeChildrenBySession[session] - {child.value};
      if children == {} {
        activeChildrenBySession := activeChildrenBySession - {session};
      } else {
        activeChildrenBySession := activeChildrenBySession[session := children];
      }
    }

    /** One workflow run: the child is registered when it could be spawned, and whatever happens while it
        streams, it is unregistered in the end. */
    method RunSession(session: string, child: Option<Child>, lines: seq<Line>, exitCode: int, output: Option<string>)
      returns (emitted: seq<string>, result: Result<string, SessionError>)
      modifies this
      ensures Contents() == match child
                            case Some(c) => Unregistered(Registered(old(Contents()), session, c), session, c)
                            case None => old(Contents())
      ensures (emitted, result) == if child.Some? then Session(lines, exitCode, output) else ([], Err(SpawnFailed))
    {
      if child.None? {
        UnregisterChild(session, child);
        return [], Err(SpawnFailed);
      }
      RegisterChild(session, child.value);
      emitted, result := StreamSession(lines, exitCode, output);
      UnregisterChild(session, child);
    }
  }

  /** The global set is the union of the sessions' sets, none of which is empty. */
  ghost predicate Consistent(r: Registry) {
    && (forall c :: c in r.all <==> exists s :: s in r.bySession && c in r.bySession[s])
    && forall s :: s in r.bySession ==> r.bySession[s] != {}
  }

  /** A child belongs to one session at most. */
  ghost predicate OneSession(r: Registry) {
    forall s, t :: s in r.bySession && t in r.bySession && s != t ==> r.bySession[s] !! r.bySession[t]
  }

  /** Registering always keeps the union; a child stays in one session exactly when it was in no other. */
  lemma {:induction false} RegisterKeeps(r: Registry, session: string, child: Child)
    requires Consistent(r) && OneSession(r)
    ensures Consistent(Registered(r, session, child))
    ensures OneSession(Registered(r, session, child))
            <==> forall s :: s in r.bySession && s != session ==> child !in r.bySession[s]
  {
    var t := Registered(r, session, child);
    forall c ensures c in t.all <==> exists s :: s in t.bySession && c in t.bySession[s] {
      if c in r.all {
        var s :| s in r.bySession && c in r.bySession[s];
        assert c in t.bySession[s];
      }
      assert child in t.bySession[session];
    }
    if OneSession(t) {
      forall s | s in r.bySession && s != session ensures child !in r.bySession[s] {
        assert t.bySession[s] !! t.bySession[session];
        assert child in t.bySession[session];
      }
    }
  }

  /** Unregistering keeps the union exactly when the child is in no other session's set. */
  lemma {:induction false} UnregisterKeepsExactly(r: Registry, session: string, child: Child)
    requires Consistent(r)
    ensures Consistent(Unregistered(r, session, child))
            <==> forall s :: s in r.bySession && s != session ==> child !in r.bySession[s]
  {
    var t := Unregistered(r, session, child);
    if Consistent(t) {
      forall s | s in r.bySession && s != session ensures child !in r.bySession[s] {
        assert s in t.bySession && t.bySession[s] == r.bySession[s];
        assert child !in t.all;
      }
    }
    if forall s :: s in r.bySession && s != session ==> child !in r.bySession[s] {
      forall c ensures c in t.all <==> exists s :: s in t.bySession && c in t.bySession[s] {
        if c in t.all {
          var s :| s in r.bySession && c in r.bySession[s];
          assert s in t.bySession && c in t.bySession[s];
        }
        if s :| s in t.bySession && c in t.bySession[s] {
          assert s in r.bySession && c in r.bySession[s];
        }
      }
    }
  }

  /** Unregistering removes the child from the global set and from its session, and leaves no set empty and
      no child in two sessions. */
  lemma {:induction false} UnregisterRemoves(r: Registry, session: string, child: Child)
    requires forall s :: s in r.bySession ==> r.bySession[s] != {}
    ensures var t := Unregistered(r, session, child);
            && child !in t.all && child !in SetOf(t, session)
            && (forall s :: s in t.bySession ==> t.bySession[s] != {})
            && (OneSession(r) ==> OneSession(t))
  {
  }

  /** A whole run leaves the registry as it found it exactly when its child is new to it. */
  lemma {:induction false} RunRestores(r: Registry, session: string, child: Child)
    requires Consistent(r)
    ensures Unregistered(Registered(r, session, child), session, child) == r <==> child !in r.all
  {
    UnregisterRemoves(Registered(r, session, child), session, child);
    if child !in r.all {
      NewChildInNoSession(r, session, child);
      RestoresSets(r, session, child);
      assert (r.all + {child}) - {child} == r.all;
    }
  }

  lemma {:induction false} NewChildInNoSession(r: Registry, session: string, child: Child)
    requires Consistent(r) && child !in r.all
    ensures child !in SetOf(r, session)
  {
  }

  lemma {:induction false} RestoresSets(r: Registry, session: string, child: Child)
    requires child !in SetOf(r, session) && (session in r.bySession ==> r.bySession[session] != {})
    ensures Unregistered(Registered(r, session, child), session, child).bySession == r.bySession
  {
    var m := Registered(r, session, child);
    assert m.bySession[session] - {child} == SetOf(r, session);
    if session in r.bySession {
      assert m.bySession[session := r.bySession[session]] == r.bySession;
    } else {
      assert m.bySession - {session} == r.bySession;
    }
  }

  /* ---- Interleaved runs ---- */

  datatype RunState = NotStarted | Running | Ended

  /** The sessions and children of some workflow runs; every run spawned its own child. */
  datatype Run = Run(session: string, child: Child)

  predicate OwnChildren(runs: seq<Run>) {
    forall i, j :: 0 <= i < j < |runs| ==> runs[i].child != runs[j].child
  }

  datatype World = World(registry: Registry, states: seq<RunState>)

  datatype Step = Start(i: nat) | End(i: nat)

  function Apply(runs: seq<Run>, w: World, s: Step): World
    requires |w.states| == |runs|
  {
    match s
    case Start(i) =>
      if i < |runs| && w.states[i].NotStarted?
      then World(Registered(w.registry, runs[i].session, runs[i].child), w.states[i := Running]) else w
    case End(i) =>
      if i < |runs| && w.states[i].Running?
      then World(Unregistered(w.registry, runs[i].session, runs[i].child), w.states[i := Ended]) else w
  }

  function ApplyAll(runs: seq<Run>, w: World, steps: seq<Step>): World
    requires |w.states| == |runs|
    decreases |steps|
  {
    if steps == [] then w else ApplyAll(runs, Apply(runs, w, steps[0]), steps[1..])
  }

  /** Run i is under way and has this child in this session. */
  predicate Live(runs: seq<Run>, w: World, i: int, s: string, c: Child) {
    |w.states| == |runs| && 0 <= i < |runs| && runs[i] == Run(s, c) && w.states[i].Running?
  }

  /** Registered are exactly the children of the runs under way, each in its own session. */
  ghost predicate Accurate(runs: seq<Run>, w: World) {
    && |w.states| == |runs|
    && (forall c :: c in w.registry.all <==> exists i, s :: Live(runs, w, i, s, c))
    && (forall s, c :: c in SetOf(w.registry, s) <==> exists i :: Live(runs, w, i, s, c))
    && (forall s :: s in w.registry.bySession ==> w.registry.bySession[s] != {})
  }

  /** Which runs are live after a run was started or ended. */
  lemma {:induction false} LiveAfter(runs: seq<Run>, w: World, i: nat, st: RunState, v: World)
    requires |w.states| == |runs| && i < |runs| && v.states == w.states[i := st]
    ensures forall j, s, c :: Live(runs, v, j, s, c)
              <==> if j == i then st.Running? && runs[i] == Run(s, c) else Live(runs, w, j, s, c)
  {
  }

  lemma {:induction false} StartKeeps(runs: seq<Run>, w: World, i: nat)
    requires OwnChildren(runs) && Accurate(runs, w) && i < |runs| && w.states[i].NotStarted?
    ensures Accurate(runs, Apply(runs, w, Start(i)))
  {
    var v := Apply(runs, w, Start(i));
    LiveAfter(runs, w, i, Running, v);
    assert Live(runs, v, i, runs[i].session, runs[i].child);
    forall c ensures c in v.registry.all <==> exists j, s :: Live(runs, v, j, s, c) {
      if c in w.registry.all {
        var j, s :| Live(runs, w, j, s, c);
        assert Live(runs, v, j, s, c);
      }
    }
    forall s, c ensures c in SetOf(v.registry, s) <==> exists j :: Live(runs, v, j, s, c) {
      if c in SetOf(w.registry, s) {
        var j :| Live(runs, w, j, s, c);
        assert Live(runs, v, j, s, c);
      }
    }
  }

  /** The child of a run is in no other run's session. */
  lemma {:induction false} LiveChildIsOwn(runs: seq<Run>, w: World, i: nat, j: int, s: string)
    requires OwnChildren(runs) && i < |runs| && Live(runs, w, j, s, runs[i].child)
    ensures j == i && s == runs[i].session
  {
  }

  lemma {:induction false} UnregisteredSets(r: Registry, session: string, child: Child)
    ensures forall s :: SetOf(Unregistered(r, session, child), s) == if s == session then SetOf(r, s) - {child} else SetOf(r, s)
    ensures (forall s :: s in r.bySession ==> r.bySession[s] != {})
            ==> forall s :: s in Unregistered(r, session, child).bySession ==> Unregistered(r, session, child).bySession[s] != {}
  {
  }

  lemma {:induction false} EndKeeps(runs: seq<Run>, w: World, i: nat)
    requires OwnChildren(runs) && Accurate(runs, w) && i < |runs| && w.states[i].Running?
    ensures Accurate(runs, Apply(runs, w, End(i)))
  {
    var v, own := Apply(runs, w, End(i)), runs[i].child;
    LiveAfter(runs, w, i, Ended, v);
    UnregisteredSets(w.registry, runs[i].session, own);
    forall j, s | Live(runs, w, j, s, own) ensures j == i && s == runs[i].session {
      LiveChildIsOwn(runs, w, i, j, s);
    }
    forall c ensures c in v.registry.all <==> exists j, s :: Live(runs, v, j, s, c) {
      if c in v.registry.all {
        var j, s :| Live(runs, w, j, s, c);
        assert Live(runs, v, j, s, c);
      }
    }
    forall s, c ensures c in SetOf(v.registry, s) <==> exists j :: Live(runs, v, j, s, c) {
      if c in SetOf(v.registry, s) {
        var j :| Live(runs, w, j, s, c);
        assert Live(runs, v, j, s, c);
      }
    }
  }

  /** However runs overlap, ending a session finds exactly the children of its runs under way. */
  lemma {:induction false} RegistryStaysAccurate(runs: seq<Run>, w: World, steps: seq<Step>)
    requires OwnChildren(runs) && Accurate(runs, w)
    ensures Accurate(runs, ApplyAll(runs, w, steps))
    decreases |steps|
  {
    if steps != [] {
      match steps[0]
      case Start(i) =>
        if i < |runs| && w.states[i].NotStarted? {
          StartKeeps(runs, w, i);
        }
        RegistryStaysAccurate(runs, Apply(runs, w, steps[0]), steps[1..]);
      case End(i) =>
        if i < |runs| && w.states[i].Running? {
          EndKeeps(runs, w, i);
        }
        RegistryStaysAccurate(runs, Apply(runs, w, steps[0]), steps[1..]);
    }
  }

  /** An accurate registry is consistent, and empty once no run is under way. */
  lemma {:induction false} AccurateIsConsistent(runs: seq<Run>, w: World)
    requires OwnChildren(runs) && Accurate(runs, w)
    ensures Consistent(w.registry) && OneSession(w.registry)
    ensures (forall i :: 0 <= i < |runs| ==> !w.states[i].Running?) ==> w.registry == Registry({}, map[])
  {
    var r := w.registry;
    forall c ensures c in r.all <==> exists s :: s in r.bySession && c in r.bySession[s] {
      if c in r.all {
        var i, s :| Live(runs, w, i, s, c);
        assert c in SetOf(r, s);
      }
      if s :| s in r.bySession && c in r.bySession[s] {
        assert c in SetOf(r, s);
      }
    }
    forall s, t | s in r.bySession && t in r.bySession && s != t ensures r.bySession[s] !! r.bySession[t] {
      forall c | c in r.bySession[s] ensures c !in r.bySession[t] {
        OneLiveSession(runs, w, s, t, c);
      }
    }
    if forall i :: 0 <= i < |runs| ==> !w.states[i].Running? {
      forall s ensures s !in r.bySession {
        assert forall c :: c !in SetOf(r, s);
        assert SetOf(r, s) == {};
      }
      assert r.bySession == map[];
      assert r.all == {};
    }
  }

  lemma {:induction false} OneLiveSession(runs: seq<Run>, w: World, s: string, t: string, c: Child)
    requires OwnChildren(runs) && Accurate(runs, w) && s != t && c in SetOf(w.registry, s)
    ensures c !in SetOf(w.registry, t)
  {
    var i :| Live(runs, w, i, s, c);
    forall j | Live(runs, w, j, t, c) ensures false {
      LiveChildIsOwn(runs, w, i, j, t);
    }
  }

  /* ---- The stream ---- */

  /** A line of the child's output: blank, not JSON, or an event with or without a text delta. */
  datatype Line = Blank | NotJson | Event(delta: Option<string>)

  datatype SessionError = SpawnFailed | BadLine | ExitFailure(code: int) | NoOutput

  function Concat(chunks: seq<string>): string {
    if chunks == [] then "" else Concat(chunks[..|chunks| - 1]) + chunks[|chunks| - 1]
  }

  /** The chunks streamed up to the first line that is not JSON, and whether there is one. */
  function Streamed(lines: seq<Line>): (seq<string>, bool) {
    if lines == [] then ([], false)
    else
      match lines[0]
      case Blank => Streamed(lines[1..])
      case NotJson => ([], true)
      case Event(delta) =>
        var rest := Streamed(lines[1..]);
        match delta
        case Some(chunk) => (if chunk == "" then rest.0 else [chunk] + rest.0, rest.1)
        case None => rest
  }

  function CompletionSuffix(streamed: string, finalText: string): string {
    if streamed == "" then finalText
    else if streamed <= finalText then finalText[|streamed|..]
    else ""
  }

  function Session(lines: seq<Line>, exitCode: int, output: Option<string>): (seq<string>, Result<string, SessionError>) {
    var (chunks, bad) := Streamed(lines);
    if bad then (chunks, Err(BadLine))
    else if exitCode != 0 then (chunks, Err(ExitFailure(exitCode)))
    else match output
         case None => (chunks, Err(NoOutput))
         case Some(finalText) =>
           var streamed := Concat(chunks);
           var suffix := if finalText != "" && streamed != finalText then CompletionSuffix(streamed, finalText) else "";
           (if suffix != "" then chunks + [suffix] else chunks, Ok(finalText))
  }

  method StreamSession(lines: seq<Line>, exitCode: int, output: Option<string>)
    returns (emitted: seq<string>, result: Result<string, SessionError>)
    ensures (emitted, result) == Session(lines, exitCode, output)
  {
    emitted := [];
    var streamedText := "";
    assert lines[0..] == lines && [] + Streamed(lines).0 == Streamed(lines).0;
    for i := 0 to |lines|
      invariant streamedText == Concat(emitted)
      invariant Streamed(lines) == (emitted + Streamed(lines[i..]).0, Streamed(lines[i..]).1)
    {
      StreamedStep(lines, i, emitted);
      match lines[i] {
        case Blank =>
        case NotJson =>
          return emitted, Err(BadLine);
        case Event(delta) =>
          if delta.Some? && delta.value != "" {
            ConcatSnoc(emitted, delta.value);
            streamedText := streamedText + delta.value;
            emitted := emitted + [delta.value];
          }
      }
    }
    assert lines[|lines|..] == [] && emitted + [] == emitted;
    if exitCode != 0 {
      return emitted, Err(ExitFailure(exitCode));
    }
    if output.None? {
      return emitted, Err(NoOutput);
    }
    var finalText := output.value;
    if finalText != "" && streamedText != finalText {
      var suffix := CompletionSuffix(streamedText, finalText);
      if suffix != "" {
        emitted := emitted + [suffix];
      }
    }
    result := Ok(finalText);
  }

  lemma {:induction false} StreamedStep(lines: seq<Line>, i: nat, before: seq<string>)
    requires i < |lines|
    ensures var rest, next := Streamed(lines[i..]), Streamed(lines[i + 1..]);
            match lines[i]
            case NotJson => before + rest.0 == before && rest.1
            case Event(Some(chunk)) =>
              rest.1 == next.1 && before + rest.0 == if chunk == "" then before + next.0 else (before + [chunk]) + next.0
            case _ => rest == next
  {
    assert lines[i..][0] == lines[i] && lines[i..][1..] == lines[i + 1..];
    match lines[i]
    case Event(Some(chunk)) =>
      var next := Streamed(lines[i + 1..]).0;
      assert before + ([chunk] + next) == (before + [chunk]) + next;
    case _ =>
  }

  lemma {:induction false} ConcatSnoc(chunks: seq<string>, chunk: string)
    ensures Concat(chunks + [chunk]) == Concat(chunks) + chunk
  {
    assert (chunks + [chunk])[..|chunks + [chunk]| - 1] == chunks;
  }

  lemma {:induction false} NoEmptyChunk(lines: seq<Line>)
    ensures "" !in Streamed(lines).0
  {
    if lines != [] {
      NoEmptyChunk(lines[1..]);
    }
  }

  /** In a session that succeeds the emitted chunks, none of them empty, make up the final text exactly when
      what was streamed is a prefix of it; otherwise they make up what was streamed. */
  lemma {:induction false} EmittedIsFinalExactly(lines: seq<Line>, output: string)
    requires !Streamed(lines).1
    ensures var (emitted, result) := Session(lines, 0, Some(output));
            && result == Ok(output) && "" !in emitted
            && (Concat(emitted) == output <==> Concat(Streamed(lines).0) <= output)
            && (Concat(emitted) != output ==> emitted == Streamed(lines).0)
  {
    var chunks := Streamed(lines).0;
    var streamed := Concat(chunks);
    NoEmptyChunk(lines);
    ConcatSnoc(chunks, CompletionSuffix(streamed, output));
    if streamed <= output {
      assert output == streamed + output[|streamed|..];
    }
  }

  /** A session fails exactly when a line is not JSON, or else the exit code is not zero, or else there is no output;
      it has then emitted what was streamed, and nothing else. */
  lemma {:induction false} FailureEmitsStreamed(lines: seq<Line>, exitCode: int, output: Option<string>)
    ensures var (emitted, result) := Session(lines, exitCode, output);
            && (result.Err? <==> NotJson in lines || exitCode != 0 || output.None?)
            && (result == Err(BadLine) <==> NotJson in lines)
            && (result == Err(ExitFailure(exitCode)) <==> NotJson !in lines && exitCode != 0)
            && (result == Err(NoOutput) <==> NotJson !in lines && exitCode == 0 && output.None?)
            && (result.Err? ==> emitted == Streamed(lines).0)
  {
    StreamStopsExactly(lines);
  }

  lemma {:induction false} StreamStopsExactly(lines: seq<Line>)
    ensures Streamed(lines).1 <==> NotJson in lines
  {
    if lines != [] {
      StreamStopsExactly(lines[1..]);
      assert lines == [lines[0]] + lines[1..];
    }
  }

  /** What was streamed, up to the first line that is not JSON, is the text of all deltas. */
  lemma {:induction false} StreamedIsDeltas(lines: seq<Line>)
    requires NotJson !in lines
    ensures Concat(Streamed(lines).0) == Deltas(lines)
  {
    if lines != [] {
      StreamedIsDeltas(lines[1..]);
      if lines[0].Event? && lines[0].delta.Some? {
        ConcatCons(lines[0].delta.value, Streamed(lines[1..]).0);
      }
    }
  }

  /** The deltas of these lines, one after the other. */
  function Deltas(lines: seq<Line>): string {
    if lines == [] then ""
    else (if lines[0].Event? && lines[0].delta.Some? then lines[0].delta.value else "") + Deltas(lines[1..])
  }

  lemma {:induction false} ConcatCons(chunk: string, rest: seq<string>)
    ensures Concat([chunk] + rest) == chunk + Concat(rest)
  {
    if rest != [] {
      var front, last := rest[..|rest| - 1], rest[|rest| - 1];
      ConcatCons(chunk, front);
      assert rest == front + [last] && [chunk] + rest == ([chunk] + front) + [last];
      ConcatSnoc([chunk] + front, last);
    } else {
      assert [chunk] + rest == [chunk];
      ConcatSnoc([], chunk);
    }
  }
}
