/** Start-up and shut-down of any number of daemons that compete for one socket. */
module DaemonLifecycle {
  import opened Common

  type DaemonId = nat
  type TaskId = nat

  /** Where a daemon stands between its start and its exit. */
  datatype Phase =
    | Starting
    | Bound
    | Reconciled
    | Serving
    | Draining
    | AwaitingResponse
    | DrainingJobs
    | ReadyToExit
    | Exited

  datatype TaskState = Running | Finished | Aborting

  /** `tasks` is the set of spawned connection tasks that were not joined yet; `requested` and `drained` are the
      tasks that were asked to shut the daemon down, and those of them that have drained its jobs. */
  datatype Daemon = Daemon(
    phase: Phase, tasks: map<TaskId, TaskState>, spawned: nat, requested: set<TaskId>, drained: set<TaskId>,
    shutdownRequested: bool, responseObserved: bool)

  datatype Event =
    | BoundSocket(d: DaemonId)
    | ReconciledManifests(d: DaemonId)
    | WroteToken(d: DaemonId)
    | SpawnedTask(d: DaemonId, t: TaskId)
    | FinishedTask(d: DaemonId, t: TaskId)
    | ToldToAbort(d: DaemonId, t: TaskId)
    | RequestedShutdown(d: DaemonId, t: TaskId)
    | HandlerDrained(d: DaemonId, t: TaskId)
    | AnsweredShutdown(d: DaemonId, t: TaskId)
    | DrainedJobs(d: DaemonId)
    | ReleasedSocket(d: DaemonId)

  datatype World = World(holder: Option<DaemonId>, daemons: seq<Daemon>, log: seq<Event>)

  /** Binding is atomic: it fails exactly when the socket is held (or for a reason of its own). */
  datatype Step =
    | Bind(d: DaemonId, possible: bool)
    | Reconcile(d: DaemonId, ok: bool)
    | WriteToken(d: DaemonId, ok: bool)
    | Accept(d: DaemonId)
    | ShutDown(d: DaemonId, t: TaskId)
    | HandlerDrain(d: DaemonId, t: TaskId)
    | AnswerShutdown(d: DaemonId, t: TaskId)
    | ObserveResponse(d: DaemonId, t: TaskId)
    | TaskEnds(d: DaemonId, t: TaskId)
    | Join(d: DaemonId, t: TaskId)
    | LeaveLoop(d: DaemonId, signalled: bool)
    | DrainedAll(d: DaemonId)
    | DrainTimedOut(d: DaemonId)
    | StopAwaiting(d: DaemonId, timedOut: bool)
    | DrainJobs(d: DaemonId)
    | Exit(d: DaemonId)

  function With(w: World, d: DaemonId, x: Daemon): World
    requires d < |w.daemons|
  {
    w.(daemons := w.daemons[d := x])
  }

  function Log(w: World, e: Event): World {
    w.(log := w.log + [e])
  }

  /** The events of telling every task that is still running to abort. */
  function AbortEvents(d: DaemonId, tasks: map<TaskId, TaskState>, bound: nat): seq<Event> {
    if bound == 0 then []
    else if bound - 1 in tasks && tasks[bound - 1].Running?
    then AbortEvents(d, tasks, bound - 1) + [ToldToAbort(d, bound - 1)]
    else AbortEvents(d, tasks, bound - 1)
  }

  function AbortAll(tasks: map<TaskId, TaskState>): map<TaskId, TaskState> {
    map t | t in tasks :: if tasks[t].Running? then Aborting else tasks[t]
  }

  /** The task can still take steps; one that was told to abort may be in the middle of them, even when its
      daemon has let go of the socket. */
  predicate Active(x: Daemon, t: TaskId) {
    t in x.tasks && x.tasks[t] != Finished
  }

  /** One atomic step of daemon `d`; a step that its phase does not allow changes nothing. */
  function Apply(w: World, step: Step): World {
    if step.d >= |w.daemons| then w
    else
      var d, x := step.d, w.daemons[step.d];
      match step
      case Bind(_, possible) =>
        if x.phase != Starting then w
        else if w.holder.Some? || !possible then With(w, d, x.(phase := Exited))
        else Log(With(w, d, x.(phase := Bound)).(holder := Some(d)), BoundSocket(d))
      case Reconcile(_, ok) =>
        if x.phase != Bound then w
        else Log(With(w, d, x.(phase := if ok then Reconciled else ReadyToExit)), ReconciledManifests(d))
      case WriteToken(_, ok) =>
        if x.phase != Reconciled then w
        else if !ok then With(w, d, x.(phase := ReadyToExit))
        else Log(With(w, d, x.(phase := Serving)), WroteToken(d))
      case Accept(_) =>
        if x.phase != Serving then w
        else if x.shutdownRequested then With(w, d, x.(phase := Draining))
        else Log(With(w, d, x.(tasks := x.tasks[x.spawned := Running], spawned := x.spawned + 1)), SpawnedTask(d, x.spawned))
      case ShutDown(_, t) =>
        if !Active(x, t) then w
        else Log(With(w, d, x.(shutdownRequested := true, requested := x.requested + {t})), RequestedShutdown(d, t))
      case HandlerDrain(_, t) =>
        if !Active(x, t) || t !in x.requested then w
        else Log(With(w, d, x.(drained := x.drained + {t})), HandlerDrained(d, t))
      case AnswerShutdown(_, t) =>
        if !Active(x, t) || t !in x.drained then w
        else Log(With(w, d, x.(responseObserved := true)), AnsweredShutdown(d, t))
      case ObserveResponse(_, t) =>
        if Active(x, t) && x.shutdownRequested then With(w, d, x.(responseObserved := true)) else w
      case TaskEnds(_, t) =>
        if t in x.tasks && x.tasks[t] != Finished
        then Log(With(w, d, x.(tasks := x.tasks[t := Finished])), FinishedTask(d, t)) else w
      case Join(_, t) =>
        if x.phase in {Serving, Draining} && t in x.tasks && x.tasks[t].Finished?
        then With(w, d, x.(tasks := x.tasks - {t})) else w
      case LeaveLoop(_, signalled) =>
        if x.phase == Serving && (signalled || x.shutdownRequested) then With(w, d, x.(phase := Draining)) else w
      case DrainedAll(_) =>
        if x.phase == Draining && x.tasks == map[] then With(w, d, x.(phase := AwaitingResponse)) else w
      case DrainTimedOut(_) =>
        if x.phase != Draining then w
        else With(w, d, x.(phase := AwaitingResponse, tasks := AbortAll(x.tasks)))
             .(log := w.log + AbortEvents(d, x.tasks, x.spawned))
      case StopAwaiting(_, timedOut) =>
        if x.phase == AwaitingResponse && (!x.shutdownRequested || x.responseObserved || timedOut)
        then With(w, d, x.(phase := DrainingJobs)) else w
      case DrainJobs(_) =>
        if x.phase != DrainingJobs then w
        else Log(With(w, d, x.(phase := ReadyToExit)), DrainedJobs(d))
      case Exit(_) =>
        if x.phase != ReadyToExit then w
        else Log(With(w, d, x.(phase := Exited)).(holder := None), ReleasedSocket(d))
  }

  function Run(w: World, steps: seq<Step>): World
    decreases |steps|
  {
    if steps == [] then w else Run(Apply(w, steps[0]), steps[1..])
  }

  predicate Fresh(x: Daemon) {
    x.phase == Starting && x.tasks == map[] && x.spawned == 0 && x.requested == {} && x.drained == {} && !x.shutdownRequested && !x.responseObserved
  }

  predicate Initial(w: World) {
    w.holder.None? && w.log == [] && forall d :: 0 <= d < |w.daemons| ==> Fresh(w.daemons[d])
  }

  /* ---- What a log must satisfy, told from the log alone ---- */

  /** After the first n events: the daemon that bound the socket last and has not released it. */
  function HolderAt(log: seq<Event>, n: nat): Option<DaemonId>
    requires n <= |log|
  {
    if n == 0 then None
    else match log[n - 1]
         case BoundSocket(d) => Some(d)
         case ReleasedSocket(_) => None
         case _ => HolderAt(log, n - 1)
  }

  /** The event is among the first n. */
  predicate Happened(log: seq<Event>, n: nat, e: Event)
    requires n <= |log|
  {
    exists k :: 0 <= k < n && log[k] == e
  }

  /** Every connection task the daemon spawned has finished or was told to abort. */
  ghost predicate TasksSettled(log: seq<Event>, n: nat, d: DaemonId)
    requires n <= |log|
  {
    forall t: TaskId :: Happened(log, n, SpawnedTask(d, t))
      ==> Happened(log, n, FinishedTask(d, t)) || Happened(log, n, ToldToAbort(d, t))
  }

  /** Whether an event may come after the first n. */
  ghost predicate Allowed(log: seq<Event>, n: nat, e: Event)
    requires n <= |log|
  {
    match e
    case BoundSocket(d) => HolderAt(log, n).None?
    case ReconciledManifests(d) => HolderAt(log, n) == Some(d) && !Happened(log, n, WroteToken(d))
    case WroteToken(d) => HolderAt(log, n) == Some(d) && Happened(log, n, ReconciledManifests(d))
    case SpawnedTask(d, t) =>
      HolderAt(log, n) == Some(d) && Happened(log, n, WroteToken(d)) && !Happened(log, n, DrainedJobs(d))
    case FinishedTask(d, t) => Happened(log, n, SpawnedTask(d, t))
    case ToldToAbort(d, t) => Happened(log, n, SpawnedTask(d, t)) && !Happened(log, n, FinishedTask(d, t))
    case RequestedShutdown(d, t) => Happened(log, n, SpawnedTask(d, t)) && !Happened(log, n, FinishedTask(d, t))
    case HandlerDrained(d, t) => Happened(log, n, RequestedShutdown(d, t)) && !Happened(log, n, FinishedTask(d, t))
    case AnsweredShutdown(d, t) => Happened(log, n, HandlerDrained(d, t)) && !Happened(log, n, FinishedTask(d, t))
    case DrainedJobs(d) => HolderAt(log, n) == Some(d) && Happened(log, n, WroteToken(d)) && TasksSettled(log, n, d)
    case ReleasedSocket(d) =>
      HolderAt(log, n) == Some(d) && (Happened(log, n, WroteToken(d)) ==> Happened(log, n, DrainedJobs(d)))
  }

  ghost predicate LogOk(log: seq<Event>) {
    forall n {:trigger Allowed(log, n, log[n])} :: 0 <= n < |log| ==> Allowed(log, n, log[n])
  }

  /* ---- The invariant that ties the world to its log ---- */

  predicate Holds(p: Phase) {
    p != Starting && p != Exited
  }

  predicate Served(p: Phase) {
    p in {Serving, Draining, AwaitingResponse, DrainingJobs}
  }

  predicate TaskOk(log: seq<Event>, d: DaemonId, x: Daemon, t: TaskId) {
    && (SpawnedTask(d, t) in log <==> t < x.spawned)
    && (t in x.tasks ==> t < x.spawned)
    && (t < x.spawned && t !in x.tasks ==> FinishedTask(d, t) in log)
    && (t in x.tasks ==> (x.tasks[t].Finished? <==> FinishedTask(d, t) in log))
    && (t in x.tasks && x.tasks[t].Aborting? ==> ToldToAbort(d, t) in log)
    && (t in x.tasks && x.tasks[t].Running? ==> ToldToAbort(d, t) !in log)
    && (RequestedShutdown(d, t) in log <==> t in x.requested) && (t in x.requested ==> t < x.spawned)
    && (HandlerDrained(d, t) in log <==> t in x.drained)
  }

  /** The events that the account of a daemon's tasks goes by. */
  predicate IsTaskEvent(e: Event) {
    e.SpawnedTask? || e.FinishedTask? || e.ToldToAbort? || e.RequestedShutdown? || e.HandlerDrained?
  }

  ghost predicate DaemonOk(log: seq<Event>, d: DaemonId, x: Daemon) {
    && (forall t: TaskId :: TaskOk(log, d, x, t))
    && (x.phase in {Starting, Bound, Reconciled} ==> WroteToken(d) !in log && x.spawned == 0)
    && (x.phase == Reconciled ==> ReconciledManifests(d) in log)
    && (Served(x.phase) ==> WroteToken(d) in log && DrainedJobs(d) !in log)
    && (x.phase in {AwaitingResponse, DrainingJobs} ==> forall t :: t in x.tasks ==> !x.tasks[t].Running?)
    && (x.phase == ReadyToExit && WroteToken(d) in log ==> DrainedJobs(d) in log)
  }

  ghost predicate Inv(w: World) {
    && LogOk(w.log) && w.holder == HolderAt(w.log, |w.log|)
    && (forall d :: 0 <= d < |w.daemons| ==> DaemonOk(w.log, d, w.daemons[d]))
    && forall d :: 0 <= d < |w.daemons| ==> (Holds(w.daemons[d].phase) <==> w.holder == Some(d))
  }

  lemma {:induction false} SamePrefix(a: seq<Event>, b: seq<Event>, n: nat)
    requires n <= |a| && n <= |b| && forall k :: 0 <= k < n ==> a[k] == b[k]
    ensures HolderAt(a, n) == HolderAt(b, n)
    ensures forall e :: Happened(a, n, e) <==> Happened(b, n, e)
  {
    if n > 0 {
      SamePrefix(a, b, n - 1);
    }
  }

  lemma {:induction false} LogExtends(log: seq<Event>, e: Event)
    requires LogOk(log) && Allowed(log, |log|, e)
    ensures LogOk(log + [e])
    ensures HolderAt(log + [e], |log| + 1)
            == match e case BoundSocket(d) => Some(d) case ReleasedSocket(_) => None case _ => HolderAt(log, |log|)
  {
    var l := log + [e];
    SamePrefix(log, l, |log|);
    forall n | 0 <= n < |l| ensures Allowed(l, n, l[n]) {
      SamePrefix(log, l, n);
      assert n < |log| ==> Allowed(log, n, log[n]);
    }
  }

  lemma {:induction false} HappenedIsIn(log: seq<Event>, e: Event)
    ensures Happened(log, |log|, e) <==> e in log
  {
  }

  /** The two logs hold the same events of daemon d. */
  ghost predicate SameEvents(a: seq<Event>, b: seq<Event>, d: DaemonId) {
    forall e: Event :: e.d == d ==> (e in a <==> e in b)
  }

  /** What one daemon does leaves the account of every other as it was. */
  lemma {:induction false} OthersUntouched(a: seq<Event>, b: seq<Event>, d: DaemonId, x: Daemon)
    requires DaemonOk(a, d, x) && SameEvents(a, b, d)
    ensures DaemonOk(b, d, x)
  {
    forall t: TaskId ensures TaskOk(b, d, x, t) {
      assert TaskOk(a, d, x, t);
      assert SpawnedTask(d, t).d == FinishedTask(d, t).d == ToldToAbort(d, t).d == d;
      assert RequestedShutdown(d, t).d == HandlerDrained(d, t).d == d;
    }
    assert WroteToken(d).d == DrainedJobs(d).d == ReconciledManifests(d).d == d;
  }

  /** A step of daemon d that leaves the holder alone, or takes or gives up the socket for d. */
  lemma {:induction false} StepFrame(w: World, v: World, d: DaemonId)
    requires Inv(w) && d < |w.daemons|
    requires |v.daemons| == |w.daemons| && (forall i :: 0 <= i < |w.daemons| && i != d ==> v.daemons[i] == w.daemons[i])
    requires LogOk(v.log) && v.holder == HolderAt(v.log, |v.log|)
    requires forall i: DaemonId :: i != d ==> SameEvents(w.log, v.log, i)
    requires DaemonOk(v.log, d, v.daemons[d])
    requires v.holder == w.holder || (w.holder.None? && v.holder == Some(d)) || (w.holder == Some(d) && v.holder.None?)
    requires Holds(v.daemons[d].phase) <==> v.holder == Some(d)
    ensures Inv(v)
  {
    forall i | 0 <= i < |v.daemons| ensures DaemonOk(v.log, i, v.daemons[i]) {
      if i != d {
        OthersUntouched(w.log, v.log, i, w.daemons[i]);
      }
    }
  }

  /** A step that logs one event of its own daemon. */
  lemma {:induction false} LoggedFrame(w: World, v: World, d: DaemonId, e: Event)
    requires Inv(w) && d < |w.daemons| && e.d == d
    requires |v.daemons| == |w.daemons| && (forall i :: 0 <= i < |w.daemons| && i != d ==> v.daemons[i] == w.daemons[i])
    requires v.log == w.log + [e] && Allowed(w.log, |w.log|, e)
    requires v.holder == match e case BoundSocket(_) => Some(d) case ReleasedSocket(_) => None case _ => w.holder
    requires DaemonOk(v.log, d, v.daemons[d])
    requires Holds(v.daemons[d].phase) <==> v.holder == Some(d)
    ensures Inv(v)
  {
    LogExtends(w.log, e);
    StepFrame(w, v, d);
  }

  /* ---- Each step keeps the invariant ---- */

  /** The account of connection tasks does not depend on the phase and the flags, nor on an event about no task. */
  lemma {:induction false} SameTasks(a: seq<Event>, b: seq<Event>, d: DaemonId, x: Daemon, y: Daemon)
    requires (forall t: TaskId :: TaskOk(a, d, x, t)) && y.tasks == x.tasks && y.spawned == x.spawned
    requires y.requested == x.requested && y.drained == x.drained
    requires forall e: Event :: IsTaskEvent(e) ==> (e in a <==> e in b)
    ensures forall t: TaskId :: TaskOk(b, d, y, t)
  {
    forall t: TaskId ensures TaskOk(b, d, y, t) {
      assert TaskOk(a, d, x, t);
    }
  }

  lemma {:induction false} JobsDrainedAfterToken(log: seq<Event>, d: DaemonId)
    requires LogOk(log)
    ensures DrainedJobs(d) in log ==> WroteToken(d) in log
  {
    forall n | 0 <= n < |log| && log[n] == DrainedJobs(d) ensures WroteToken(d) in log {
      assert Allowed(log, n, log[n]);
    }
  }

  lemma {:induction false} FinishedAfterSpawned(log: seq<Event>, d: DaemonId, t: TaskId)
    requires LogOk(log)
    ensures FinishedTask(d, t) in log ==> SpawnedTask(d, t) in log
  {
    forall n | 0 <= n < |log| && log[n] == FinishedTask(d, t) ensures SpawnedTask(d, t) in log {
      assert Allowed(log, n, log[n]);
    }
  }

  lemma {:induction false} ToldAfterSpawned(log: seq<Event>, d: DaemonId, t: TaskId)
    requires LogOk(log)
    ensures ToldToAbort(d, t) in log ==> SpawnedTask(d, t) in log
  {
    forall n | 0 <= n < |log| && log[n] == ToldToAbort(d, t) ensures SpawnedTask(d, t) in log {
      assert Allowed(log, n, log[n]);
    }
  }

  lemma {:induction false} BindKeeps(w: World, d: DaemonId, possible: bool)
    requires Inv(w) && d < |w.daemons|
    ensures Inv(Apply(w, Bind(d, possible)))
  {
    var x, v := w.daemons[d], Apply(w, Bind(d, possible));
    assert DaemonOk(w.log, d, x);
    if x.phase == Starting {
      SameTasks(w.log, v.log, d, x, v.daemons[d]);
      if w.holder.Some? || !possible {
        StepFrame(w, v, d);
      } else {
        LoggedFrame(w, v, d, BoundSocket(d));
      }
    }
  }

  lemma {:induction false} ReconcileKeeps(w: World, d: DaemonId, ok: bool)
    requires Inv(w) && d < |w.daemons|
    ensures Inv(Apply(w, Reconcile(d, ok)))
  {
    var x, v := w.daemons[d], Apply(w, Reconcile(d, ok));
    assert DaemonOk(w.log, d, x);
    if x.phase == Bound {
      SameTasks(w.log, v.log, d, x, v.daemons[d]);
      HappenedIsIn(w.log, WroteToken(d));
      LoggedFrame(w, v, d, ReconciledManifests(d));
    }
  }

  lemma {:induction false} WriteTokenKeeps(w: World, d: DaemonId, ok: bool)
    requires Inv(w) && d < |w.daemons|
    ensures Inv(Apply(w, WriteToken(d, ok)))
  {
    var x, v := w.daemons[d], Apply(w, WriteToken(d, ok));
    assert DaemonOk(w.log, d, x);
    if x.phase == Reconciled {
      SameTasks(w.log, v.log, d, x, v.daemons[d]);
      if ok {
        JobsDrainedAfterToken(w.log, d);
        HappenedIsIn(w.log, ReconciledManifests(d));
        LoggedFrame(w, v, d, WroteToken(d));
      } else {
        StepFrame(w, v, d);
      }
    }
  }

  lemma {:induction false} AcceptKeeps(w: World, d: DaemonId)
    requires Inv(w) && d < |w.daemons|
    ensures Inv(Apply(w, Accept(d)))
  {
    var x, v := w.daemons[d], Apply(w, Accept(d));
    assert DaemonOk(w.log, d, x);
    if x.phase == Serving && x.shutdownRequested {
      SameTasks(w.log, v.log, d, x, v.daemons[d]);
      StepFrame(w, v, d);
    } else if x.phase == Serving {
      SpawnKeepsTasks(w, d, x, v.daemons[d]);
      HappenedIsIn(w.log, WroteToken(d));
      HappenedIsIn(w.log, DrainedJobs(d));
      LoggedFrame(w, v, d, SpawnedTask(d, x.spawned));
    }
  }

  lemma {:induction false} SpawnKeepsTasks(w: World, d: DaemonId, x: Daemon, y: Daemon)
    requires LogOk(w.log) && forall t: TaskId :: TaskOk(w.log, d, x, t)
    requires y.tasks == x.tasks[x.spawned := Running] && y.spawned == x.spawned + 1
    requires y.requested == x.requested && y.drained == x.drained
    ensures forall t: TaskId :: TaskOk(w.log + [SpawnedTask(d, x.spawned)], d, y, t)
  {
    assert TaskOk(w.log, d, x, x.spawned);
    FinishedAfterSpawned(w.log, d, x.spawned);
    ToldAfterSpawned(w.log, d, x.spawned);
    forall t: TaskId ensures TaskOk(w.log + [SpawnedTask(d, x.spawned)], d, y, t) {
      assert TaskOk(w.log, d, x, t);
    }
  }

  lemma {:induction false} TaskEndsKeeps(w: World, d: DaemonId, t: TaskId)
    requires Inv(w) && d < |w.daemons|
    ensures Inv(Apply(w, TaskEnds(d, t)))
  {
    var x, v := w.daemons[d], Apply(w, TaskEnds(d, t));
    assert DaemonOk(w.log, d, x) && TaskOk(w.log, d, x, t);
    if t in x.tasks && x.tasks[t] != Finished {
      EndKeepsDaemon(w.log, d, x, v.daemons[d], t);
      HappenedIsIn(w.log, SpawnedTask(d, t));
      LoggedFrame(w, v, d, FinishedTask(d, t));
    }
  }

  lemma {:induction false} EndKeepsDaemon(log: seq<Event>, d: DaemonId, x: Daemon, y: Daemon, t: TaskId)
    requires DaemonOk(log, d, x) && t in x.tasks && y == x.(tasks := x.tasks[t := Finished])
    ensures DaemonOk(log + [FinishedTask(d, t)], d, y)
  {
    forall u: TaskId ensures TaskOk(log + [FinishedTask(d, t)], d, y, u) {
      assert TaskOk(log, d, x, u) && TaskOk(log, d, x, t);
    }
  }

  lemma {:induction false} DrainJobsKeeps(w: World, d: DaemonId)
    requires Inv(w) && d < |w.daemons|
    ensures Inv(Apply(w, DrainJobs(d)))
  {
    var x, v := w.daemons[d], Apply(w, DrainJobs(d));
    assert DaemonOk(w.log, d, x);
    if x.phase == DrainingJobs {
      NoneRunningIsSettled(w.log, d, x);
      JobsKeepDaemon(w.log, d, x, v.daemons[d]);
      HappenedIsIn(w.log, WroteToken(d));
      LoggedFrame(w, v, d, DrainedJobs(d));
    }
  }

  lemma {:induction false} JobsKeepDaemon(log: seq<Event>, d: DaemonId, x: Daemon, y: Daemon)
    requires DaemonOk(log, d, x) && x.phase == DrainingJobs && y == x.(phase := ReadyToExit)
    ensures DaemonOk(log + [DrainedJobs(d)], d, y)
  {
    SameTasks(log, log + [DrainedJobs(d)], d, x, y);
  }

  lemma {:induction false} NoneRunningIsSettled(log: seq<Event>, d: DaemonId, x: Daemon)
    requires (forall t: TaskId :: TaskOk(log, d, x, t)) && forall t :: t in x.tasks ==> !x.tasks[t].Running?
    ensures TasksSettled(log, |log|, d)
  {
    forall t: TaskId | Happened(log, |log|, SpawnedTask(d, t))
      ensures Happened(log, |log|, FinishedTask(d, t)) || Happened(log, |log|, ToldToAbort(d, t))
    {
      assert TaskOk(log, d, x, t);
      HappenedIsIn(log, SpawnedTask(d, t));
      HappenedIsIn(log, FinishedTask(d, t));
      HappenedIsIn(log, ToldToAbort(d, t));
    }
  }

  lemma {:induction false} ExitKeeps(w: World, d: DaemonId)
    requires Inv(w) && d < |w.daemons|
    ensures Inv(Apply(w, Exit(d)))
  {
    var x, v := w.daemons[d], Apply(w, Exit(d));
    assert DaemonOk(w.log, d, x);
    if x.phase == ReadyToExit {
      SameTasks(w.log, v.log, d, x, v.daemons[d]);
      HappenedIsIn(w.log, WroteToken(d));
      HappenedIsIn(w.log, DrainedJobs(d));
      LoggedFrame(w, v, d, ReleasedSocket(d));
    }
  }

  lemma {:induction false} ShutDownKeeps(w: World, d: DaemonId, t: TaskId)
    requires Inv(w) && d < |w.daemons|
    ensures Inv(Apply(w, ShutDown(d, t)))
  {
    var x, v := w.daemons[d], Apply(w, ShutDown(d, t));
    assert DaemonOk(w.log, d, x) && TaskOk(w.log, d, x, t);
    if Active(x, t) {
      RequestKeepsDaemon(w.log, d, x, v.daemons[d], t);
      HappenedIsIn(w.log, SpawnedTask(d, t));
      HappenedIsIn(w.log, FinishedTask(d, t));
      LoggedFrame(w, v, d, RequestedShutdown(d, t));
    }
  }

  lemma {:induction false} RequestKeepsDaemon(log: seq<Event>, d: DaemonId, x: Daemon, y: Daemon, t: TaskId)
    requires DaemonOk(log, d, x) && t in x.tasks
    requires y == x.(shutdownRequested := true, requested := x.requested + {t})
    ensures DaemonOk(log + [RequestedShutdown(d, t)], d, y)
  {
    forall u: TaskId ensures TaskOk(log + [RequestedShutdown(d, t)], d, y, u) {
      assert TaskOk(log, d, x, u) && TaskOk(log, d, x, t);
    }
  }

  lemma {:induction false} HandlerDrainKeeps(w: World, d: DaemonId, t: TaskId)
    requires Inv(w) && d < |w.daemons|
    ensures Inv(Apply(w, HandlerDrain(d, t)))
  {
    var x, v := w.daemons[d], Apply(w, HandlerDrain(d, t));
    assert DaemonOk(w.log, d, x) && TaskOk(w.log, d, x, t);
    if Active(x, t) && t in x.requested {
      HandlerKeepsDaemon(w.log, d, x, v.daemons[d], t);
      HappenedIsIn(w.log, RequestedShutdown(d, t));
      HappenedIsIn(w.log, FinishedTask(d, t));
      LoggedFrame(w, v, d, HandlerDrained(d, t));
    }
  }

  lemma {:induction false} HandlerKeepsDaemon(log: seq<Event>, d: DaemonId, x: Daemon, y: Daemon, t: TaskId)
    requires DaemonOk(log, d, x) && y == x.(drained := x.drained + {t})
    ensures DaemonOk(log + [HandlerDrained(d, t)], d, y)
  {
    forall u: TaskId ensures TaskOk(log + [HandlerDrained(d, t)], d, y, u) {
      assert TaskOk(log, d, x, u);
    }
  }

  lemma {:induction false} AnswerKeeps(w: World, d: DaemonId, t: TaskId)
    requires Inv(w) && d < |w.daemons|
    ensures Inv(Apply(w, AnswerShutdown(d, t)))
  {
    var x, v := w.daemons[d], Apply(w, AnswerShutdown(d, t));
    assert DaemonOk(w.log, d, x) && TaskOk(w.log, d, x, t);
    if Active(x, t) && t in x.drained {
      SameTasks(w.log, v.log, d, x, v.daemons[d]);
      HappenedIsIn(w.log, HandlerDrained(d, t));
      HappenedIsIn(w.log, FinishedTask(d, t));
      LoggedFrame(w, v, d, AnsweredShutdown(d, t));
    }
  }

  /** The steps that log nothing. */
  lemma {:induction false} SilentKeeps(w: World, d: DaemonId, step: Step)
    requires Inv(w) && d < |w.daemons| && step.d == d
    requires step.ObserveResponse? || step.Join? || step.LeaveLoop? || step.DrainedAll? || step.StopAwaiting?
    ensures Inv(Apply(w, step))
  {
    var x, v := w.daemons[d], Apply(w, step);
    SilentKeepsDaemon(w, d, step);
    StepFrame(w, v, d);
  }

  lemma {:induction false} SilentKeepsDaemon(w: World, d: DaemonId, step: Step)
    requires d < |w.daemons| && step.d == d && DaemonOk(w.log, d, w.daemons[d])
    requires step.ObserveResponse? || step.Join? || step.LeaveLoop? || step.DrainedAll? || step.StopAwaiting?
    ensures var v := Apply(w, step);
            && v.log == w.log && v.holder == w.holder && DaemonOk(v.log, d, v.daemons[d])
            && (Holds(v.daemons[d].phase) <==> Holds(w.daemons[d].phase))
  {
    var x, y := w.daemons[d], Apply(w, step).daemons[d];
    forall t: TaskId ensures TaskOk(w.log, d, y, t) {
      assert TaskOk(w.log, d, x, t);
    }
  }

  lemma {:induction false} AbortEventsAre(d: DaemonId, tasks: map<TaskId, TaskState>, bound: nat)
    ensures forall e :: e in AbortEvents(d, tasks, bound)
              <==> e.ToldToAbort? && e.d == d && e.t < bound && e.t in tasks && tasks[e.t].Running?
  {
    if bound > 0 {
      AbortEventsAre(d, tasks, bound - 1);
    }
  }

  lemma {:induction false} AbortEventsAllowed(
    log: seq<Event>, d: DaemonId, tasks: map<TaskId, TaskState>, bound: nat, l: seq<Event>)
    requires LogOk(log) && l == log + AbortEvents(d, tasks, bound)
    requires forall t: TaskId :: t < bound && t in tasks && tasks[t].Running?
               ==> SpawnedTask(d, t) in log && FinishedTask(d, t) !in log
    ensures LogOk(l) && HolderAt(l, |l|) == HolderAt(log, |log|)
  {
    if bound == 0 {
      assert l == log;
    } else {
      var told := AbortEvents(d, tasks, bound - 1);
      AbortEventsAllowed(log, d, tasks, bound - 1, log + told);
      AbortEventsAre(d, tasks, bound - 1);
      if bound - 1 in tasks && tasks[bound - 1].Running? {
        assert l == (log + told) + [ToldToAbort(d, bound - 1)];
        OneMoreAbort(log + told, d, bound - 1, l);
      }
    }
  }

  lemma {:induction false} OneMoreAbort(before: seq<Event>, d: DaemonId, t: TaskId, l: seq<Event>)
    requires LogOk(before) && SpawnedTask(d, t) in before && FinishedTask(d, t) !in before
    requires l == before + [ToldToAbort(d, t)]
    ensures LogOk(l) && HolderAt(l, |l|) == HolderAt(before, |before|)
  {
    HappenedIsIn(before, SpawnedTask(d, t));
    HappenedIsIn(before, FinishedTask(d, t));
    LogExtends(before, ToldToAbort(d, t));
  }

  lemma {:induction false} TimeoutKeeps(w: World, d: DaemonId)
    requires Inv(w) && d < |w.daemons|
    ensures Inv(Apply(w, DrainTimedOut(d)))
  {
    var x, v := w.daemons[d], Apply(w, DrainTimedOut(d));
    assert DaemonOk(w.log, d, x);
    if x.phase == Draining {
      RunningAreUnfinished(w.log, d, x);
      AbortEventsAllowed(w.log, d, x.tasks, x.spawned, v.log);
      AbortEventsAre(d, x.tasks, x.spawned);
      AbortKeepsTasks(w.log, AbortEvents(d, x.tasks, x.spawned), d, x, v.daemons[d]);
      StepFrame(w, v, d);
    }
  }

  lemma {:induction false} RunningAreUnfinished(log: seq<Event>, d: DaemonId, x: Daemon)
    requires forall t: TaskId :: TaskOk(log, d, x, t)
    ensures forall t: TaskId :: t < x.spawned && t in x.tasks && x.tasks[t].Running?
              ==> SpawnedTask(d, t) in log && FinishedTask(d, t) !in log
  {
    forall t: TaskId | t < x.spawned && t in x.tasks && x.tasks[t].Running?
      ensures SpawnedTask(d, t) in log && FinishedTask(d, t) !in log
    {
      assert TaskOk(log, d, x, t);
    }
  }

  lemma {:induction false} AbortKeepsTasks(log: seq<Event>, told: seq<Event>, d: DaemonId, x: Daemon, y: Daemon)
    requires forall t: TaskId :: TaskOk(log, d, x, t)
    requires forall e :: e in told
               <==> e.ToldToAbort? && e.d == d && e.t < x.spawned && e.t in x.tasks && x.tasks[e.t].Running?
    requires y.tasks == AbortAll(x.tasks) && y.spawned == x.spawned
    requires y.requested == x.requested && y.drained == x.drained
    ensures forall t: TaskId :: TaskOk(log + told, d, y, t)
  {
    forall t: TaskId ensures TaskOk(log + told, d, y, t) {
      assert TaskOk(log, d, x, t);
      assert ToldToAbort(d, t) in told <==> t < x.spawned && t in x.tasks && x.tasks[t].Running?;
    }
  }

  lemma {:induction false} StepKeepsInv(w: World, step: Step)
    requires Inv(w)
    ensures Inv(Apply(w, step))
  {
    if step.d < |w.daemons| {
      match step
      case Bind(d, possible) => BindKeeps(w, d, possible);
      case Reconcile(d, ok) => ReconcileKeeps(w, d, ok);
      case WriteToken(d, ok) => WriteTokenKeeps(w, d, ok);
      case Accept(d) => AcceptKeeps(w, d);
      case ShutDown(d, t) => ShutDownKeeps(w, d, t);
      case HandlerDrain(d, t) => HandlerDrainKeeps(w, d, t);
      case AnswerShutdown(d, t) => AnswerKeeps(w, d, t);
      case TaskEnds(d, t) => TaskEndsKeeps(w, d, t);
      case DrainTimedOut(d) => TimeoutKeeps(w, d);
      case DrainJobs(d) => DrainJobsKeeps(w, d);
      case Exit(d) => ExitKeeps(w, d);
      case _ => SilentKeeps(w, step.d, step);
    }
  }

  lemma {:induction false} RunKeepsInv(w: World, steps: seq<Step>)
    requires Inv(w)
    ensures Inv(Run(w, steps))
    decreases |steps|
  {
    if steps != [] {
      StepKeepsInv(w, steps[0]);
      RunKeepsInv(Apply(w, steps[0]), steps[1..]);
    }
  }

  /* ---- The guarantees ---- */

  /** In every interleaving the log of events is in order: only the holder of the socket reconciles, writes
      the token, serves and drains its jobs; the token comes after the reconciliation; the daemon drains its
      jobs when every connection task has finished or was told to abort, and having written its token it gives
      up the socket only after that. A task that was asked to shut the daemon down drains the jobs before that,
      and answers only then. */
  lemma {:induction false} EveryRunIsOrderly(w: World, steps: seq<Step>)
    requires Initial(w)
    ensures LogOk(Run(w, steps).log) && Run(w, steps).holder == HolderAt(Run(w, steps).log, |Run(w, steps).log|)
  {
    forall d: nat | d < |w.daemons| ensures DaemonOk(w.log, d, w.daemons[d]) {
      assert forall t: TaskId :: TaskOk(w.log, d, w.daemons[d], t);
    }
    RunKeepsInv(w, steps);
  }

  lemma {:induction false} HolderSince(log: seq<Event>, i: nat, d: DaemonId, n: nat)
    requires LogOk(log) && i < n <= |log| && log[i] == BoundSocket(d)
    requires forall k :: i < k < n ==> log[k] != ReleasedSocket(d)
    ensures HolderAt(log, n) == Some(d)
  {
    if n > i + 1 {
      HolderSince(log, i, d, n - 1);
      assert Allowed(log, n - 1, log[n - 1]);
    }
  }

  /** Two daemons never hold the socket at once: between two bindings the first daemon let go. */
  lemma {:induction false} AtMostOneHolder(log: seq<Event>, i: nat, j: nat)
    requires LogOk(log) && i < j < |log| && log[i].BoundSocket? && log[j].BoundSocket?
    ensures exists k :: i < k < j && log[k] == ReleasedSocket(log[i].d)
  {
    assert Allowed(log, j, log[j]);
    if forall k :: i < k < j ==> log[k] != ReleasedSocket(log[i].d) {
      HolderSince(log, i, log[i].d, j);
    }
  }

  /** The daemon's own drain, without which a daemon that wrote its token does not let go of the socket, comes when
      all its connection tasks are settled, and none is spawned after it. */
  lemma {:induction false} ReleaseFollowsSettledDrain(log: seq<Event>, j: nat, d: DaemonId)
    requires LogOk(log) && j < |log| && log[j] == ReleasedSocket(d) && Happened(log, j, WroteToken(d))
    ensures exists k :: 0 <= k < j && log[k] == DrainedJobs(d) && TasksSettled(log, k, d)
                        && forall i, t :: k < i < |log| ==> log[i] != SpawnedTask(d, t)
  {
    assert Allowed(log, j, log[j]);
    var k :| 0 <= k < j && log[k] == DrainedJobs(d);
    assert Allowed(log, k, log[k]);
    forall i, t: TaskId | k < i < |log| ensures log[i] != SpawnedTask(d, t) {
      assert Allowed(log, i, log[i]);
    }
  }

  /** A shutdown request is answered only after its task has drained the jobs, drained only after it was asked
      to, and asked only of a spawned task. */
  lemma {:induction false} AnswerFollowsDrain(log: seq<Event>, j: nat, d: DaemonId, t: TaskId)
    requires LogOk(log) && j < |log| && log[j] == AnsweredShutdown(d, t)
    ensures exists h, i, k :: 0 <= h < i < k < j && log[h] == SpawnedTask(d, t) && log[i] == RequestedShutdown(d, t)
                              && log[k] == HandlerDrained(d, t)
  {
    assert Allowed(log, j, log[j]);
    var k :| 0 <= k < j && log[k] == HandlerDrained(d, t);
    assert Allowed(log, k, log[k]);
    var i :| 0 <= i < k && log[i] == RequestedShutdown(d, t);
    assert Allowed(log, i, log[i]);
    var h :| 0 <= h < i && log[h] == SpawnedTask(d, t);
  }

  /** The drain of a request does not wait for the tasks: it happens in the middle of one, whatever others are
      still running. */
  lemma {:induction false} HandlerDrainsAmongTasks(w: World, d: DaemonId, t: TaskId)
    requires Inv(w) && d < |w.daemons| && t in w.daemons[d].tasks && w.daemons[d].tasks[t].Running?
    ensures var after := Run(w, [ShutDown(d, t), HandlerDrain(d, t)]);
            && after.log == w.log + [RequestedShutdown(d, t), HandlerDrained(d, t)]
            && !TasksSettled(after.log, |after.log|, d)
  {
    var first, second := ShutDown(d, t), HandlerDrain(d, t);
    var mid := Apply(w, first);
    var after := Apply(mid, second);
    assert [first, second][1..] == [second] && [second][1..] == [];
    assert Run(after, []) == after;
    assert Run(mid, [second]) == after;
    StepKeepsInv(w, first);
    StepKeepsInv(mid, second);
    assert after.log == w.log + [RequestedShutdown(d, t), HandlerDrained(d, t)];
    assert DaemonOk(after.log, d, after.daemons[d]);
    assert TaskOk(after.log, d, after.daemons[d], t);
    HappenedIsIn(after.log, SpawnedTask(d, t));
    HappenedIsIn(after.log, FinishedTask(d, t));
    HappenedIsIn(after.log, ToldToAbort(d, t));
  }

  /** From its release on, a daemon reconciles nothing, writes no token, spawns no task and runs no drain of its
      own, unless it binds again; only a task that was told to abort may still be in the middle of a request. */
  lemma {:induction false} NothingAfterRelease(log: seq<Event>, i: nat, j: nat, d: DaemonId)
    requires LogOk(log) && i < j < |log| && log[i] == ReleasedSocket(d) && log[j].d == d
    requires log[j].ReconciledManifests? || log[j].WroteToken? || log[j].SpawnedTask? || log[j].DrainedJobs?
    ensures exists k :: i < k < j && log[k] == BoundSocket(d)
  {
    assert Allowed(log, j, log[j]);
    if forall k :: i < k < j ==> log[k] != BoundSocket(d) {
      NotHolderSince(log, i, d, j);
    }
  }

  lemma {:induction false} NotHolderSince(log: seq<Event>, i: nat, d: DaemonId, n: nat)
    requires LogOk(log) && i < n <= |log| && log[i] == ReleasedSocket(d)
    requires forall k :: i < k < n ==> log[k] != BoundSocket(d)
    ensures HolderAt(log, n) != Some(d)
  {
    if n > i + 1 {
      NotHolderSince(log, i, d, n - 1);
    }
  }

  /* ---- Progress ---- */

  /** What a daemon does from binding to serving. */
  function StartUp(d: DaemonId, reconciles: bool, writes: bool): seq<Step> {
    [Bind(d, true), Reconcile(d, reconciles), WriteToken(d, writes), Exit(d)]
  }

  lemma {:induction false} RunSteps(w: World, first: Step, rest: seq<Step>)
    ensures Run(w, [first] + rest) == Run(Apply(w, first), rest)
  {
    assert ([first] + rest)[1..] == rest;
  }

  lemma {:induction false} RunFour(w: World, a: Step, b: Step, c: Step, d: Step)
    ensures Run(w, [a, b, c, d]) == Apply(Apply(Apply(Apply(w, a), b), c), d)
  {
    var w1 := Apply(w, a);
    var w2 := Apply(w1, b);
    var w3 := Apply(w2, c);
    RunSteps(w3, d, []);
    RunSteps(w2, c, [d]);
    RunSteps(w1, b, [c, d]);
    RunSteps(w, a, [b, c, d]);
    assert [a] + [b, c, d] == [a, b, c, d] && [b] + [c, d] == [b, c, d] && [c] + [d] == [c, d] && [d] + [] == [d];
  }

  /** A daemon that finds the socket free serves if and only if it reconciles and writes its token; otherwise it has
      let go of the socket again, without a token. */
  lemma {:induction false} StartsExactly(w: World, d: DaemonId, reconciles: bool, writes: bool)
    requires d < |w.daemons| && w.daemons[d].phase == Starting && w.holder.None?
    ensures var after := Run(w, StartUp(d, reconciles, writes));
            && d < |after.daemons|
            && (after.daemons[d].phase == Serving <==> reconciles && writes)
            && (after.holder == Some(d) <==> reconciles && writes)
            && after.log == w.log + [BoundSocket(d), ReconciledManifests(d)]
                            + [if reconciles && writes then WroteToken(d) else ReleasedSocket(d)]
  {
    RunFour(w, Bind(d, true), Reconcile(d, reconciles), WriteToken(d, writes), Exit(d));
  }

  /** What a serving daemon does to shut down, its connection tasks not ending in time. */
  function WindDown(d: DaemonId, signalled: bool, timedOut: bool): seq<Step> {
    [LeaveLoop(d, signalled)] + [DrainTimedOut(d), StopAwaiting(d, timedOut), DrainJobs(d), Exit(d)]
  }

  /** It gets through if and only if it was signalled or asked to, and, if asked, some answer was seen or awaited in
      vain; it has then told its running tasks to abort, drained its jobs and let go of the socket. */
  lemma {:induction false} WindsDownExactly(w: World, d: DaemonId, signalled: bool, timedOut: bool)
    requires d < |w.daemons| && w.daemons[d].phase == Serving
    ensures var x, after := w.daemons[d], Run(w, WindDown(d, signalled, timedOut));
            var ends := (signalled || x.shutdownRequested) && (x.shutdownRequested ==> x.responseObserved || timedOut);
            && d < |after.daemons|
            && (after.daemons[d].phase == Exited <==> ends)
            && (ends ==> after.holder.None?
                         && after.log == w.log + AbortEvents(d, x.tasks, x.spawned) + [DrainedJobs(d)] + [ReleasedSocket(d)])
  {
    var left := Apply(w, LeaveLoop(d, signalled));
    RunSteps(w, LeaveLoop(d, signalled), [DrainTimedOut(d), StopAwaiting(d, timedOut), DrainJobs(d), Exit(d)]);
    RunFour(left, DrainTimedOut(d), StopAwaiting(d, timedOut), DrainJobs(d), Exit(d));
  }

  /** A task that is asked to shut the daemon down leaves it with a request, and when it answers, or any running task
      sees an answer written, with an answered one. */
  lemma {:induction false} AnsweredRequestIsSeen(w: World, d: DaemonId, t: TaskId, u: TaskId)
    requires d < |w.daemons| && Active(w.daemons[d], t) && Active(w.daemons[d], u)
    ensures var asked := Apply(w, ShutDown(d, t));
            && asked.daemons[d].shutdownRequested && asked.daemons[d].responseObserved == w.daemons[d].responseObserved
            && Apply(Apply(asked, HandlerDrain(d, t)), AnswerShutdown(d, t)).daemons[d].responseObserved
            && Apply(asked, ObserveResponse(d, u)).daemons[d].responseObserved
  {
  }

  /** A request is on record exactly when some task was asked to, and no answer is seen without one. */
  predicate RequestsTell(w: World) {
    forall d :: 0 <= d < |w.daemons| ==>
      (w.daemons[d].shutdownRequested <==> w.daemons[d].requested != {})
      && (w.daemons[d].responseObserved ==> w.daemons[d].requested != {})
      && w.daemons[d].drained <= w.daemons[d].requested
  }

  lemma {:induction false} RunKeepsRequests(w: World, steps: seq<Step>)
    requires RequestsTell(w)
    ensures RequestsTell(Run(w, steps))
    decreases |steps|
  {
    if steps != [] {
      StepKeepsRequests(w, steps[0]);
      RunKeepsRequests(Apply(w, steps[0]), steps[1..]);
    }
  }

  lemma {:induction false} StepKeepsRequests(w: World, step: Step)
    requires RequestsTell(w)
    ensures RequestsTell(Apply(w, step))
  {
  }

  /** A daemon that cannot bind exits at once and leaves no trace; */
  lemma {:induction false} LoserExits(w: World, d: DaemonId, possible: bool)
    requires d < |w.daemons| && w.daemons[d].phase == Starting && (w.holder.Some? || !possible)
    ensures var after := Apply(w, Bind(d, possible));
            after.daemons[d].phase == Exited && after.holder == w.holder && after.log == w.log
  {
  }

  /** and one that is to shut down accepts no connection any more, but stops accepting. */
  lemma {:induction false} AcceptsExactly(w: World, d: DaemonId)
    requires d < |w.daemons| && w.daemons[d].phase == Serving
    ensures var x, after := w.daemons[d], Apply(w, Accept(d));
            if x.shutdownRequested then after.daemons[d].phase == Draining && after.log == w.log
            else after.daemons[d].phase == Serving && after.log == w.log + [SpawnedTask(d, x.spawned)]
                 && Active(after.daemons[d], x.spawned)
  {
  }

  /** Joining the connection tasks one after the other. */
  function Joins(d: DaemonId, n: nat): seq<Step> {
    seq(n, i requires 0 <= i < n => Join(d, i))
  }

  /** Daemon d has joined its tasks below n, and nothing else has happened. */
  ghost predicate JoinedUpTo(w: World, after: World, d: DaemonId, n: nat)
    requires d < |w.daemons|
  {
    && |after.daemons| == |w.daemons| && after.log == w.log && after.holder == w.holder
    && after.daemons[d].phase == w.daemons[d].phase && after.daemons[d].shutdownRequested == w.daemons[d].shutdownRequested
    && forall t: TaskId :: t in after.daemons[d].tasks <==> n <= t && t in w.daemons[d].tasks
  }

  lemma {:induction false} RunAppend(w: World, steps: seq<Step>, last: Step)
    ensures Run(w, steps + [last]) == Apply(Run(w, steps), last)
    decreases |steps|
  {
    if steps == [] {
      RunSteps(w, last, []);
      assert [last] + [] == steps + [last];
    } else {
      RunAppend(Apply(w, steps[0]), steps[1..], last);
      assert (steps + [last])[1..] == steps[1..] + [last];
    }
  }

  lemma {:induction false} JoinsAll(w: World, d: DaemonId, n: nat)
    requires d < |w.daemons| && w.daemons[d].phase == Draining
    requires forall t :: t in w.daemons[d].tasks ==> w.daemons[d].tasks[t].Finished?
    ensures var after := Run(w, Joins(d, n));
            JoinedUpTo(w, after, d, n) && forall t :: t in after.daemons[d].tasks ==> after.daemons[d].tasks[t].Finished?
  {
    if n > 0 {
      JoinsAll(w, d, n - 1);
      assert Joins(d, n) == Joins(d, n - 1) + [Join(d, n - 1)];
      RunAppend(w, Joins(d, n - 1), Join(d, n - 1));
    }
  }

  /** When all tasks have finished in time, the daemon joins them and goes on without telling any to abort. */
  lemma {:induction false} DrainsQuietly(w: World, d: DaemonId)
    requires Inv(w) && d < |w.daemons| && w.daemons[d].phase == Draining
    requires forall t :: t in w.daemons[d].tasks ==> w.daemons[d].tasks[t].Finished?
    ensures var after := Run(w, Joins(d, w.daemons[d].spawned) + [DrainedAll(d)]);
            d < |after.daemons| && after.daemons[d].phase == AwaitingResponse && after.log == w.log
  {
    var n := w.daemons[d].spawned;
    JoinsAll(w, d, n);
    RunAppend(w, Joins(d, n), DrainedAll(d));
    forall t: TaskId ensures t !in Run(w, Joins(d, n)).daemons[d].tasks {
      assert DaemonOk(w.log, d, w.daemons[d]);
      assert TaskOk(w.log, d, w.daemons[d], t);
    }
    assert Run(w, Joins(d, n)).daemons[d].tasks == map[];
  }
}
